/** The dashboard of `GET /analytics/dashboard` in server.js: counts over a month window and a
    day window, the mean response time, and the five most reported locations. The window
    boundaries are inputs. */
module Analytics {
  import opened Seqs
  import opened Sorting
  import opened AlertModel

  /** The query `{timestamp: {$gte: t}}`, in store order. */
  function CreatedSince(t: int): Alert -> bool
  {
    (a: Alert) => a.timestamp >= t
  }

  function Since(alerts: seq<Alert>, t: int): seq<Alert>
  {
    Filter(alerts, CreatedSince(t))
  }

  /** A later window boundary selects no more alerts (the day lies inside the month). */
  lemma LaterWindowIsSmaller(alerts: seq<Alert>, t1: int, t2: int)
    requires t1 <= t2
    ensures |Since(alerts, t2)| <= |Since(alerts, t1)|
  {
    FilterMonotone(alerts, CreatedSince(t2), CreatedSince(t1));
  }

  predicate IsResponse(a: Alert)
  {
    a.status == Resolved || a.status == Ongoing
  }

  predicate IsFalseAlarm(a: Alert)
  {
    a.isFalseAlert
  }

  predicate IsResolved(a: Alert)
  {
    a.status == Resolved
  }

  /** `a.responseTime !== null`. */
  predicate HasResponseTime(a: Alert)
  {
    a.responseTime.Some?
  }

  function ResponseTimeOf(a: Alert): real
  {
    if a.responseTime.Some? then a.responseTime.value else 0.0
  }

  /** `reduce((sum, a) => sum + a.responseTime, 0)`, a left fold. */
  function ResponseTimeSum(s: seq<Alert>): real
    decreases |s|
  {
    if s == [] then 0.0 else ResponseTimeSum(s[..|s| - 1]) + ResponseTimeOf(s[|s| - 1])
  }

  /** Mean of the recorded response times, or 0 when none is recorded. */
  function AverageResponseTime(monthly: seq<Alert>): real
  {
    var timed := Filter(monthly, HasResponseTime);
    if |timed| > 0 then ResponseTimeSum(timed) / (|timed| as real) else 0.0
  }

  lemma AverageOfNoRecordedTimeIsZero(monthly: seq<Alert>)
    requires forall i :: 0 <= i < |monthly| ==> monthly[i].responseTime.None?
    ensures AverageResponseTime(monthly) == 0.0
  {
    FilterNone(monthly, HasResponseTime);
  }

  lemma {:induction false} SumWithinBounds(s: seq<Alert>, lo: real, hi: real)
    requires forall i :: 0 <= i < |s| ==> lo <= ResponseTimeOf(s[i]) <= hi
    ensures (|s| as real) * lo <= ResponseTimeSum(s) <= (|s| as real) * hi
    decreases |s|
  {
    if s != [] {
      SumWithinBounds(s[..|s| - 1], lo, hi);
    }
  }

  lemma DivisionWithinBounds(sum: real, n: real, lo: real, hi: real)
    requires n > 0.0 && n * lo <= sum <= n * hi
    ensures lo <= sum / n <= hi
  {
    assert sum / n * n == sum;
  }

  /** The mean of values that all lie between `lo` and `hi` lies between them too. */
  lemma MeanWithinBounds(s: seq<Alert>, lo: real, hi: real)
    requires s != []
    requires forall i :: 0 <= i < |s| ==> lo <= ResponseTimeOf(s[i]) <= hi
    ensures lo <= ResponseTimeSum(s) / (|s| as real) <= hi
  {
    SumWithinBounds(s, lo, hi);
    DivisionWithinBounds(ResponseTimeSum(s), |s| as real, lo, hi);
  }

  /** The recorded response times of the alerts, when all of them lie between `lo` and `hi`. */
  lemma TimedWithinBounds(monthly: seq<Alert>, lo: real, hi: real)
    requires forall i :: 0 <= i < |monthly| && monthly[i].responseTime.Some? ==>
               lo <= monthly[i].responseTime.value <= hi
    ensures var timed := Filter(monthly, HasResponseTime);
      forall j :: 0 <= j < |timed| ==> lo <= ResponseTimeOf(timed[j]) <= hi
  {
    var timed := Filter(monthly, HasResponseTime);
    FilterMembers(monthly, HasResponseTime);
    forall j | 0 <= j < |timed|
      ensures lo <= ResponseTimeOf(timed[j]) <= hi
    {
      var m :| 0 <= m < |monthly| && monthly[m] == timed[j];
    }
  }

  /** The mean lies between the smallest and the largest recorded response time. */
  lemma AverageWithinBounds(monthly: seq<Alert>, lo: real, hi: real)
    requires exists i :: 0 <= i < |monthly| && monthly[i].responseTime.Some?
    requires forall i :: 0 <= i < |monthly| && monthly[i].responseTime.Some? ==>
               lo <= monthly[i].responseTime.value <= hi
    ensures lo <= AverageResponseTime(monthly) <= hi
  {
    var timed := Filter(monthly, HasResponseTime);
    FilterMembers(monthly, HasResponseTime);
    var i :| 0 <= i < |monthly| && monthly[i].responseTime.Some?;
    assert monthly[i] in timed;
    TimedWithinBounds(monthly, lo, hi);
    MeanWithinBounds(timed, lo, hi);
  }

  /** `alert.location || "Unknown Location"`: an empty label counts as unknown. */
  function Label(a: Alert): string
  {
    if a.location == "" then UnknownLocation else a.location
  }

  function LabelIs(l: string): Alert -> bool
  {
    (a: Alert) => Label(a) == l
  }

  function Occurrences(alerts: seq<Alert>, l: string): nat
  {
    |Filter(alerts, LabelIs(l))|
  }

  /** The keys of `locationCounts` in insertion order: each label once, where it first occurs. */
  function Labels(alerts: seq<Alert>): (r: seq<string>)
    ensures |r| <= |alerts|
    decreases |alerts|
  {
    if alerts == [] then []
    else
      var prev := Labels(alerts[..|alerts| - 1]);
      var l := Label(alerts[|alerts| - 1]);
      if l in prev then prev else prev + [l]
  }

  lemma {:induction false} LabelsAreDistinct(alerts: seq<Alert>)
    ensures forall i, j :: 0 <= i < j < |Labels(alerts)| ==> Labels(alerts)[i] != Labels(alerts)[j]
    decreases |alerts|
  {
    if alerts != [] {
      var init, l := alerts[..|alerts| - 1], Label(alerts[|alerts| - 1]);
      LabelsAreDistinct(init);
      assert Labels(alerts) == if l in Labels(init) then Labels(init) else Labels(init) + [l];
    }
  }

  lemma {:induction false} EveryLabelIsListed(alerts: seq<Alert>)
    ensures forall i :: 0 <= i < |alerts| ==> Label(alerts[i]) in Labels(alerts)
    decreases |alerts|
  {
    if alerts != [] {
      var init := alerts[..|alerts| - 1];
      EveryLabelIsListed(init);
      assert forall i :: 0 <= i < |init| ==> alerts[i] == init[i];
    }
  }

  lemma {:induction false} ListedLabelsOccur(alerts: seq<Alert>)
    ensures forall j :: 0 <= j < |Labels(alerts)| ==>
              exists i :: 0 <= i < |alerts| && Label(alerts[i]) == Labels(alerts)[j]
    decreases |alerts|
  {
    if alerts != [] {
      var init := alerts[..|alerts| - 1];
      ListedLabelsOccur(init);
      var r0, l := Labels(init), Label(alerts[|alerts| - 1]);
      assert Labels(alerts) == if l in r0 then r0 else r0 + [l];
      forall j | 0 <= j < |Labels(alerts)|
        ensures exists i :: 0 <= i < |alerts| && Label(alerts[i]) == Labels(alerts)[j]
      {
        if j < |r0| {
          assert Labels(alerts)[j] == r0[j];
          var i :| 0 <= i < |init| && Label(init[i]) == r0[j];
          assert alerts[i] == init[i];
        } else {
          assert Label(alerts[|alerts| - 1]) == Labels(alerts)[j];
        }
      }
    } else {
      assert Labels(alerts) == [];
    }
  }

  /** The labels are distinct, and they are exactly the labels the alerts carry. */
  lemma LabelsAreTheDistinctLabels(alerts: seq<Alert>)
    ensures var r := Labels(alerts);
      && (forall i, j :: 0 <= i < j < |r| ==> r[i] != r[j])
      && (forall i :: 0 <= i < |alerts| ==> Label(alerts[i]) in r)
      && (forall j :: 0 <= j < |r| ==> exists i :: 0 <= i < |alerts| && Label(alerts[i]) == r[j])
  {
    LabelsAreDistinct(alerts);
    EveryLabelIsListed(alerts);
    ListedLabelsOccur(alerts);
  }

  /** The labels of a prefix of the alerts come first, in the same order: a label that occurs
      earlier is listed earlier. */
  lemma {:induction false} LabelsOfPrefix(alerts: seq<Alert>, n: nat)
    requires n <= |alerts|
    ensures Labels(alerts[..n]) <= Labels(alerts)
    decreases |alerts| - n
  {
    if n < |alerts| {
      LabelsOfPrefix(alerts, n + 1);
      assert alerts[..n + 1][..n] == alerts[..n];
    } else {
      assert alerts[..n] == alerts;
    }
  }

  datatype LocationCount = LocationCount(location: string, count: nat)

  function Location(e: LocationCount): string
  {
    e.location
  }

  function Count(e: LocationCount): int
  {
    e.count
  }

  /** One entry per label, with the number of alerts carrying it. */
  function Tally(alerts: seq<Alert>, ls: seq<string>): seq<LocationCount>
  {
    seq(|ls|, j requires 0 <= j < |ls| => LocationCount(ls[j], Occurrences(alerts, ls[j])))
  }

  /** `Object.entries(locationCounts).map(...)`. */
  function LocationCounts(alerts: seq<Alert>): seq<LocationCount>
  {
    Tally(alerts, Labels(alerts))
  }

  lemma OccurrencesStep(s: seq<Alert>, a: Alert, l: string)
    ensures Occurrences(s + [a], l) == Occurrences(s, l) + (if Label(a) == l then 1 else 0)
  {
    FilterConcat(s, [a], LabelIs(l));
  }

  /** A label that is not among `Labels(s)` occurs nowhere in `s`. */
  lemma UnlistedLabelDoesNotOccur(s: seq<Alert>, l: string)
    requires l !in Labels(s)
    ensures Occurrences(s, l) == 0
  {
    LabelsAreTheDistinctLabels(s);
    FilterNone(s, LabelIs(l));
  }

  lemma LabelsStep(s: seq<Alert>, a: Alert)
    ensures Labels(s + [a]) == if Label(a) in Labels(s) then Labels(s) else Labels(s) + [Label(a)]
  {
    assert (s + [a])[..|s|] == s;
  }

  /** The contents of `locationCounts` once the alerts `s` have been counted one by one. */
  function CountMap(s: seq<Alert>): map<string, nat>
    decreases |s|
  {
    if s == [] then map[]
    else
      var m, loc := CountMap(s[..|s| - 1]), Label(s[|s| - 1]);
      m[loc := (if loc in m then m[loc] else 0) + 1]
  }

  /** The counted map holds exactly the labels, each with the number of alerts carrying it. */
  lemma {:induction false} CountMapIsOccurrences(s: seq<Alert>)
    ensures forall l :: l in CountMap(s) <==> l in Labels(s)
    ensures forall l :: l in CountMap(s) ==> CountMap(s)[l] == Occurrences(s, l)
    decreases |s|
  {
    if s != [] {
      var init, a := s[..|s| - 1], s[|s| - 1];
      CountMapIsOccurrences(init);
      assert s == init + [a];
      LabelsStep(init, a);
      forall l | l in CountMap(s)
        ensures CountMap(s)[l] == Occurrences(s, l)
      {
        OccurrencesStep(init, a, l);
        if l !in Labels(init) {
          UnlistedLabelDoesNotOccur(init, l);
        }
      }
    }
  }

  lemma CountedIffListed(s: seq<Alert>, l: string)
    ensures l in CountMap(s) <==> l in Labels(s)
  {
    CountMapIsOccurrences(s);
  }

  lemma CountMapStep(s: seq<Alert>, a: Alert)
    ensures var m, loc := CountMap(s), Label(a);
      CountMap(s + [a]) == m[loc := (if loc in m then m[loc] else 0) + 1]
  {
    assert (s + [a])[..|s|] == s;
  }

  /** Counting the alert at `i` after those before it. */
  lemma CountOneMore(alerts: seq<Alert>, i: nat)
    requires i < |alerts|
    ensures var m, ls, loc := CountMap(alerts[..i]), Labels(alerts[..i]), Label(alerts[i]);
      && (loc in m <==> loc in ls)
      && CountMap(alerts[..i + 1]) == m[loc := (if loc in m then m[loc] else 0) + 1]
      && Labels(alerts[..i + 1]) == if loc in m then ls else ls + [loc]
  {
    var done := alerts[..i];
    assert alerts[..i + 1] == done + [alerts[i]];
    CountedIffListed(done, Label(alerts[i]));
    LabelsStep(done, alerts[i]);
    CountMapStep(done, alerts[i]);
  }

  /** Listing the counted map in key order gives the entries of `Object.entries`. */
  lemma CountMapEntries(s: seq<Alert>, entries: seq<LocationCount>)
    requires |entries| == |Labels(s)|
    requires forall j :: 0 <= j < |entries| ==>
               Labels(s)[j] in CountMap(s) && entries[j] == LocationCount(Labels(s)[j], CountMap(s)[Labels(s)[j]])
    ensures entries == LocationCounts(s)
  {
    CountMapIsOccurrences(s);
  }

  lemma ListedAreCounted(s: seq<Alert>)
    ensures forall j :: 0 <= j < |Labels(s)| ==> Labels(s)[j] in CountMap(s)
  {
    CountMapIsOccurrences(s);
  }

  /** The `forEach` that fills `locationCounts`, then its entries in key order. */
  method CountLocations(alerts: seq<Alert>) returns (entries: seq<LocationCount>)
    ensures entries == LocationCounts(alerts)
  {
    var counts: map<string, nat> := map[];
    var keys: seq<string> := [];
    for i := 0 to |alerts|
      invariant keys == Labels(alerts[..i])
      invariant counts == CountMap(alerts[..i])
    {
      var loc := Label(alerts[i]);
      CountOneMore(alerts, i);
      if loc !in counts {
        keys := keys + [loc];
      }
      counts := counts[loc := (if loc in counts then counts[loc] else 0) + 1];
    }
    assert alerts[..|alerts|] == alerts;
    ListedAreCounted(alerts);
    entries := seq(|keys|, j requires 0 <= j < |keys| => LocationCount(keys[j], counts[keys[j]]));
    CountMapEntries(alerts, entries);
  }

  /** Each entry counts the alerts with its label, at least one; labels are distinct. */
  lemma LocationCountsAreOccurrences(alerts: seq<Alert>)
    ensures var es := LocationCounts(alerts);
      && InjectiveOn(es, Location)
      && forall j :: 0 <= j < |es| ==> es[j].count == Occurrences(alerts, es[j].location) >= 1
  {
    var es, ls := LocationCounts(alerts), Labels(alerts);
    LabelsAreTheDistinctLabels(alerts);
    forall j | 0 <= j < |es|
      ensures es[j].count >= 1
    {
      var i :| 0 <= i < |alerts| && Label(alerts[i]) == ls[j];
      FilterMembers(alerts, LabelIs(ls[j]));
      assert alerts[i] in Filter(alerts, LabelIs(ls[j]));
    }
  }

  /** Every alert's label has an entry. */
  lemma EveryLabelIsCounted(alerts: seq<Alert>, i: nat)
    requires i < |alerts|
    ensures exists j :: 0 <= j < |LocationCounts(alerts)| && LocationCounts(alerts)[j].location == Label(alerts[i])
  {
    var ls := Labels(alerts);
    LabelsAreTheDistinctLabels(alerts);
    var j :| 0 <= j < |ls| && ls[j] == Label(alerts[i]);
    assert LocationCounts(alerts)[j].location == ls[j];
  }

  function SumCounts(es: seq<LocationCount>): int
    decreases |es|
  {
    if es == [] then 0 else SumCounts(es[..|es| - 1]) + es[|es| - 1].count
  }

  lemma {:induction false} TallyStep(s: seq<Alert>, a: Alert, ls: seq<string>)
    ensures SumCounts(Tally(s + [a], ls)) == SumCounts(Tally(s, ls)) + multiset(ls)[Label(a)]
    decreases |ls|
  {
    if ls != [] {
      var init, l := ls[..|ls| - 1], ls[|ls| - 1];
      TallyStep(s, a, init);
      TallyLast(s + [a], ls);
      TallyLast(s, ls);
      OccurrencesStep(s, a, l);
      assert ls == init + [l];
    }
  }

  lemma TallyLast(s: seq<Alert>, ls: seq<string>)
    requires ls != []
    ensures SumCounts(Tally(s, ls)) == SumCounts(Tally(s, ls[..|ls| - 1])) + Occurrences(s, ls[|ls| - 1])
  {
    assert Tally(s, ls)[..|ls| - 1] == Tally(s, ls[..|ls| - 1]);
  }

  lemma {:induction false} Tally1(s: seq<Alert>, ls: seq<string>, l: string)
    ensures SumCounts(Tally(s, ls + [l])) == SumCounts(Tally(s, ls)) + Occurrences(s, l)
  {
    assert Tally(s, ls + [l])[..|ls|] == Tally(s, ls);
  }

  lemma {:induction false} DistinctMultiplicity(ls: seq<string>, x: string)
    requires forall i, j :: 0 <= i < j < |ls| ==> ls[i] != ls[j]
    ensures multiset(ls)[x] == if x in ls then 1 else 0
    decreases |ls|
  {
    if ls != [] {
      DistinctMultiplicity(ls[1..], x);
      assert ls == [ls[0]] + ls[1..];
      assert ls[0] !in ls[1..];
    }
  }

  /** Before the top-five cut, the per-location counts add up to the number of alerts. */
  lemma {:induction false} LocationCountsTotal(alerts: seq<Alert>)
    ensures SumCounts(LocationCounts(alerts)) == |alerts|
    decreases |alerts|
  {
    if alerts != [] {
      var init, a := alerts[..|alerts| - 1], alerts[|alerts| - 1];
      assert init + [a] == alerts;
      LocationCountsTotal(init);
      var ls := Labels(init);
      var l := Label(a);
      LabelsAreTheDistinctLabels(init);
      TallyStep(init, a, ls);
      DistinctMultiplicity(ls, l);
      if l !in ls {
        Tally1(alerts, ls, l);
        FilterConcat(init, [a], LabelIs(l));
        FilterNone(init, LabelIs(l));
      }
    }
  }

  /** The entries sorted by count, stably, and cut to five. */
  function TopLocations(entries: seq<LocationCount>): (r: seq<LocationCount>)
    ensures |r| == Min(5, |entries|)
    ensures Descending(r, Count)
    ensures forall i :: 0 <= i < |r| ==> r[i] in entries
    ensures forall j :: 0 <= j < |entries| && entries[j] !in r ==>
              forall i :: 0 <= i < |r| ==> r[i].count >= entries[j].count
  {
    var sorted := SortDesc(entries, Count);
    var r := sorted[..Min(5, |sorted|)];
    SortedKeepsMembers(entries, Count);
    SortDescSorted(entries, Count);
    assert forall i :: 0 <= i < |r| ==> r[i] == sorted[i];
    forall j | 0 <= j < |entries| && entries[j] !in r
      ensures forall i :: 0 <= i < |r| ==> r[i].count >= entries[j].count
    {
      PrefixDominates(sorted, |r|, Count, entries[j]);
    }
    r
  }

  /** Among entries of equal count, the kept ones are the first in entry order, in that order. */
  lemma TopLocationsKeepTieOrder(entries: seq<LocationCount>, k: int)
    ensures Filter(TopLocations(entries), HasKey(Count, k)) <= Filter(entries, HasKey(Count, k))
  {
    var sorted := SortDesc(entries, Count);
    FilterPrefix(sorted, Min(5, |sorted|), HasKey(Count, k));
    SortDescStable(entries, Count, k);
  }

  /** Distinct locations stay distinct. */
  lemma TopLocationsDistinct(entries: seq<LocationCount>)
    requires InjectiveOn(entries, Location)
    ensures InjectiveOn(TopLocations(entries), Location)
  {
    SortDescInjective(entries, Count, Location);
    assert forall i :: 0 <= i < |TopLocations(entries)| ==> TopLocations(entries)[i] == SortDesc(entries, Count)[i];
  }

  datatype Dashboard = Dashboard(
    responsesThisMonth: nat,
    averageResponseTime: real,
    falseAlertsToday: nat,
    resolvedAlertsToday: nat,
    mostReportedLocations: seq<LocationCount>)

  /** The handler body, given the stored alerts in store order and the two window starts. */
  method ComputeDashboard(alerts: seq<Alert>, startOfMonth: int, startOfDay: int) returns (d: Dashboard)
    ensures var monthly, today := Since(alerts, startOfMonth), Since(alerts, startOfDay);
      && d.responsesThisMonth == |Filter(monthly, IsResponse)| <= |monthly|
      && d.averageResponseTime == AverageResponseTime(monthly)
      && d.falseAlertsToday == |Filter(today, IsFalseAlarm)| <= |today|
      && d.resolvedAlertsToday == |Filter(today, IsResolved)| <= |today|
      && d.mostReportedLocations == TopLocations(LocationCounts(monthly))
  {
    var monthly := Since(alerts, startOfMonth);
    var today := Since(alerts, startOfDay);
    var counts := CountLocations(monthly);
    d := Dashboard(
      |Filter(monthly, IsResponse)|,
      AverageResponseTime(monthly),
      |Filter(today, IsFalseAlarm)|,
      |Filter(today, IsResolved)|,
      TopLocations(counts));
  }

  /** With no alerts the mean is 0 and no location is reported. */
  lemma EmptyDashboard()
    ensures AverageResponseTime([]) == 0.0 && TopLocations(LocationCounts([])) == []
  {
  }
}
