/** The retention sweep `clearOldAlerts` of server.js: a bulk delete of resolved alerts created
    more than thirty minutes before the sweep runs. */
module Retention {
  import opened Seqs
  import opened Wrappers
  import opened AlertModel

  /** Thirty minutes in milliseconds. */
  const RetentionWindowMs: int := 30 * 60 * 1000

  /** The delete filter: resolved, and created strictly before `now - 30 min`. The creation
      `timestamp` decides, not `resolvedAt`. */
  predicate Expired(a: Alert, now: int)
  {
    a.status == Resolved && a.timestamp < now - RetentionWindowMs
  }

  function KeptAt(now: int): Alert -> bool
  {
    a => !Expired(a, now)
  }

  /** The store's records after the sweep at `now`: exactly the unexpired ones, unchanged and in
      their order. */
  function Swept(records: seq<Alert>, now: int): (r: seq<Alert>)
    ensures forall i :: 0 <= i < |r| ==> r[i] in records && !Expired(r[i], now)
    ensures forall i :: 0 <= i < |records| && !Expired(records[i], now) ==> records[i] in r
  {
    FilterMembers(records, KeptAt(now));
    Filter(records, KeptAt(now))
  }

  /** Sweeping again at the same time removes nothing more. */
  lemma SweepIsIdempotent(records: seq<Alert>, now: int)
    ensures Swept(Swept(records, now), now) == Swept(records, now)
  {
    FilterIdempotent(records, KeptAt(now));
  }

  /** The survivors of the records stored before and after a point are swept separately:
      the sweep keeps the store's order. */
  lemma SweepKeepsOrder(older: seq<Alert>, newer: seq<Alert>, now: int)
    ensures Swept(older + newer, now) == Swept(older, now) + Swept(newer, now)
  {
    FilterConcat(older, newer, KeptAt(now));
  }

  /** A store with nothing expired is left as it is. */
  lemma NothingExpiredNothingRemoved(records: seq<Alert>, now: int)
    requires forall i :: 0 <= i < |records| ==> !Expired(records[i], now)
    ensures Swept(records, now) == records
  {
    FilterKeepsAll(records, KeptAt(now));
  }

  /** Examples at sweep time `t`: an alert created 40 minutes earlier and resolved 5 minutes
      earlier is deleted; one created 10 minutes earlier and resolved at once is kept; one
      created exactly 30 minutes earlier is kept; an unresolved one is always kept. */
  lemma SweepExamples(a: Alert, t: int)
    requires a.status == Resolved
    ensures Expired(a.(timestamp := t - 40 * 60000, resolvedAt := Some(t - 5 * 60000)), t)
    ensures !Expired(a.(timestamp := t - 10 * 60000, resolvedAt := Some(t - 10 * 60000)), t)
    ensures !Expired(a.(timestamp := t - RetentionWindowMs), t)
    ensures !Expired(a.(status := Ongoing), t) && !Expired(a.(status := Pending), t)
  {
  }
}
