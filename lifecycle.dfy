/** The status-update rule of `PATCH /sos/:id/status` in server.js: the requested status is
    applied, the false-alarm flag is overwritten when supplied, the response time is captured
    while it is still falsy, and every update to `resolved` stamps `resolvedAt`. No transition is
    refused. */
module Lifecycle {
  import opened Wrappers
  import opened AlertModel

  /** `!alert.responseTime`: JavaScript treats both `null` and `0` as unset. */
  predicate ResponseTimeUnset(t: Option<real>)
  {
    t == None || t == Some(0.0)
  }

  /** `(now - timestamp) / 1000`: elapsed milliseconds as real seconds, never truncated. */
  function ElapsedSeconds(from: int, to: int): real
  {
    (to - from) as real / 1000.0
  }

  /** The record the handler saves, stated field by field. */
  function Updated(a: Alert, status: Status, isFalse: Option<bool>, now: int): Alert
  {
    a.(status := status,
       isFalseAlert := if isFalse.Some? then isFalse.value else a.isFalseAlert,
       responseTime :=
         if status != Pending && ResponseTimeUnset(a.responseTime)
         then Some(ElapsedSeconds(a.timestamp, now))
         else a.responseTime,
       resolvedAt := if status == Resolved then Some(now) else a.resolvedAt)
  }

  /** The handler's in-place edits of the fetched document, in the order it makes them. */
  method ApplyStatusUpdate(alert: Alert, status: Status, isFalse: Option<bool>, now: int)
    returns (a: Alert)
    ensures a == Updated(alert, status, isFalse, now)
  {
    a := alert.(status := status);
    if isFalse.Some? {
      a := a.(isFalseAlert := isFalse.value);
    }
    if status == Ongoing && ResponseTimeUnset(a.responseTime) {
      a := a.(responseTime := Some(ElapsedSeconds(a.timestamp, now)));
    }
    if status == Resolved {
      a := a.(resolvedAt := Some(now));
      if ResponseTimeUnset(a.responseTime) {
        a := a.(responseTime := Some(ElapsedSeconds(a.timestamp, now)));
      }
    }
  }

  /** The fields an update never touches. */
  predicate SameIdentity(a: Alert, b: Alert)
  {
    a.id == b.id && a.userId == b.userId && a.lat == b.lat && a.lon == b.lon
    && a.location == b.location && a.distance == b.distance && a.timestamp == b.timestamp
  }

  /** One update: the status is the requested one, the flag changes only when supplied, and the
      creation data is untouched. */
  lemma UpdateSetsRequestedFields(a: Alert, status: Status, isFalse: Option<bool>, now: int)
    ensures var b := Updated(a, status, isFalse, now);
      && b.status == status
      && (isFalse.None? ==> b.isFalseAlert == a.isFalseAlert)
      && (isFalse.Some? ==> b.isFalseAlert == isFalse.value)
      && SameIdentity(a, b)
  {
  }

  /** A move to `ongoing` or `resolved` while the response time is falsy captures the elapsed
      time since creation; nothing else changes the response time, and a truthy one is kept. The
      captured time is non-negative when `now` is not earlier than creation. */
  lemma ResponseTimeCapture(a: Alert, status: Status, isFalse: Option<bool>, now: int)
    ensures var b := Updated(a, status, isFalse, now);
      && (status != Pending && ResponseTimeUnset(a.responseTime) ==>
            b.responseTime == Some(ElapsedSeconds(a.timestamp, now)))
      && (b.responseTime != a.responseTime ==>
            (status == Ongoing || status == Resolved) && ResponseTimeUnset(a.responseTime)
            && b.responseTime == Some(ElapsedSeconds(a.timestamp, now)))
      && (!ResponseTimeUnset(a.responseTime) ==> b.responseTime == a.responseTime)
      && (now >= a.timestamp && (a.responseTime.None? || a.responseTime.value >= 0.0)
          ==> (b.responseTime.Some? ==> b.responseTime.value >= 0.0))
  {
  }

  /** Every update to `resolved` stamps `resolvedAt`, a repeated one included; no other update
      touches it. */
  lemma ResolvedAtStamp(a: Alert, status: Status, isFalse: Option<bool>, now: int)
    ensures status == Resolved ==> Updated(a, status, isFalse, now).resolvedAt == Some(now)
    ensures status != Resolved ==> Updated(a, status, isFalse, now).resolvedAt == a.resolvedAt
  {
  }

  /** One status-update request, as the handler receives it, with the time it is handled. */
  datatype StatusRequest = StatusRequest(status: Status, isFalse: Option<bool>, at: int)

  /** The record after a sequence of requests handled in order. */
  function Replay(a: Alert, reqs: seq<StatusRequest>): Alert
    decreases |reqs|
  {
    if reqs == [] then a
    else Replay(Updated(a, reqs[0].status, reqs[0].isFalse, reqs[0].at), reqs[1..])
  }

  /** No sequence of updates changes the data fixed at creation. */
  lemma {:induction false} ReplayKeepsIdentity(a: Alert, reqs: seq<StatusRequest>)
    ensures SameIdentity(a, Replay(a, reqs))
    decreases |reqs|
  {
    if reqs != [] {
      ReplayKeepsIdentity(Updated(a, reqs[0].status, reqs[0].isFalse, reqs[0].at), reqs[1..]);
    }
  }

  /** The stored status is the last one requested. */
  lemma {:induction false} ReplayStatusIsLastRequested(a: Alert, reqs: seq<StatusRequest>)
    requires reqs != []
    ensures Replay(a, reqs).status == reqs[|reqs| - 1].status
    decreases |reqs|
  {
    if |reqs| > 1 {
      ReplayStatusIsLastRequested(Updated(a, reqs[0].status, reqs[0].isFalse, reqs[0].at), reqs[1..]);
    }
  }

  /** A truthy response time is never overwritten, whatever follows. */
  lemma {:induction false} CapturedResponseTimeIsKept(a: Alert, reqs: seq<StatusRequest>)
    requires !ResponseTimeUnset(a.responseTime)
    ensures Replay(a, reqs).responseTime == a.responseTime
    decreases |reqs|
  {
    if reqs != [] {
      CapturedResponseTimeIsKept(Updated(a, reqs[0].status, reqs[0].isFalse, reqs[0].at), reqs[1..]);
    }
  }

  /** Starting from `null`, the response time stays `null` exactly as long as every request
      asks for `pending`. */
  lemma {:induction false} NullIffNeverLeftPending(a: Alert, reqs: seq<StatusRequest>)
    requires a.responseTime.None?
    ensures Replay(a, reqs).responseTime.None?
        <==> forall j :: 0 <= j < |reqs| ==> reqs[j].status == Pending
    decreases |reqs|
  {
    if reqs != [] {
      var b := Updated(a, reqs[0].status, reqs[0].isFalse, reqs[0].at);
      if reqs[0].status == Pending {
        NullIffNeverLeftPending(b, reqs[1..]);
        assert forall j :: 1 <= j < |reqs| ==> reqs[j] == reqs[1..][j - 1];
      } else if b.responseTime == Some(0.0) {
        assert ResponseTimeUnset(b.responseTime);
        NeverNullAgain(b, reqs[1..]);
      } else {
        CapturedResponseTimeIsKept(b, reqs[1..]);
      }
    }
  }

  /** Once a response time is recorded (even a falsy zero), it is never `null` again. */
  lemma {:induction false} NeverNullAgain(a: Alert, reqs: seq<StatusRequest>)
    requires a.responseTime.Some?
    ensures Replay(a, reqs).responseTime.Some?
    decreases |reqs|
  {
    if reqs != [] {
      NeverNullAgain(Updated(a, reqs[0].status, reqs[0].isFalse, reqs[0].at), reqs[1..]);
    }
  }

  /** The first request that leaves `pending`, unless it is handled in the creation millisecond,
      fixes the response time for good: it is the time elapsed until that request (negative when
      the clock is behind the creation time; a negative number is truthy too). */
  lemma {:induction false} FirstDepartureFixesResponseTime(a: Alert, reqs: seq<StatusRequest>, k: nat)
    requires a.responseTime.None?
    requires k < |reqs| && reqs[k].status != Pending && reqs[k].at != a.timestamp
    requires forall j :: 0 <= j < k ==> reqs[j].status == Pending
    ensures Replay(a, reqs).responseTime == Some(ElapsedSeconds(a.timestamp, reqs[k].at))
    decreases k
  {
    var b := Updated(a, reqs[0].status, reqs[0].isFalse, reqs[0].at);
    if k == 0 {
      assert b.responseTime == Some(ElapsedSeconds(a.timestamp, reqs[0].at));
      assert ElapsedSeconds(a.timestamp, reqs[0].at) != 0.0;
      CapturedResponseTimeIsKept(b, reqs[1..]);
    } else {
      assert reqs[0].status == Pending;
      FirstDepartureFixesResponseTime(b, reqs[1..], k - 1);
    }
  }

  /** `pending -> ongoing -> resolved`: the time captured at `ongoing` survives the resolve. */
  lemma OngoingThenResolvedKeepsFirstCapture(a: Alert, t1: int, t2: int)
    requires a.responseTime.None? && t1 != a.timestamp
    ensures var b := Replay(a, [StatusRequest(Ongoing, None, t1), StatusRequest(Resolved, None, t2)]);
      b.responseTime == Some(ElapsedSeconds(a.timestamp, t1)) && b.resolvedAt == Some(t2)
  {
    var reqs := [StatusRequest(Ongoing, None, t1), StatusRequest(Resolved, None, t2)];
    FirstDepartureFixesResponseTime(a, reqs, 0);
    ReplayEndingInResolve(a, reqs);
  }

  /** When the last request resolves, `resolvedAt` is the time of that request, whatever came
      before (an earlier resolution time is overwritten). */
  lemma {:induction false} ReplayEndingInResolve(a: Alert, reqs: seq<StatusRequest>)
    requires reqs != [] && reqs[|reqs| - 1].status == Resolved
    ensures Replay(a, reqs).resolvedAt == Some(reqs[|reqs| - 1].at)
    decreases |reqs|
  {
    var b := Updated(a, reqs[0].status, reqs[0].isFalse, reqs[0].at);
    if |reqs| == 1 {
      assert Replay(a, reqs) == Replay(b, []);
    } else {
      ReplayEndingInResolve(b, reqs[1..]);
    }
  }

  /** `pending -> resolved` directly: both metrics are set by the one update. */
  lemma DirectResolveSetsBoth(a: Alert, now: int)
    requires a.responseTime.None?
    ensures var b := Updated(a, Resolved, None, now);
      b.responseTime == Some(ElapsedSeconds(a.timestamp, now)) && b.resolvedAt == Some(now)
  {
  }

  /** Resolving two minutes after creation records 120 seconds and the resolution time. */
  lemma ResolveAfterTwoMinutes(a: Alert)
    requires a.responseTime.None?
    ensures var b := Updated(a, Resolved, None, a.timestamp + 120000);
      b.responseTime == Some(120.0) && b.resolvedAt == Some(a.timestamp + 120000)
  {
  }

  /** A response time of zero (an update within the creation millisecond) is falsy, so the next
      move to `ongoing` or `resolved` captures it again. */
  lemma ZeroResponseTimeIsRecaptured(a: Alert, t2: int)
    requires a.responseTime.None?
    ensures var b := Updated(a, Ongoing, None, a.timestamp);
      b.responseTime == Some(0.0)
      && Updated(b, Resolved, None, t2).responseTime == Some(ElapsedSeconds(a.timestamp, t2))
  {
  }

  /** Reopening a resolved alert is accepted and leaves `resolvedAt` set: a `pending` record may
      carry a resolution time. */
  lemma ReopenLeavesStaleResolvedAt(a: Alert, t1: int, t2: int)
    ensures var b := Updated(Updated(a, Resolved, None, t1), Pending, None, t2);
      b.status == Pending && b.resolvedAt == Some(t1)
  {
  }
}
