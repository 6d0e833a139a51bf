/** The active list of `GET /get_sos` in server.js: every alert not resolved, newest first. */
module ActiveList {
  import opened Seqs
  import opened Sorting
  import opened AlertModel

  predicate IsActive(a: Alert)
  {
    a.status != Resolved
  }

  function Timestamp(a: Alert): int
  {
    a.timestamp
  }

  /** The query `{status: {$ne: 'resolved'}}` sorted on `timestamp` descending. */
  function ActiveAlerts(records: seq<Alert>): (r: seq<Alert>)
    ensures forall i :: 0 <= i < |r| ==> r[i] in records && r[i].status != Resolved
    ensures forall i :: 0 <= i < |records| && records[i].status != Resolved ==> records[i] in r
    ensures multiset(r) == multiset(Filter(records, IsActive))
    ensures forall i, j :: 0 <= i < j < |r| ==> r[i].timestamp >= r[j].timestamp
  {
    var active := Filter(records, IsActive);
    var r := SortDesc(active, Timestamp);
    FilterMembers(records, IsActive);
    SortedKeepsMembers(active, Timestamp);
    SortDescPermutes(active, Timestamp);
    SortDescSorted(active, Timestamp);
    r
  }
}
