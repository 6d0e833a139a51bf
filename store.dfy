/** The alert collection behind the routes of server.js: `POST /sos` adds a record,
    `PATCH /sos/:id/status` edits one in place, and the periodic `clearOldAlerts` sweep deletes
    old resolved ones. Records are kept in insertion order, the store's natural order. */
module Store {
  import opened Wrappers
  import opened Seqs
  import opened AlertModel
  import opened Geo
  import opened Lifecycle
  import opened Retention
  import opened ActiveList

  /** Why a status update is refused: no record with the id (404), or a status outside the enum
      (the save's validation error, 500). */
  datatype UpdateError = NotFound | InvalidStatus

  function Id(a: Alert): int
  {
    a.id
  }

  /** Ids strictly increase along the store, so each id names at most one record. */
  predicate IdsIncreasing(records: seq<Alert>)
  {
    forall i, j :: 0 <= i < j < |records| ==> records[i].id < records[j].id
  }

  /** `findById`: the position of the record with the id, if any. */
  function IndexOfId(records: seq<Alert>, id: AlertId): (r: Option<nat>)
    ensures r.Some? ==> r.value < |records| && records[r.value].id == id
    ensures r.None? <==> forall i :: 0 <= i < |records| ==> records[i].id != id
    decreases |records|
  {
    if records == [] then None
    else if records[0].id == id then Some(0)
    else
      match IndexOfId(records[1..], id)
      case None => None
      case Some(k) => Some(k + 1)
  }

  /** With increasing ids the lookup finds the one record carrying the id. */
  lemma IndexOfIdIsUnique(records: seq<Alert>, i: nat)
    requires IdsIncreasing(records) && i < |records|
    ensures IndexOfId(records, records[i].id) == Some(i)
  {
  }

  /** The location the `/sos` handler stores: the zone of the point, or the sentinel when a
      coordinate is missing (an absent coordinate compares false against every zone). */
  function SosLocation(lat: Option<real>, lon: Option<real>): string
  {
    if lat.Some? && lon.Some? then LocationName(Zones, lat.value, lon.value) else UnknownLocation
  }

  /** The fields the `/sos` handler passes to the model constructor. */
  function SosFields(userId: Option<string>, lat: Option<real>, lon: Option<real>, distance: real): AlertFields
  {
    AlertFields(userId, lat, lon, Some(SosLocation(lat, lon)), Some(distance), None, Some("pending"),
                None, None, None)
  }

  /** The sweep only removes records, so increasing ids stay increasing. */
  lemma SweepKeepsIdsIncreasing(records: seq<Alert>, now: int)
    requires IdsIncreasing(records)
    ensures IdsIncreasing(Swept(records, now))
  {
    FilterKeepsIncreasing(records, KeptAt(now), Id);
  }

  class AlertStore {
    var records: seq<Alert>
    var nextId: AlertId

    ghost predicate Valid()
      reads this
    {
      IdsIncreasing(records) && forall i :: 0 <= i < |records| ==> records[i].id < nextId
    }

    constructor()
      ensures Valid() && records == [] && nextId == 0
    {
      records := [];
      nextId := 0;
    }

    /** `POST /sos`: label the point, build a pending alert and save it. `distance` is the
        distance to the station, computed outside the model; `now` is the creation time. */
    method Submit(userId: Option<string>, lat: Option<real>, lon: Option<real>, distance: real, now: int)
      returns (r: Result<Alert, set<Path>>)
      requires Valid()
      modifies this
      ensures Valid()
      ensures r == Create(old(nextId), SosFields(userId, lat, lon, distance), now)
      ensures r.Ok? <==> userId.Some? && userId.value != "" && lat.Some? && lon.Some?
      ensures r.Ok? ==> && r.value.status == Pending && r.value.timestamp == now
                        && r.value.location == SosLocation(lat, lon)
                        && r.value.responseTime.None? && r.value.resolvedAt.None?
                        && !r.value.isFalseAlert && r.value.id == old(nextId)
      ensures r.Ok? ==> records == old(records) + [r.value] && nextId == old(nextId) + 1
      ensures r.Ok? ==> r.value in ActiveAlerts(records)
      ensures r.Err? ==> records == old(records) && nextId == old(nextId)
    {
      var location := UnknownLocation;
      if lat.Some? && lon.Some? {
        location := GetLocationName(lat.value, lon.value);
      }
      var fields := AlertFields(userId, lat, lon, Some(location), Some(distance), None, Some("pending"),
                                None, None, None);
      r := Create(nextId, fields, now);
      if r.Ok? {
        records := records + [r.value];
        nextId := nextId + 1;
        assert records[|records| - 1] == r.value;
      }
    }

    /** `PATCH /sos/:id/status`: find the record, apply the status rule, save. An unknown id and
        a status outside the enum leave the store as it was. */
    method UpdateStatus(id: AlertId, status: string, isFalse: Option<bool>, now: int)
      returns (r: Result<Alert, UpdateError>)
      requires Valid()
      modifies this
      ensures Valid() && nextId == old(nextId) && |records| == |old(records)|
      ensures var k := IndexOfId(old(records), id);
        && (k.None? ==> r == Err(NotFound) && records == old(records))
        && (k.Some? && ParseStatus(status).None? ==> r == Err(InvalidStatus) && records == old(records))
        && (k.Some? && ParseStatus(status).Some? ==>
              && r == Ok(Updated(old(records)[k.value], ParseStatus(status).value, isFalse, now))
              && records == old(records)[k.value := r.value])
      ensures r.Ok? && r.value.status == Resolved ==>
        forall i :: 0 <= i < |ActiveAlerts(records)| ==> ActiveAlerts(records)[i].id != id
    {
      var k := IndexOfId(records, id);
      if k.None? {
        return Err(NotFound);
      }
      var parsed := ParseStatus(status);
      if parsed.None? {
        return Err(InvalidStatus);
      }
      var updated := ApplyStatusUpdate(records[k.value], parsed.value, isFalse, now);
      records := records[k.value := updated];
      r := Ok(updated);
      ResolvedIsInactive(records, k.value);
    }

    /** `clearOldAlerts`: delete every resolved record created before the retention window. */
    method ClearOldAlerts(now: int)
      requires Valid()
      modifies this
      ensures Valid() && nextId == old(nextId)
      ensures records == Swept(old(records), now)
    {
      SweepKeepsIdsIncreasing(records, now);
      records := Swept(records, now);
    }
  }

  /** Once the record at `k` is resolved, no active alert carries its id. */
  lemma ResolvedIsInactive(records: seq<Alert>, k: nat)
    requires IdsIncreasing(records) && k < |records|
    ensures records[k].status == Resolved ==>
      forall i :: 0 <= i < |ActiveAlerts(records)| ==> ActiveAlerts(records)[i].id != records[k].id
  {
    var act := ActiveAlerts(records);
    forall i | 0 <= i < |act|
      ensures records[k].status == Resolved ==> act[i].id != records[k].id
    {
      var m :| 0 <= m < |records| && records[m] == act[i];
      if m != k {
        assert records[m].id != records[k].id;
      }
    }
  }
}
