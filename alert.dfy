/** The Alert document of models/Alert.js: its fields, the status enum, the required paths and
    the defaults Mongoose fills in when a document is constructed. */
module AlertModel {
  import opened Wrappers

  /** The default `location` of the schema, also the label of a point outside every zone. */
  const UnknownLocation: string := "Unknown Location"

  /** The `status` enum. */
  datatype Status = Pending | Ongoing | Resolved

  function StatusName(s: Status): string
  {
    match s
    case Pending => "pending"
    case Ongoing => "ongoing"
    case Resolved => "resolved"
  }

  /** The enum validator: a value is accepted exactly when it is the name of a status. */
  function ParseStatus(name: string): (r: Option<Status>)
    ensures r.Some? ==> StatusName(r.value) == name
    ensures r.None? <==> forall s :: StatusName(s) != name
  {
    if name == "pending" then Some(Pending)
    else if name == "ongoing" then Some(Ongoing)
    else if name == "resolved" then Some(Resolved)
    else None
  }

  lemma ParseStatusName(s: Status)
    ensures ParseStatus(StatusName(s)) == Some(s)
  {
  }

  /** Identifier the store assigns (the document's `_id`). */
  type AlertId = nat

  /** A stored alert. Times are milliseconds since the epoch; `responseTime` is in seconds;
      `None` stands for `null`. */
  datatype Alert = Alert(
    id: AlertId,
    userId: string,
    lat: real,
    lon: real,
    location: string,
    distance: real,
    timestamp: int,
    status: Status,
    isFalseAlert: bool,
    responseTime: Option<real>,
    resolvedAt: Option<int>)

  /** What a caller hands to the model constructor; `None` is a path left undefined, which takes
      the schema default (an explicit `null`, which Mongoose stores as given, is not represented). */
  datatype AlertFields = AlertFields(
    userId: Option<string>,
    lat: Option<real>,
    lon: Option<real>,
    location: Option<string>,
    distance: Option<real>,
    timestamp: Option<int>,
    status: Option<string>,
    isFalseAlert: Option<bool>,
    responseTime: Option<real>,
    resolvedAt: Option<int>)

  /** A path whose validator failed. */
  datatype Path = UserIdPath | LatPath | LonPath | StatusPath

  /** Mongoose's `required` check: a string must be present and non-empty, a number present. */
  predicate HasUserId(f: AlertFields)
  {
    f.userId.Some? && f.userId.value != ""
  }

  predicate StatusAccepted(f: AlertFields)
  {
    f.status.None? || ParseStatus(f.status.value).Some?
  }

  /** Every path whose validator fails; validation reports all of them at once. */
  function Violations(f: AlertFields): set<Path>
  {
    (if HasUserId(f) then {} else {UserIdPath})
    + (if f.lat.Some? then {} else {LatPath})
    + (if f.lon.Some? then {} else {LonPath})
    + (if StatusAccepted(f) then {} else {StatusPath})
  }

  /** `new Alert(fields)` followed by validation: a document with the schema defaults for every
      path not supplied, or the failing paths. `now` is the time `Date.now` would give. */
  function Create(id: AlertId, f: AlertFields, now: int): (r: Result<Alert, set<Path>>)
    ensures r.Ok? <==> HasUserId(f) && f.lat.Some? && f.lon.Some? && StatusAccepted(f)
    ensures r.Err? ==> r.error != {}
    ensures r.Err? ==> && (UserIdPath in r.error <==> !HasUserId(f))
                       && (LatPath in r.error <==> f.lat.None?)
                       && (LonPath in r.error <==> f.lon.None?)
                       && (StatusPath in r.error <==> !StatusAccepted(f))
    ensures r.Ok? ==> var a := r.value;
      && a.id == id && Some(a.userId) == f.userId && Some(a.lat) == f.lat && Some(a.lon) == f.lon
      && a.location == (if f.location.Some? then f.location.value else UnknownLocation)
      && a.distance == (if f.distance.Some? then f.distance.value else 0.0)
      && a.timestamp == (if f.timestamp.Some? then f.timestamp.value else now)
      && (f.status.None? ==> a.status == Pending)
      && (f.status.Some? ==> StatusName(a.status) == f.status.value)
      && a.isFalseAlert == (f.isFalseAlert.Some? && f.isFalseAlert.value)
      && a.responseTime == f.responseTime
      && a.resolvedAt == f.resolvedAt
  {
    var bad := Violations(f);
    if bad != {} then Err(bad)
    else
      Ok(Alert(
        id := id,
        userId := f.userId.value,
        lat := f.lat.value,
        lon := f.lon.value,
        location := if f.location.Some? then f.location.value else UnknownLocation,
        distance := if f.distance.Some? then f.distance.value else 0.0,
        timestamp := if f.timestamp.Some? then f.timestamp.value else now,
        status := if f.status.Some? then ParseStatus(f.status.value).value else Pending,
        isFalseAlert := if f.isFalseAlert.Some? then f.isFalseAlert.value else false,
        responseTime := f.responseTime,
        resolvedAt := f.resolvedAt))
  }

  /** A document constructed from the required fields alone takes every default. */
  lemma CreateDefaults(id: AlertId, userId: string, lat: real, lon: real, now: int)
    requires userId != ""
    ensures var r := Create(id, AlertFields(Some(userId), Some(lat), Some(lon), None, None, None, None, None, None, None), now);
      r.Ok? && r.value == Alert(id, userId, lat, lon, UnknownLocation, 0.0, now, Pending, false, None, None)
  {
  }
}
