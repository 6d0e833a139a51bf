/** Zone lookup of server.js (`getLocationName`): a point is labelled with the first zone of a
    fixed, ordered table whose latitude and longitude both lie strictly within the zone's range. */
module Geo {
  import opened AlertModel

  /** A named zone: a centre and one tolerance used for both axes. */
  datatype Zone = Zone(name: string, lat: real, lon: real, range: real)

  /** The zone table, in lookup order. */
  const Zones: seq<Zone> := [
    Zone("Barangay Rizal", 14.5547, 121.0244, 0.01),
    Zone("Barangay Pembo", 14.5500, 121.0500, 0.01),
    Zone("Barangay Comembo", 14.5400, 121.0400, 0.01),
    Zone("Barangay Fort Bonifacio", 14.5350, 121.0450, 0.01),
    Zone("Barangay Western Bicutan", 14.5200, 121.0350, 0.01)
  ]

  function Abs(x: real): (r: real)
    ensures r >= 0.0 && (r == x || r == -x)
  {
    if x < 0.0 then -x else x
  }

  /** Both coordinate differences are strictly below the zone's range. */
  predicate Matches(z: Zone, lat: real, lon: real)
  {
    Abs(lat - z.lat) < z.range && Abs(lon - z.lon) < z.range
  }

  /** The label the table gives a point: the first matching zone's name, else the sentinel. */
  function LocationName(zones: seq<Zone>, lat: real, lon: real): string
    decreases |zones|
  {
    if zones == [] then UnknownLocation
    else if Matches(zones[0], lat, lon) then zones[0].name
    else LocationName(zones[1..], lat, lon)
  }

  /** The first matching zone in list order wins, even when a later one also matches. */
  lemma {:induction false} FirstMatchWins(zones: seq<Zone>, lat: real, lon: real, i: nat)
    requires i < |zones| && Matches(zones[i], lat, lon)
    requires forall j :: 0 <= j < i ==> !Matches(zones[j], lat, lon)
    ensures LocationName(zones, lat, lon) == zones[i].name
    decreases i
  {
    if i > 0 {
      assert !Matches(zones[0], lat, lon);
      FirstMatchWins(zones[1..], lat, lon, i - 1);
    }
  }

  /** A point no zone matches is labelled "Unknown Location". */
  lemma {:induction false} NoMatchIsUnknown(zones: seq<Zone>, lat: real, lon: real)
    requires forall j :: 0 <= j < |zones| ==> !Matches(zones[j], lat, lon)
    ensures LocationName(zones, lat, lon) == UnknownLocation
    decreases |zones|
  {
    if zones != [] {
      NoMatchIsUnknown(zones[1..], lat, lon);
    }
  }

  /** With no zone named like the sentinel, a point gets a zone name exactly when some zone
      matches it. */
  lemma {:induction false} KnownIffSomeZoneMatches(zones: seq<Zone>, lat: real, lon: real)
    requires forall j :: 0 <= j < |zones| ==> zones[j].name != UnknownLocation
    ensures LocationName(zones, lat, lon) != UnknownLocation
        <==> exists j :: 0 <= j < |zones| && Matches(zones[j], lat, lon)
    decreases |zones|
  {
    if zones != [] {
      KnownIffSomeZoneMatches(zones[1..], lat, lon);
      if !Matches(zones[0], lat, lon) {
        assert forall j :: 1 <= j < |zones| ==> zones[j] == zones[1..][j - 1];
      }
    }
  }

  /** `getLocationName`: scans the table in order and returns at the first match. */
  method GetLocationName(lat: real, lon: real) returns (name: string)
    ensures name == LocationName(Zones, lat, lon)
    ensures name != UnknownLocation <==> exists j :: 0 <= j < |Zones| && Matches(Zones[j], lat, lon)
  {
    KnownIffSomeZoneMatches(Zones, lat, lon);
    for i := 0 to |Zones|
      invariant LocationName(Zones[i..], lat, lon) == LocationName(Zones, lat, lon)
    {
      if Matches(Zones[i], lat, lon) {
        return Zones[i].name;
      }
      assert Zones[i..][1..] == Zones[i + 1..];
    }
    return UnknownLocation;
  }

  /** The responder station's own coordinates lie in the first zone. */
  lemma StationIsInRizal()
    ensures LocationName(Zones, 14.5547, 121.0244) == "Barangay Rizal"
  {
    FirstMatchWins(Zones, 14.5547, 121.0244, 0);
  }

  /** A point far from every zone is labelled with the sentinel. */
  lemma FarPointIsUnknown()
    ensures LocationName(Zones, 10.0, 10.0) == UnknownLocation
  {
    NoMatchIsUnknown(Zones, 10.0, 10.0);
  }

  /** A point whose latitude or longitude lies a full range (or more) from a zone's centre is
      outside that zone: both bounds are strict. */
  lemma EdgeOfRangeIsExcluded(z: Zone, lat: real, lon: real)
    requires Abs(lat - z.lat) >= z.range || Abs(lon - z.lon) >= z.range
    ensures !Matches(z, lat, lon)
  {
  }

  /** The Comembo and Fort Bonifacio boxes overlap; a point in both gets the earlier name. */
  lemma OverlapGoesToEarlierZone()
    ensures Matches(Zones[2], 14.5375, 121.0425) && Matches(Zones[3], 14.5375, 121.0425)
    ensures LocationName(Zones, 14.5375, 121.0425) == "Barangay Comembo"
  {
    FirstMatchWins(Zones, 14.5375, 121.0425, 2);
  }
}
