/**
 * backend/app/utils/geolocation.py: the radius search used to alert facilities near a
 * detection, and the choice of the detection's location. The great-circle distance
 * (`haversine_distance`) and Python's `round(x, 2)` are abstract functions passed in.
 */
module Geolocation {
  import opened Common
  import opened Sorting

  /** haversine_distance(lat1, lng1, lat2, lng2) in kilometres. */
  type Haversine = (real, real, real, real) -> real

  /** Python `round(x, 2)`. */
  type Round2 = real -> real

  /** A user row as far as the search reads it; a missing coordinate is NULL. */
  datatype UserLoc = UserLoc(id: int, latitude: Option<real>, longitude: Option<real>)

  /** One `{'user': …, 'distance_km': …}` entry of the result. */
  datatype Nearby = Nearby(user: UserLoc, distanceKm: real)

  /** The sort key `lambda x: x['distance_km']`. */
  function DistanceKey(n: Nearby): real
  {
    n.distanceKm
  }

  /** The query's filter: both coordinates are non-NULL. */
  predicate Located(u: UserLoc)
  {
    u.latitude.Some? && u.longitude.Some?
  }

  function DistanceTo(lat: real, lng: real, u: UserLoc, hav: Haversine): real
    requires Located(u)
  {
    hav(lat, lng, u.latitude.value, u.longitude.value)
  }

  /** The loop's test: a located user whose unrounded distance is at most the radius. */
  predicate InRange(lat: real, lng: real, radiusKm: real, u: UserLoc, hav: Haversine)
  {
    Located(u) && DistanceTo(lat, lng, u, hav) <= radiusKm
  }

  function Entry(lat: real, lng: real, u: UserLoc, hav: Haversine, round: Round2): (n: Nearby)
    requires Located(u)
    ensures n.user == u
  {
    Nearby(u, round(DistanceTo(lat, lng, u, hav)))
  }

  /** The entries the loop appends, in query order, before the sort. */
  function Candidates(lat: real, lng: real, radiusKm: real, users: seq<UserLoc>,
                      hav: Haversine, round: Round2): (c: seq<Nearby>)
    ensures |c| <= |users|
    ensures forall i :: 0 <= i < |c| ==> InRange(lat, lng, radiusKm, c[i].user, hav)
  {
    if users == [] then []
    else
      var init, u := users[..|users| - 1], users[|users| - 1];
      Candidates(lat, lng, radiusKm, init, hav, round)
        + (if InRange(lat, lng, radiusKm, u, hav) then [Entry(lat, lng, u, hav, round)] else [])
  }

  /**
   * find_nearby_facilities: keep the located users within the radius, recording the
   * rounded distance, then sort by that rounded distance (Python's sort is stable).
   */
  method FindNearbyFacilities(lat: real, lng: real, radiusKm: real, users: seq<UserLoc>,
                              hav: Haversine, round: Round2) returns (nearby: seq<Nearby>)
    ensures nearby == SortByKey(Candidates(lat, lng, radiusKm, users, hav, round), DistanceKey)
  {
    nearby := [];
    var i := 0;
    while i < |users|
      invariant 0 <= i <= |users|
      invariant nearby == Candidates(lat, lng, radiusKm, users[..i], hav, round)
    {
      var u := users[i];
      assert users[..i + 1][..i] == users[..i];
      if u.latitude.Some? && u.longitude.Some? {
        var dist := hav(lat, lng, u.latitude.value, u.longitude.value);
        if dist <= radiusKm {
          nearby := nearby + [Nearby(u, round(dist))];
        }
      }
      i := i + 1;
    }
    assert users[..i] == users;
    nearby := SortByKey(nearby, DistanceKey);
  }

  /** Every returned entry passed the radius test on the unrounded distance. */
  lemma NearbyWithinRadius(lat: real, lng: real, radiusKm: real, users: seq<UserLoc>,
                           hav: Haversine, round: Round2, n: Nearby)
    requires n in SortByKey(Candidates(lat, lng, radiusKm, users, hav, round), DistanceKey)
    ensures Located(n.user) && DistanceTo(lat, lng, n.user, hav) <= radiusKm
    ensures n.distanceKm == round(DistanceTo(lat, lng, n.user, hav))
  {
    var c := Candidates(lat, lng, radiusKm, users, hav, round);
    SortPermutes(c, DistanceKey);
    assert n in multiset(c);
    CandidatesEntries(lat, lng, radiusKm, users, hav, round, n);
  }

  lemma {:induction false} CandidatesEntries(lat: real, lng: real, radiusKm: real, users: seq<UserLoc>,
                                             hav: Haversine, round: Round2, n: Nearby)
    requires n in Candidates(lat, lng, radiusKm, users, hav, round)
    ensures Located(n.user) && n == Entry(lat, lng, n.user, hav, round)
  {
    if users != [] {
      var init := users[..|users| - 1];
      if n in Candidates(lat, lng, radiusKm, init, hav, round) {
        CandidatesEntries(lat, lng, radiusKm, init, hav, round, n);
      }
    }
  }

  /** How many times u's entry occurs before the sort: once per occurrence of u, if u is in range. */
  lemma {:induction false} CandidatesCount(lat: real, lng: real, radiusKm: real, users: seq<UserLoc>,
                                           hav: Haversine, round: Round2, u: UserLoc)
    requires Located(u)
    ensures multiset(Candidates(lat, lng, radiusKm, users, hav, round))[Entry(lat, lng, u, hav, round)]
         == if InRange(lat, lng, radiusKm, u, hav) then multiset(users)[u] else 0
  {
    if users != [] {
      var init, last := users[..|users| - 1], users[|users| - 1];
      CandidatesCount(lat, lng, radiusKm, init, hav, round, u);
      assert users == init + [last];
    }
  }

  /**
   * Located users within the radius appear as many times as they occur in the query
   * (exactly once for distinct rows); users out of range or without coordinates never do.
   */
  lemma NearbyCount(lat: real, lng: real, radiusKm: real, users: seq<UserLoc>,
                    hav: Haversine, round: Round2, u: UserLoc)
    ensures forall n :: n in SortByKey(Candidates(lat, lng, radiusKm, users, hav, round), DistanceKey)
                     ==> n.user != u || InRange(lat, lng, radiusKm, u, hav)
    ensures Located(u) ==>
              multiset(SortByKey(Candidates(lat, lng, radiusKm, users, hav, round), DistanceKey))
                [Entry(lat, lng, u, hav, round)]
              == (if InRange(lat, lng, radiusKm, u, hav) then multiset(users)[u] else 0)
  {
    var c := Candidates(lat, lng, radiusKm, users, hav, round);
    SortPermutes(c, DistanceKey);
    forall n | n in SortByKey(c, DistanceKey)
      ensures n.user != u || InRange(lat, lng, radiusKm, u, hav)
    {
      NearbyWithinRadius(lat, lng, radiusKm, users, hav, round, n);
    }
    if Located(u) {
      CandidatesCount(lat, lng, radiusKm, users, hav, round, u);
    }
  }

  /** Closest first by the rounded distance; equal rounded distances keep query order. */
  lemma NearbyOrdered(lat: real, lng: real, radiusKm: real, users: seq<UserLoc>,
                      hav: Haversine, round: Round2, k: real)
    ensures SortedByKey(SortByKey(Candidates(lat, lng, radiusKm, users, hav, round), DistanceKey), DistanceKey)
    ensures WithKey(SortByKey(Candidates(lat, lng, radiusKm, users, hav, round), DistanceKey), DistanceKey, k)
         == WithKey(Candidates(lat, lng, radiusKm, users, hav, round), DistanceKey, k)
  {
    SortSorted(Candidates(lat, lng, radiusKm, users, hav, round), DistanceKey);
    SortStable(Candidates(lat, lng, radiusKm, users, hav, round), DistanceKey, k);
  }

  /** A camera row as far as the location lookup reads it. */
  datatype CameraLoc = CameraLoc(id: int, latitude: Option<real>, longitude: Option<real>)

  /** Python truthiness of an optional number: None and 0 are false. */
  predicate TruthyReal(x: Option<real>)
  {
    x.Some? && x.value != 0.0
  }

  predicate TruthyInt(x: Option<int>)
  {
    x.Some? && x.value != 0
  }

  /** `Camera.query.get(id)`: the row with that primary key. */
  function CameraById(cameras: seq<CameraLoc>, id: int): (r: Option<CameraLoc>)
    ensures r.Some? ==> r.value in cameras && r.value.id == id
    ensures r.None? ==> forall c :: c in cameras ==> c.id != id
  {
    if cameras == [] then None
    else if cameras[0].id == id then Some(cameras[0])
    else CameraById(cameras[1..], id)
  }

  /** The camera's coordinates when it exists and both are truthy. */
  predicate CameraHasLocation(cameraId: Option<int>, cameras: seq<CameraLoc>)
  {
    && TruthyInt(cameraId)
    && var c := CameraById(cameras, cameraId.value);
    && c.Some? && TruthyReal(c.value.latitude) && TruthyReal(c.value.longitude)
  }

  /**
   * get_detection_location: the camera's coordinates first, then the defaults when both
   * are given, else (None, None).
   */
  function GetDetectionLocation(cameraId: Option<int>, cameras: seq<CameraLoc>,
                                defaultLat: Option<real>, defaultLng: Option<real>)
    : (r: (Option<real>, Option<real>))
    ensures r.0.Some? <==> r.1.Some?
    ensures CameraHasLocation(cameraId, cameras) ==>
              exists c :: c in cameras && c.id == cameraId.value && r == (c.latitude, c.longitude)
                          && TruthyReal(c.latitude) && TruthyReal(c.longitude)
    ensures !CameraHasLocation(cameraId, cameras) && defaultLat.Some? && defaultLng.Some? ==>
              r == (defaultLat, defaultLng)
    ensures r.0.None? <==> !CameraHasLocation(cameraId, cameras) && (defaultLat.None? || defaultLng.None?)
  {
    if CameraHasLocation(cameraId, cameras) then
      var c := CameraById(cameras, cameraId.value).value;
      (c.latitude, c.longitude)
    else if defaultLat.Some? && defaultLng.Some? then (defaultLat, defaultLng)
    else (None, None)
  }

  /** A camera on the equator or the prime meridian (coordinate 0.0) is treated as unlocated. */
  lemma ZeroCoordinateFallsBack(cameraId: int, cameras: seq<CameraLoc>, lat: real, lng: real)
    requires forall i, j :: 0 <= i < j < |cameras| ==> cameras[i].id != cameras[j].id
    requires exists c :: c in cameras && c.id == cameraId && c.latitude == Some(0.0)
    ensures GetDetectionLocation(Some(cameraId), cameras, Some(lat), Some(lng)) == (Some(lat), Some(lng))
  {
    var c :| c in cameras && c.id == cameraId && c.latitude == Some(0.0);
    CameraByIdFirst(cameras, cameraId, c);
  }

  /** With distinct primary keys, the lookup finds the row carrying the key. */
  lemma {:induction false} CameraByIdFirst(cameras: seq<CameraLoc>, id: int, c: CameraLoc)
    requires c in cameras && c.id == id
    requires forall i, j :: 0 <= i < j < |cameras| ==> cameras[i].id != cameras[j].id
    ensures CameraById(cameras, id) == Some(c)
  {
    if cameras[0] != c {
      assert c in cameras[1..];
      CameraByIdFirst(cameras[1..], id, c);
    }
  }
}
