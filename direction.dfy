/**
 * Travel time and distance by public transport (`utils/direction.py`): the Google
 * Directions answer for a destination becomes seconds and kilometres, and the seconds are
 * split into hours, minutes and seconds, which the rankers turn back into a base score.
 *
 * The HTTP call and the geocoder are functions given to the model; an exception inside
 * them is a `Failure` (for the call) or ends the computation with `None`.
 */
module Direction {
  import opened Wrappers
  import Scoring

  /** One leg of a route: `duration.value` in seconds and `distance.value` in metres. */
  datatype Leg = Leg(seconds: int, meters: int)

  /** The Directions answer: HTTP status and, per route, its legs (no `routes` key: no routes). */
  datatype DirectionsReply = DirectionsReply(status: int, routes: seq<seq<Leg>>)

  /** The `transit_travel_time_sec` and `transit_travel_distance_km` entries. */
  datatype Travel = Travel(seconds: Option<int>, km: Option<real>)

  /** The travel entries together with the `transit_travel_time_h/m/s` entries. */
  datatype TravelInfo = TravelInfo(seconds: Option<int>, km: Option<real>, h: Option<int>, m: Option<int>, s: Option<int>)

  /** A split duration. */
  datatype Clock = Clock(h: int, m: int, s: int)

  /** A row of hospital data: its coordinates (`None` when absent) and its address. */
  datatype Place = Place(latitude: Option<real>, longitude: Option<real>, address: string)

  const HttpOk: int := 200

  /**
   * `get_travel_time_and_distance` after the request: a non-200 answer or one without
   * routes gives no time and no distance; otherwise the first leg of the first route gives
   * the seconds and the metres over 1000. A first route without legs raises `IndexError`.
   */
  function TravelTimeAndDistance(reply: DirectionsReply): (r: Result<Travel>)
    ensures reply.status != HttpOk || reply.routes == [] ==> r == Success(Travel(None, None))
    ensures r.Failure? <==> reply.status == HttpOk && reply.routes != [] && reply.routes[0] == []
    ensures r.Success? && reply.status == HttpOk && reply.routes != [] ==>
      var leg := reply.routes[0][0];
      r.value == Travel(Some(leg.seconds), Some(leg.meters as real / 1000.0))
    ensures r.Success? ==> (r.value.seconds.Some? <==> r.value.km.Some?)
  {
    if reply.status != HttpOk || reply.routes == [] then Success(Travel(None, None))
    else if reply.routes[0] == [] then Failure("IndexError: list index out of range")
    else
      var leg := reply.routes[0][0];
      Success(Travel(Some(leg.seconds), Some(leg.meters as real / 1000.0)))
  }

  /**
   * `sec // 3600`, `(sec % 3600) // 60`, `sec % 60`. Python's floor division and modulo
   * agree with Dafny's for a positive divisor, so this holds for every integer.
   */
  function SplitSeconds(sec: int): (c: Clock)
    ensures c.h * 3600 + c.m * 60 + c.s == sec
    ensures 0 <= c.m < 60 && 0 <= c.s < 60
    ensures sec >= 0 <==> c.h >= 0
  {
    var h, rest := sec / 3600, sec % 3600;
    var m := rest / 60;
    var s := sec % 60;
    assert rest == m * 60 + rest % 60;
    assert sec == 60 * (h * 60 + m) + rest % 60;
    DivModUnique(sec, h * 60 + m, rest % 60);
    Clock(h, m, s)
  }

  /** Division by 60 is unique: a quotient and a remainder in [0, 60) are the ones `/` and `%` give. */
  lemma DivModUnique(a: int, q: int, r: int)
    requires 0 <= r < 60 && a == 60 * q + r
    ensures a / 60 == q && a % 60 == r
  {
  }

  /** Splitting the seconds of a clock reading with minutes and seconds under 60 gives it back. */
  lemma SplitOfClock(h: int, m: int, s: int)
    requires 0 <= m < 60 && 0 <= s < 60
    ensures SplitSeconds(h * 3600 + m * 60 + s) == Clock(h, m, s)
  {
    var sec := h * 3600 + m * 60 + s;
    var c := SplitSeconds(sec);
    DivModUnique(sec, h * 60 + m, s);
    DivModUnique(c.h * 3600 + c.m * 60 + c.s, c.h * 60 + c.m, c.s);
    assert c.h * 60 + c.m == h * 60 + m;
    DivModUnique(h * 60 + m, h, m);
    DivModUnique(c.h * 60 + c.m, c.h, c.m);
  }

  /** The base score of a split duration is `1 / (1 + seconds)`: the split loses nothing. */
  lemma BaseScoreOfSplit(sec: nat)
    ensures var c := SplitSeconds(sec);
      && c.h >= 0
      && Scoring.TravelSeconds(c.h, c.m, c.s) == sec
      && Scoring.BaseScore(c.h, c.m, c.s) == 1.0 / (1 + sec) as real
  {
    var c := SplitSeconds(sec);
    var b := Scoring.BaseScore(c.h, c.m, c.s);
    assert b * (1 + sec) as real == 1.0;
  }

  /**
   * The h/m/s entries: split from the seconds when there are seconds, all `None`
   * otherwise.
   */
  function WithClock(t: Travel): (info: TravelInfo)
    ensures info.seconds == t.seconds && info.km == t.km
    ensures t.seconds.None? ==> info.h.None? && info.m.None? && info.s.None?
    ensures t.seconds.Some? ==>
      && info.h.Some? && info.m.Some? && info.s.Some?
      && info.h.value * 3600 + info.m.value * 60 + info.s.value == t.seconds.value
      && 0 <= info.m.value < 60 && 0 <= info.s.value < 60
  {
    match t.seconds
    case None => TravelInfo(t.seconds, t.km, None, None, None)
    case Some(sec) =>
      var c := SplitSeconds(sec);
      TravelInfo(t.seconds, t.km, Some(c.h), Some(c.m), Some(c.s))
  }

  /**
   * The destination: the row's coordinates, unless one of them is missing; then the
   * geocoder's answer for the address, if it gives both, and otherwise the row's
   * coordinates as they are.
   */
  function Destination(place: Place, geocode: string -> Option<(real, real)>): (d: (Option<real>, Option<real>))
    ensures place.latitude.Some? && place.longitude.Some? ==> d == (place.latitude, place.longitude)
    ensures (place.latitude.None? || place.longitude.None?) && geocode(place.address).Some? ==>
      d == (Some(geocode(place.address).value.0), Some(geocode(place.address).value.1))
    ensures geocode(place.address).None? ==> d == (place.latitude, place.longitude)
  {
    if place.latitude.None? || place.longitude.None? then
      match geocode(place.address)
      case Some((lat, lon)) => (Some(lat), Some(lon))
      case None => (place.latitude, place.longitude)
    else (place.latitude, place.longitude)
  }

  /** With both coordinates present, the geocoder's answer plays no part. */
  lemma DestinationIgnoresGeocoder(place: Place, g1: string -> Option<(real, real)>, g2: string -> Option<(real, real)>)
    requires place.latitude.Some? && place.longitude.Some?
    ensures Destination(place, g1) == Destination(place, g2)
  {
  }

  /**
   * `calculate_travel_time_and_distance(row, ...)`: the travel entries for the
   * destination, with h/m/s filled in; `None` when the request raises or the reply has a
   * route without legs.
   */
  function TravelFor(place: Place, geocode: string -> Option<(real, real)>,
                     directions: (Option<real>, Option<real>) -> Result<DirectionsReply>): (r: Option<TravelInfo>)
  {
    var (lat, lon) := Destination(place, geocode);
    match directions(lat, lon)
    case Failure(_) => None
    case Success(reply) =>
      match TravelTimeAndDistance(reply)
      case Failure(_) => None
      case Success(t) => Some(WithClock(t))
  }

  /**
   * The outcome of `calculate_travel_time_and_distance`: `None` exactly when the request
   * raises or the first route has no legs; a failed or empty answer gives all-`None`
   * entries; otherwise the first leg's seconds, kilometres and their split.
   */
  lemma TravelForOutcome(place: Place, geocode: string -> Option<(real, real)>,
                         directions: (Option<real>, Option<real>) -> Result<DirectionsReply>)
    ensures var reply := directions(Destination(place, geocode).0, Destination(place, geocode).1);
      var r := TravelFor(place, geocode, directions);
      && (r.None? <==> reply.Failure? || (reply.value.status == HttpOk && reply.value.routes != [] && reply.value.routes[0] == []))
      && (reply.Success? && (reply.value.status != HttpOk || reply.value.routes == []) ==>
            r == Some(TravelInfo(None, None, None, None, None)))
      && (r.Some? && r.value.seconds.Some? ==>
            var leg := reply.value.routes[0][0];
            && r.value.seconds == Some(leg.seconds)
            && r.value.km == Some(leg.meters as real / 1000.0)
            && r.value.h.value * 3600 + r.value.m.value * 60 + r.value.s.value == leg.seconds)
  {
  }

  /** `calculate_travel_time_and_distance`, filling the entries one after another. */
  method CalculateTravelTimeAndDistance(place: Place, geocode: string -> Option<(real, real)>,
                                        directions: (Option<real>, Option<real>) -> Result<DirectionsReply>)
    returns (r: Option<TravelInfo>)
    ensures r == TravelFor(place, geocode, directions)
  {
    var lat, lon := place.latitude, place.longitude;
    if lat.None? || lon.None? {
      var coords := geocode(place.address);
      if coords.Some? {
        lat, lon := Some(coords.value.0), Some(coords.value.1);
      }
    }
    var reply := directions(lat, lon);
    if reply.Failure? {
      return None;
    }
    var travel := TravelTimeAndDistance(reply.value);
    if travel.Failure? {
      return None;
    }
    var data := TravelInfo(travel.value.seconds, travel.value.km, None, None, None);
    if data.seconds.Some? {
      var sec := data.seconds.value;
      data := data.(h := Some(sec / 3600));
      data := data.(m := Some((sec % 3600) / 60));
      data := data.(s := Some(sec % 60));
    }
    return Some(data);
  }
}
