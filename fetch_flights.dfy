/** The record rules of the flight agent: one OpenSky state vector becomes an aircraft
    record or is skipped, fast high-flying aircraft are tagged as a military proxy, and
    a response is turned into its aircraft list with two counts. Fetching the response
    and Python's float() on text are parameters. */
module FetchFlights {
  import opened Text

  /** A JSON value as it appears in a state vector slot. */
  datatype Slot = Null | Num(x: real) | Str(s: string) | Bool(b: bool) | Arr(items: seq<Slot>)

  // Positions in an OpenSky state vector.
  const Icao24: nat := 0
  const Callsign: nat := 1
  const OriginCountry: nat := 2
  const Longitude: nat := 5
  const Latitude: nat := 6
  const OnGround: nat := 8
  const Velocity: nat := 9
  const TrueTrack: nat := 10
  const VerticalRate: nat := 11
  const GeoAltitude: nat := 13

  /** Metres and metres per second; both comparisons are strict. */
  const HighAltitudeThreshold: real := 10000.0
  const HighVelocityThreshold: real := 200.0
  const FastTag: string := "high_altitude_fast"

  /** Python's truth value of a JSON value. */
  predicate Truthy(v: Slot) {
    match v
    case Null => false
    case Num(x) => x != 0.0
    case Str(s) => s != []
    case Bool(b) => b
    case Arr(items) => items != []
  }

  /** The number a value stands for when compared with an int (a bool is an int in
      Python); None where the comparison raises TypeError. */
  function AsNumber(v: Slot): Option<real> {
    match v
    case Num(x) => Some(x)
    case Bool(b) => Some(if b then 1.0 else 0.0)
    case _ => None
  }

  /** `v or 0` compared with a threshold: a missing or falsy value reads as 0. */
  function Reading(v: Slot): Option<real> {
    if Truthy(v) then AsNumber(v) else Some(0.0)
  }

  /** Python's float(v): numbers and bools convert, text goes through `parseFloat`
      (None is its ValueError), anything else raises TypeError (None here). */
  function Float(v: Slot, parseFloat: string -> Option<real>): Option<real> {
    match v
    case Num(x) => Some(x)
    case Bool(b) => Some(if b then 1.0 else 0.0)
    case Str(s) => parseFloat(s)
    case _ => None
  }

  /** The altitude and speed the tag reason reports. */
  datatype TagReason = TagReason(altitude: real, velocity: real)

  datatype Aircraft = Aircraft(
    icao24: Slot, callsign: string, originCountry: Slot,
    longitude: real, latitude: real,
    geoAltitude: Slot, velocity: Slot, onGround: Slot, trueTrack: Slot, verticalRate: Slot,
    tag: Option<string>, tagReason: Option<TagReason>)

  /** What parse_state_vector does with one vector: return None (Skipped), return a
      record, or let an exception it does not catch escape. */
  datatype Outcome = Skipped | Parsed(aircraft: Aircraft) | Raised(error: string)

  /** `(state[1] or "").strip()` for a slot that is falsy or text: the stripped text,
      or "" when the callsign is missing. */
  function CallsignOf(v: Slot): (r: string)
    requires !Truthy(v) || v.Str?
    ensures v.Str? ==> r == Strip(v.s)
    ensures !Truthy(v) ==> r == []
    ensures r == [] || (!IsSpace(r[0]) && !IsSpace(r[|r| - 1]))
  {
    if Truthy(v) then
      StripEnds(v.s);
      Strip(v.s)
    else ""
  }

  /** The military-proxy rule: the tag and its reason are set exactly when the altitude
      is above 10000 m and the speed above 200 m/s, both strictly; otherwise both are
      None. */
  function TagOf(altitude: real, velocity: real): (r: (Option<string>, Option<TagReason>))
    ensures r.0 == Some(FastTag) <==> altitude > HighAltitudeThreshold && velocity > HighVelocityThreshold
    ensures r.0 == None <==> r.1 == None
    ensures r.0 == None || r.0 == Some(FastTag)
    ensures r.1.Some? ==> r.1.value == TagReason(altitude, velocity)
  {
    if altitude > HighAltitudeThreshold && velocity > HighVelocityThreshold then
      (Some(FastTag), Some(TagReason(altitude, velocity)))
    else (None, None)
  }

  /** parse_state_vector. A vector without a position is skipped before anything else
      is read. The callsign is read next: a truthy value that is not text has no
      strip() and the AttributeError escapes. IndexError, TypeError and ValueError
      while reading the rest (a vector shorter than 14 slots, a position float()
      rejects, a reading that cannot be compared with a number) skip the vector. A
      missing altitude or speed reads as 0. */
  function ParseStateVector(state: seq<Slot>, parseFloat: string -> Option<real>): (r: Outcome)
    ensures |state| <= Latitude || state[Longitude] == Null || state[Latitude] == Null ==> r == Skipped
    ensures r.Raised? <==>
      |state| > Latitude && state[Longitude] != Null && state[Latitude] != Null
      && Truthy(state[Callsign]) && !state[Callsign].Str?
    ensures r.Parsed? <==>
      && |state| > GeoAltitude && state[Longitude] != Null && state[Latitude] != Null
      && (!Truthy(state[Callsign]) || state[Callsign].Str?)
      && Float(state[Longitude], parseFloat).Some? && Float(state[Latitude], parseFloat).Some?
      && Reading(state[GeoAltitude]).Some? && Reading(state[Velocity]).Some?
    ensures r.Parsed? ==>
      && |state| > GeoAltitude
      && r.aircraft.icao24 == state[Icao24] && r.aircraft.originCountry == state[OriginCountry]
      && r.aircraft.geoAltitude == state[GeoAltitude] && r.aircraft.velocity == state[Velocity]
      && r.aircraft.onGround == state[OnGround] && r.aircraft.trueTrack == state[TrueTrack]
      && r.aircraft.verticalRate == state[VerticalRate]
      && Some(r.aircraft.longitude) == Float(state[Longitude], parseFloat)
      && Some(r.aircraft.latitude) == Float(state[Latitude], parseFloat)
      && r.aircraft.callsign == CallsignOf(state[Callsign])
      && Reading(state[GeoAltitude]).Some? && Reading(state[Velocity]).Some?
      && (r.aircraft.tag, r.aircraft.tagReason)
         == TagOf(Reading(state[GeoAltitude]).value, Reading(state[Velocity]).value)
  {
    if |state| <= Latitude || state[Longitude] == Null || state[Latitude] == Null then Skipped
    else if Truthy(state[Callsign]) && !state[Callsign].Str? then Raised("AttributeError")
    else
      var callsign := CallsignOf(state[Callsign]);
      var lon := Float(state[Longitude], parseFloat);
      var lat := Float(state[Latitude], parseFloat);
      if lon.None? || lat.None? || |state| <= GeoAltitude then Skipped
      else
        var alt := Reading(state[GeoAltitude]);
        var vel := Reading(state[Velocity]);
        if alt.None? || vel.None? then Skipped
        else
          var tag := TagOf(alt.value, vel.value);
          Parsed(Aircraft(
            state[Icao24], callsign, state[OriginCountry], lon.value, lat.value,
            state[GeoAltitude], state[Velocity], state[OnGround], state[TrueTrack], state[VerticalRate],
            tag.0, tag.1))
  }

  /** A vector with no altitude or no speed parses untagged, whatever the other reading. */
  lemma MissingReadingNeverTagged(state: seq<Slot>, parseFloat: string -> Option<real>)
    requires |state| > GeoAltitude && (state[GeoAltitude] == Null || state[Velocity] == Null)
    ensures var r := ParseStateVector(state, parseFloat);
      r.Parsed? ==> r.aircraft.tag == None && r.aircraft.tagReason == None
  {
    assert Reading(Null) == Some(0.0);
  }

  // ---------------------------------------------------------------------------
  // A whole response
  // ---------------------------------------------------------------------------

  /** What each vector of a response comes to, in order. */
  function Outcomes(states: seq<seq<Slot>>, parseFloat: string -> Option<real>): seq<Outcome> {
    seq(|states|, k requires 0 <= k < |states| => ParseStateVector(states[k], parseFloat))
  }

  /** The records of the outcomes in order, skipped vectors left out; the first
      exception that escapes ends the run. */
  function Gather(outcomes: seq<Outcome>): (r: Result<seq<Aircraft>, string>)
    ensures r.Ok? ==> |r.value| <= |outcomes|
    decreases |outcomes|
  {
    if outcomes == [] then Ok([])
    else
      var n := |outcomes| - 1;
      match Gather(outcomes[..n])
      case Err(e) => Err(e)
      case Ok(l) =>
        match outcomes[n]
        case Raised(e) => Err(e)
        case Skipped => Ok(l)
        case Parsed(a) => Ok(l + [a])
  }

  /** Number of aircraft carrying the fast tag. */
  function TaggedCount(aircraft: seq<Aircraft>): (r: nat)
    ensures r <= |aircraft|
    decreases |aircraft|
  {
    if aircraft == [] then 0
    else
      var n := |aircraft| - 1;
      TaggedCount(aircraft[..n]) + (if aircraft[n].tag == Some(FastTag) then 1 else 0)
  }

  /** The run fails exactly when some vector raises. */
  lemma {:induction false} GatherFails(outcomes: seq<Outcome>)
    ensures Gather(outcomes).Err? <==> exists k :: 0 <= k < |outcomes| && outcomes[k].Raised?
    decreases |outcomes|
  {
    if outcomes != [] {
      var n := |outcomes| - 1;
      GatherFails(outcomes[..n]);
      assert forall k :: 0 <= k < n ==> outcomes[..n][k] == outcomes[k];
    }
  }

  /** A successful run lists exactly the records of the vectors that parse. */
  lemma {:induction false} GatherMembers(outcomes: seq<Outcome>, a: Aircraft)
    requires Gather(outcomes).Ok?
    ensures a in Gather(outcomes).value <==> Parsed(a) in outcomes
    decreases |outcomes|
  {
    if outcomes != [] {
      var n := |outcomes| - 1;
      GatherMembers(outcomes[..n], a);
      assert outcomes == outcomes[..n] + [outcomes[n]];
    }
  }

  /** Once a prefix has raised, the whole run ends with that exception. */
  lemma {:induction false} GatherErrorSticks(outcomes: seq<Outcome>, i: nat)
    requires i <= |outcomes| && Gather(outcomes[..i]).Err?
    ensures Gather(outcomes) == Gather(outcomes[..i])
    decreases |outcomes| - i
  {
    if i < |outcomes| {
      assert outcomes[..i + 1][..i] == outcomes[..i];
      GatherErrorSticks(outcomes, i + 1);
    } else {
      assert outcomes[..i] == outcomes;
    }
  }

  /** One more outcome, after a prefix that has not raised. */
  lemma GatherStep(outcomes: seq<Outcome>, i: nat, l: seq<Aircraft>)
    requires i < |outcomes| && Gather(outcomes[..i]) == Ok(l)
    ensures Gather(outcomes[..i + 1]) == match outcomes[i]
      case Raised(e) => Err(e)
      case Skipped => Ok(l)
      case Parsed(a) => Ok(l + [a])
  {
    assert outcomes[..i + 1][..i] == outcomes[..i];
  }

  /** One more record adds one to the count when it is tagged. */
  lemma TaggedCountStep(aircraft: seq<Aircraft>, a: Aircraft)
    ensures TaggedCount(aircraft + [a]) == TaggedCount(aircraft) + (if a.tag == Some(FastTag) then 1 else 0)
  {
    assert (aircraft + [a])[..|aircraft|] == aircraft;
  }

  datatype FlightReport = FlightReport(aircraft: seq<Aircraft>, totalAircraft: nat, taggedCount: nat)

  /** process_flight_data: `raw_data.get("states") or []` parsed vector by vector; the
      report carries the records, their number and the number tagged. An exception
      from parse_state_vector escapes (Err). */
  method ProcessFlightData(states: Option<seq<seq<Slot>>>, parseFloat: string -> Option<real>)
    returns (r: Result<FlightReport, string>)
    ensures states == None ==> r == Ok(FlightReport([], 0, 0))
    ensures var vs := if states.Some? then states.value else [];
      match Gather(Outcomes(vs, parseFloat))
      case Ok(l) => r == Ok(FlightReport(l, |l|, TaggedCount(l)))
      case Err(e) => r == Err(e)
    ensures r.Ok? ==>
      r.value.totalAircraft == |r.value.aircraft| && r.value.taggedCount <= r.value.totalAircraft
  {
    var vs := if states.Some? then states.value else [];
    ghost var outcomes := Outcomes(vs, parseFloat);
    var aircraftList: seq<Aircraft> := [];
    var tagged := 0;
    var i := 0;
    while i < |vs|
      invariant 0 <= i <= |vs|
      invariant Gather(outcomes[..i]) == Ok(aircraftList)
      invariant tagged == TaggedCount(aircraftList)
    {
      var outcome := ParseStateVector(vs[i], parseFloat);
      assert outcomes[i] == outcome;
      GatherStep(outcomes, i, aircraftList);
      match outcome {
        case Raised(e) =>
          GatherErrorSticks(outcomes, i + 1);
          return Err(e);
        case Skipped =>
        case Parsed(a) =>
          TaggedCountStep(aircraftList, a);
          aircraftList := aircraftList + [a];
          if a.tag == Some(FastTag) {
            tagged := tagged + 1;
          }
      }
      i := i + 1;
    }
    assert outcomes[..i] == outcomes;
    r := Ok(FlightReport(aircraftList, |aircraftList|, tagged));
  }
}
