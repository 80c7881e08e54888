/**
 * The scale-regime state machine that `animate` runs once per frame
 * (scene-boilerplate.js, "Scale State Machine"), with the REALISTIC_SCALES
 * thresholds selected by `useRealisticScale = true`.
 *
 * Inputs per frame: the camera-to-target distance in scene units, and whether
 * the focused object is a planet or moon. The distance in AU is the same
 * distance divided by `sceneUnitsPerAU`. The transitions form one
 * `if / else if` chain, so at most one fires per frame; the two galactic
 * transitions also request an auto-zoom towards the origin.
 */
module ScaleRegime {
  import opened Wrappers
  import opened Geometry

  const SceneUnitsPerAU: real := 35.0
  const AuPerLy: real := 63241.1
  const SceneUnitsPerLy: real := SceneUnitsPerAU * AuPerLy

  // REALISTIC_SCALES
  const PlanetToSystem: real := 50.0            // scene units
  const SystemToInterstellar: real := 63241.0   // AU
  const InterstellarToGalactic: real := 18972300.0 // AU

  /** The exit threshold of the planet and system regimes is 1.2 times the entry threshold. */
  const Buffer: real := 1.2

  datatype Scale = Planet | System | Interstellar | Galactic

  function Rank(s: Scale): int {
    match s
    case Planet => 0
    case System => 1
    case Interstellar => 2
    case Galactic => 3
  }

  /** `isInterstellarView`: the regimes in which star and system labels are shown. */
  predicate InterstellarView(s: Scale) {
    s == Interstellar || s == Galactic
  }

  /** Which of the two auto-zooms a transition asks for. */
  datatype Zoom = OutToGalactic | InToInterstellar

  datatype Decision = Decision(next: Scale, zoom: Option<Zoom>)

  function DistanceInAU(d: real): real {
    d / SceneUnitsPerAU
  }

  /**
   * One pass of the chain. Its last branch (planet view without a focused
   * body) is kept as written; the second branch already covers it.
   */
  function Decide(s: Scale, d: real, bodyFocused: bool): (r: Decision)
    ensures -1 <= Rank(r.next) - Rank(s) <= 1
    ensures r.zoom == Some(OutToGalactic) <==> s == Interstellar && r.next == Galactic
    ensures r.zoom == Some(InToInterstellar) <==> s == Galactic && r.next == Interstellar
    ensures r.zoom.None? ==> r.next != Galactic || s == Galactic
  {
    var au := DistanceInAU(d);
    if s == System && bodyFocused && d < PlanetToSystem then
      Decision(Planet, None)
    else if s == Planet && (!bodyFocused || d > PlanetToSystem * Buffer) then
      Decision(System, None)
    else if s == System && au > SystemToInterstellar * Buffer then
      Decision(Interstellar, None)
    else if s == Interstellar && au < SystemToInterstellar then
      Decision(System, None)
    else if s == Interstellar && au > InterstellarToGalactic then
      Decision(Galactic, Some(OutToGalactic))
    else if s == Galactic && au < InterstellarToGalactic then
      Decision(Interstellar, Some(InToInterstellar))
    else if s == Planet && !bodyFocused then
      Decision(System, None)
    else
      Decision(s, None)
  }

  /** Planet view is entered only from system view, with a body focused and the camera closer than PLANET_TO_SYSTEM. */
  lemma PlanetEntry(s: Scale, d: real, bodyFocused: bool)
    ensures (s != Planet && Decide(s, d, bodyFocused).next == Planet)
        <==> (s == System && bodyFocused && d < PlanetToSystem)
  {
  }

  /** Leaving planet view happens exactly when focus is lost or the camera is beyond 1.2 x PLANET_TO_SYSTEM. */
  lemma PlanetExit(d: real, bodyFocused: bool)
    ensures Decide(Planet, d, bodyFocused).next != Planet
        <==> (!bodyFocused || d > PlanetToSystem * Buffer)
  {
  }

  /** System -> interstellar needs more than 1.2 x SYSTEM_TO_INTERSTELLAR (in AU); the way back needs less than SYSTEM_TO_INTERSTELLAR. */
  lemma SystemInterstellarThresholds(d: real, bodyFocused: bool)
    ensures Decide(System, d, bodyFocused).next == Interstellar
        <==> DistanceInAU(d) > SystemToInterstellar * Buffer && !(bodyFocused && d < PlanetToSystem)
    ensures Decide(Interstellar, d, bodyFocused).next == System
        <==> DistanceInAU(d) < SystemToInterstellar
  {
  }

  /**
   * Interstellar -> galactic needs more than INTERSTELLAR_TO_GALACTIC (in AU),
   * and only once the system branch above it does not fire; the way back
   * needs less than the same threshold. Unlike the two inner boundaries this
   * one has no x1.2 band: both regimes are kept only at the threshold itself.
   */
  lemma GalacticThresholds(d: real, bodyFocused: bool)
    ensures Decide(Interstellar, d, bodyFocused).next == Galactic
        <==> SystemToInterstellar <= DistanceInAU(d) && DistanceInAU(d) > InterstellarToGalactic
    ensures Decide(Galactic, d, bodyFocused).next == Interstellar
        <==> DistanceInAU(d) < InterstellarToGalactic
    ensures (Decide(Interstellar, d, bodyFocused).next == Interstellar && Decide(Galactic, d, bodyFocused).next == Galactic)
        <==> DistanceInAU(d) == InterstellarToGalactic
  {
  }

  /** No single distance triggers a transition and its reverse: the chain cannot flap within one input. */
  lemma {:induction false} NoFlapping(s: Scale, d: real, bodyFocused: bool)
    ensures Decide(Decide(s, d, bodyFocused).next, d, bodyFocused).next != s
        || Decide(s, d, bodyFocused).next == s
  {
    var n := Decide(s, d, bodyFocused).next;
    var au := DistanceInAU(d);
    if s == System && n == Planet {
      assert d < PlanetToSystem * Buffer;
    } else if s == System && n == Interstellar {
      assert au > SystemToInterstellar;
    } else if s == Interstellar && n == System {
      assert au < SystemToInterstellar * Buffer;
    }
  }

  /**
   * Hysteresis band: between SYSTEM_TO_INTERSTELLAR and 1.2 times it (in AU)
   * both system and interstellar view are kept, whatever is focused.
   */
  lemma {:induction false} HysteresisBand(d: real, bodyFocused: bool)
    requires SystemToInterstellar <= DistanceInAU(d) <= SystemToInterstellar * Buffer
    ensures Decide(System, d, bodyFocused) == Decision(System, None)
    ensures Decide(Interstellar, d, bodyFocused) == Decision(Interstellar, None)
  {
    assert d >= PlanetToSystem by {
      assert d == DistanceInAU(d) * SceneUnitsPerAU;
    }
  }

  /**
   * `startAutoZoom(targetDist, targetFocus)` puts the end position `targetDist`
   * straight above the focus point (along +y); both galactic transitions use
   * the default focus, the origin. The landing camera-to-target distance is
   * therefore `targetDist` itself.
   */
  function Above(focus: Vec3, dist: real): Vec3 {
    Vec3(focus.x, focus.y + dist, focus.z)
  }

  /**
   * The target distances as the source passes them: 100 light-years for the
   * flight out to galactic view, 0.8 x INTERSTELLAR_TO_GALACTIC for the flight
   * back in (both converted to scene units).
   */
  function ZoomDistanceAsWritten(z: Zoom): real {
    match z
    case OutToGalactic => 100.0 * SceneUnitsPerLy
    case InToInterstellar => InterstellarToGalactic * 0.8 * SceneUnitsPerAU
  }

  /**
   * As written, the flight out to galactic view lands 6,324,110 AU from its
   * target, inside the interstellar band of REALISTIC_SCALES: the next pass
   * leaves galactic view again and starts the flight back in.
   */
  lemma GalacticZoomBouncesAsWritten(bodyFocused: bool)
    ensures DistanceInAU(ZoomDistanceAsWritten(OutToGalactic)) == 6324110.0
    ensures Decide(Galactic, ZoomDistanceAsWritten(OutToGalactic), bodyFocused)
         == Decision(Interstellar, Some(InToInterstellar))
  {
  }

  /**
   * Corrected target distances: the galactic flight lands at 1.2 times
   * INTERSTELLAR_TO_GALACTIC (mirroring the 0.8 factor of the flight back in),
   * beyond the threshold it has just crossed.
   */
  function ZoomDistance(z: Zoom): (r: real)
    ensures r > 0.0
    ensures z == OutToGalactic ==> DistanceInAU(r) > InterstellarToGalactic
    ensures z == InToInterstellar ==> SystemToInterstellar <= DistanceInAU(r) < InterstellarToGalactic
  {
    match z
    case OutToGalactic => InterstellarToGalactic * Buffer * SceneUnitsPerAU
    case InToInterstellar => ZoomDistanceAsWritten(InToInterstellar)
  }

  /** The regime a zoom was started for. */
  function Destination(z: Zoom): Scale {
    match z
    case OutToGalactic => Galactic
    case InToInterstellar => Interstellar
  }

  /**
   * With the corrected distances, every auto-zoom that Decide requests lands
   * where the next pass keeps the regime it was started for, and starts no
   * further flight.
   */
  lemma {:induction false} ZoomLandsInItsRegime(s: Scale, d: real, bodyFocused: bool, focusedAfter: bool)
    requires Decide(s, d, bodyFocused).zoom.Some?
    ensures var z := Decide(s, d, bodyFocused).zoom.value;
      Destination(z) == Decide(s, d, bodyFocused).next &&
      Decide(Destination(z), ZoomDistance(z), focusedAfter) == Decision(Destination(z), None)
  {
    var z := Decide(s, d, bodyFocused).zoom.value;
    var land := DistanceInAU(ZoomDistance(z));
    if z == OutToGalactic {
      assert land > InterstellarToGalactic;
    } else {
      assert SystemToInterstellar <= land < InterstellarToGalactic;
    }
  }
}
