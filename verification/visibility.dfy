/**
 * The per-frame opacity composition of `animate` and `applyFade`: how the
 * smoothstep fades of one frame become the opacity of planets, orbit rings,
 * moons, star meshes, star sprites, labels and galaxy layers, and when a
 * label accepts pointer events.
 *
 * `THREE.MathUtils.smoothstep` and `lerp` are outside the model: each fade
 * is an arbitrary value in [0, 1], and everything here holds for all of them.
 */
module Visibility {
  import opened Wrappers
  import opened ScaleRegime

  predicate Unit(x: real) {
    0.0 <= x <= 1.0
  }

  /**
   * The fades of one frame: `planetFade`, `systemFade`, `interstellarFade`,
   * `planetLabelFade` and `galacticOpacity`, each a smoothstep of the camera
   * distance.
   */
  datatype Fades = Fades(planet: real, system: real, interstellar: real, planetLabel: real, galactic: real)

  predicate ValidFades(f: Fades) {
    Unit(f.planet) && Unit(f.system) && Unit(f.interstellar) && Unit(f.planetLabel) && Unit(f.galactic)
  }

  /** Labels accept pointer events only when mostly visible. */
  const PointerThreshold: real := 0.5

  /** What one frame does to a label: leave it, set its opacity, or set its opacity and pointer events. */
  datatype LabelUpdate = Untouched | Opacity(opacity: real) | OpacityAndPointer(opacity: real, clickable: bool)

  /** The opacity and pointer-events pair written by the label rules that use the 0.5 gate. */
  function Gated(opacity: real): (r: LabelUpdate)
    ensures r.OpacityAndPointer? && r.opacity == opacity
    ensures r.clickable <==> opacity > PointerThreshold
  {
    OpacityAndPointer(opacity, opacity > PointerThreshold)
  }

  /** `solarSystemOpacity = 1 - systemFade`: the focused system's own bodies. */
  function SolarSystemOpacity(f: Fades): (r: real)
    ensures ValidFades(f) ==> Unit(r)
  {
    1.0 - f.system
  }

  /** `interstellarOpacity = systemFade * (1 - interstellarFade)`: fades in past the system scale, then out towards the galactic one. */
  function InterstellarOpacity(f: Fades): real {
    f.system * (1.0 - f.interstellar)
  }

  /** The interstellar opacity is a proper opacity, bounded by both of the fades it combines. */
  lemma InterstellarOpacityBounds(f: Fades)
    requires ValidFades(f)
    ensures Unit(InterstellarOpacity(f))
    ensures InterstellarOpacity(f) <= f.system && InterstellarOpacity(f) <= 1.0 - f.interstellar
  {
    var keep := 1.0 - f.interstellar;
    MulUnit(f.system, keep);
    assert InterstellarOpacity(f) == f.system * keep;
  }

  /** The product of two opacities is an opacity no larger than either. */
  lemma MulUnit(a: real, b: real)
    requires Unit(a) && Unit(b)
    ensures Unit(a * b) && a * b <= a && a * b <= b
  {
    assert 0.0 <= a * b by { assert 0.0 * b <= a * b; }
    assert a * b <= a by { assert a * b <= a * 1.0; }
    assert a * b <= b by { assert a * b <= 1.0 * b; }
  }

  /**
   * The two scales cross-fade: the focused system's bodies and the
   * interstellar labels never add up to more than full opacity, so the
   * two views are never both fully shown.
   */
  lemma CrossFade(f: Fades)
    requires ValidFades(f)
    ensures SolarSystemOpacity(f) + InterstellarOpacity(f) <= 1.0
    ensures SolarSystemOpacity(f) == 1.0 ==> InterstellarOpacity(f) == 0.0
  {
    InterstellarOpacityBounds(f);
  }

  // ---------------------------------------------------------------------
  // applyFade

  /** What `applyFade` wrote: the body's meshes, the orbit line it found, and the label. */
  datatype Faded = Faded(mesh: real, orbit: real, caption: LabelUpdate)

  /**
   * `applyFade(celestial, opacity, isPlanet, fadeLabel)`. The body's meshes
   * take `opacity` (the Venus atmosphere excepted, outside the model). A
   * planet's orbit ring gets 60% of it. A moon's orbit line gets all of it,
   * but when orbits are hidden the opacity is first forced to 0, and the
   * label, faded afterwards, then gets 0 as well.
   */
  function ApplyFade(opacity: real, isPlanet: bool, fadeLabel: bool, showOrbits: bool): Faded {
    var effective := if !isPlanet && !showOrbits then 0.0 else opacity;
    Faded(opacity, if isPlanet then effective * 0.6 else effective * 1.0,
          if fadeLabel then Gated(effective) else Untouched)
  }

  /** A faded body is never hidden behind its own orbit line: the line is never more opaque than the body. */
  lemma OrbitNoBrighterThanBody(opacity: real, isPlanet: bool, fadeLabel: bool, showOrbits: bool)
    requires Unit(opacity)
    ensures Unit(ApplyFade(opacity, isPlanet, fadeLabel, showOrbits).orbit)
    ensures ApplyFade(opacity, isPlanet, fadeLabel, showOrbits).orbit <= opacity
    ensures isPlanet ==> ApplyFade(opacity, isPlanet, fadeLabel, showOrbits).orbit == opacity * 0.6
  {
  }

  /**
   * Hidden orbits zero a moon's orbit line and, when the label is faded too,
   * the label, while the moon's mesh keeps its opacity.
   */
  lemma HiddenOrbitsHideMoonLabels(opacity: real, fadeLabel: bool)
    ensures ApplyFade(opacity, false, fadeLabel, false).mesh == opacity
    ensures ApplyFade(opacity, false, fadeLabel, false).orbit == 0.0
    ensures fadeLabel ==> ApplyFade(opacity, false, fadeLabel, false).caption == OpacityAndPointer(0.0, false)
  {
  }

  /** A label `applyFade` touches accepts pointer events exactly when it is more than half visible. */
  lemma ApplyFadeGatesPointer(opacity: real, isPlanet: bool, fadeLabel: bool, showOrbits: bool)
    ensures var l := ApplyFade(opacity, isPlanet, fadeLabel, showOrbits).caption;
      (l.Untouched? <==> !fadeLabel) && (l.OpacityAndPointer? ==> (l.clickable <==> l.opacity > PointerThreshold))
  {
  }

  // ---------------------------------------------------------------------
  // Planets (the `planets.forEach` pass)

  /** A planet is local when its system is the last focused one; only local planets are drawn. */
  function PlanetOpacity(isLocal: bool, f: Fades): (r: real)
    ensures ValidFades(f) ==> Unit(r)
    ensures !isLocal ==> r == 0.0
  {
    if isLocal then SolarSystemOpacity(f) else 0.0
  }

  /**
   * The planet label: pinned labels are fully opaque; otherwise a local
   * planet's label fades with `planetLabelFade` and a distant one is hidden.
   * Pointer events are decided from the local fade, not from the final
   * opacity.
   */
  function PlanetLabel(pinned: bool, isLocal: bool, f: Fades): LabelUpdate {
    var labelOpacity := 1.0 - f.planetLabel;
    OpacityAndPointer(if pinned then 1.0 else if isLocal then labelOpacity else 0.0,
                      isLocal && labelOpacity > PointerThreshold)
  }

  /** Pinned planet labels win over every fade; unpinned distant ones are hidden; a clickable label is always mostly visible. */
  lemma PlanetLabelRules(pinned: bool, isLocal: bool, f: Fades)
    requires ValidFades(f)
    ensures var l := PlanetLabel(pinned, isLocal, f);
      && l.OpacityAndPointer?
      && Unit(l.opacity)
      && (pinned ==> l.opacity == 1.0)
      && (!pinned && !isLocal ==> l.opacity == 0.0)
      && (l.clickable ==> isLocal && l.opacity > PointerThreshold)
  {
  }

  /**
   * Unlike the stellar and system labels, a pinned label of a planet in
   * another system is fully visible but ignores the pointer.
   */
  lemma PinnedDistantPlanetLabelIgnoresPointer(f: Fades)
    ensures PlanetLabel(true, false, f) == OpacityAndPointer(1.0, false)
  {
  }

  /** The orbit ring a planet's own lookup (by the group's `orbitRingUUID`) sets: 60% of the planet's opacity. */
  function RingOpacity(isLocal: bool, f: Fades): (r: real)
    ensures ValidFades(f) ==> 0.0 <= r <= 0.6
  {
    if isLocal then SolarSystemOpacity(f) * 0.6 else 0.0
  }

  /** The ring a planet sets itself and the ring `applyFade` would set for it agree. */
  lemma RingMatchesApplyFade(isLocal: bool, f: Fades, showOrbits: bool)
    ensures RingOpacity(isLocal, f) == ApplyFade(PlanetOpacity(isLocal, f), true, false, showOrbits).orbit
  {
  }

  /**
   * The orbit rings after the planet pass, as written. `orbitRings` and
   * `planets` are filled together, so ring i belongs to planet i. Each
   * planet first sets its own ring; then `applyFade` looks the ring up by a
   * field neither record has, `undefined === undefined` holds, and it
   * overwrites ring 0 with this planet's opacity × 0.6.
   */
  method FadeRingsAsWritten(rings: array<real>, local: seq<bool>, f: Fades)
    requires rings.Length == |local|
    modifies rings
    ensures forall i :: 0 < i < rings.Length ==> rings[i] == RingOpacity(local[i], f)
    ensures rings.Length > 0 ==> rings[0] == RingOpacity(local[|local| - 1], f)
  {
    var i := 0;
    while i < rings.Length
      invariant 0 <= i <= rings.Length
      invariant forall j :: 0 < j < i ==> rings[j] == RingOpacity(local[j], f)
      invariant i > 0 ==> rings[0] == RingOpacity(local[i - 1], f)
    {
      rings[i] := RingOpacity(local[i], f);
      rings[0] := ApplyFade(PlanetOpacity(local[i], f), true, false, true).orbit;
      i := i + 1;
    }
  }

  /** The planet pass with each planet's ring found by its own identity: every ring shows its own planet. */
  method FadeRings(rings: array<real>, local: seq<bool>, f: Fades)
    requires rings.Length == |local|
    modifies rings
    ensures forall i :: 0 <= i < rings.Length ==> rings[i] == RingOpacity(local[i], f)
  {
    var i := 0;
    while i < rings.Length
      invariant 0 <= i <= rings.Length
      invariant forall j :: 0 <= j < i ==> rings[j] == RingOpacity(local[j], f)
    {
      rings[i] := RingOpacity(local[i], f);
      i := i + 1;
    }
  }

  /**
   * Viewing Sol close up (`systemFade` 0) with Mercury first and an
   * exoplanet last: as written Mercury's ring ends the frame invisible, where
   * its own rule asks for 0.6. The corrected pass gives 0.6.
   */
  method MercuryRingVanishes() returns (asWritten: real, corrected: real)
    ensures asWritten == 0.0 && corrected == 0.6
  {
    var f := Fades(0.0, 0.0, 0.0, 0.0, 0.0);
    var rings := new real[2];
    FadeRingsAsWritten(rings, [true, false], f);
    asWritten := rings[0];
    FadeRings(rings, [true, false], f);
    corrected := rings[0];
  }

  // ---------------------------------------------------------------------
  // Moons

  /** Where a moon stands relative to the focus and the pin set. */
  datatype MoonView = MoonView(focused: bool, parentFocused: bool, pinned: bool)

  /** A focused moon is fully shown; otherwise it fades in only in planet view around its focused parent. */
  function MoonOpacity(m: MoonView, scale: Scale, f: Fades): real {
    if m.focused then 1.0
    else if scale == Planet && m.parentFocused then 1.0 - f.planet
    else 0.0
  }

  /** The moon pass: the focused moon's label is set to 1 directly; a pinned label is left as it is; any other goes through `applyFade`. */
  function MoonFrame(m: MoonView, scale: Scale, f: Fades, showOrbits: bool): Faded {
    var faded := ApplyFade(MoonOpacity(m, scale, f), false, !m.focused && !m.pinned, showOrbits);
    if m.focused then faded.(caption := Opacity(1.0)) else faded
  }

  lemma MoonRules(m: MoonView, scale: Scale, f: Fades, showOrbits: bool)
    requires ValidFades(f)
    ensures var r := MoonFrame(m, scale, f, showOrbits);
      && Unit(r.mesh) && Unit(r.orbit)
      && (m.focused ==> r.mesh == 1.0 && r.caption == Opacity(1.0))
      && (!m.focused && m.pinned ==> r.caption.Untouched?)
      && (r.mesh > 0.0 ==> m.focused || (scale == Planet && m.parentFocused))
      && (!m.focused && !m.pinned && !showOrbits ==> r.caption == OpacityAndPointer(0.0, false))
  {
  }

  // ---------------------------------------------------------------------
  // Stars

  /** The system-scale star meshes: local stars follow the solar-system fade; the label follows unless pinned. */
  datatype StarMeshLook = StarMeshLook(opacity: real, caption: LabelUpdate)

  function StarMeshFrame(isLocal: bool, pinned: bool, f: Fades): StarMeshLook {
    var o := if isLocal then SolarSystemOpacity(f) else 0.0;
    StarMeshLook(o, if pinned then Untouched else Opacity(o))
  }

  /** A star's light shines only for a local star whose system is still more than 10% visible. */
  function StarLightVisible(isLocal: bool, f: Fades): bool {
    isLocal && SolarSystemOpacity(f) > 0.1
  }

  lemma StarMeshRules(isLocal: bool, pinned: bool, f: Fades)
    requires ValidFades(f)
    ensures Unit(StarMeshFrame(isLocal, pinned, f).opacity)
    ensures !isLocal ==> StarMeshFrame(isLocal, pinned, f).opacity == 0.0 && !StarLightVisible(isLocal, f)
    ensures StarLightVisible(isLocal, f) ==> StarMeshFrame(isLocal, pinned, f).opacity > 0.1
    ensures pinned <==> StarMeshFrame(isLocal, pinned, f).caption.Untouched?
  {
  }

  /**
   * The label of an interstellar star sprite: hidden outside interstellar
   * and galactic view and for stars of multi-star systems (which show a
   * system label instead); otherwise the interstellar opacity; pinned
   * labels are fully opaque.
   */
  function StellarLabel(interstellarView: bool, multiStar: bool, pinned: bool, f: Fades): LabelUpdate {
    var o := if interstellarView && !multiStar then InterstellarOpacity(f) else 0.0;
    Gated(if pinned then 1.0 else o)
  }

  lemma StellarLabelRules(interstellarView: bool, multiStar: bool, pinned: bool, f: Fades)
    requires ValidFades(f)
    ensures var l := StellarLabel(interstellarView, multiStar, pinned, f);
      && Unit(l.opacity)
      && (pinned ==> l.opacity == 1.0 && l.clickable)
      && (!pinned && (!interstellarView || multiStar) ==> l.opacity == 0.0 && !l.clickable)
      && (l.clickable <==> l.opacity > PointerThreshold)
  {
    InterstellarOpacityBounds(f);
  }

  /** A star sprite: the local system's one fades in as its bodies fade out; the others by the interstellar scale. */
  function SpriteOpacity(isLocal: bool, f: Fades): real {
    if isLocal then (1.0 - SolarSystemOpacity(f)) * (1.0 - f.interstellar)
    else f.system * (1.0 - f.interstellar)
  }

  /** Both branches compute the same value: `1 - solarSystemOpacity` is `systemFade`, so every sprite shows the interstellar opacity. */
  lemma SpriteBranchesAgree(f: Fades)
    ensures SpriteOpacity(true, f) == SpriteOpacity(false, f) == InterstellarOpacity(f)
  {
  }

  /** A system label (one per multi-star system): pinned wins, otherwise the interstellar opacity in interstellar or galactic view. */
  function SystemLabel(interstellarView: bool, pinned: bool, f: Fades): LabelUpdate {
    Gated(if pinned then 1.0 else if interstellarView then InterstellarOpacity(f) else 0.0)
  }

  lemma SystemLabelRules(interstellarView: bool, pinned: bool, f: Fades)
    requires ValidFades(f)
    ensures var l := SystemLabel(interstellarView, pinned, f);
      && Unit(l.opacity)
      && (pinned ==> l.opacity == 1.0 && l.clickable)
      && (!pinned && !interstellarView ==> l.opacity == 0.0 && !l.clickable)
      && (l.clickable <==> l.opacity > PointerThreshold)
  {
    InterstellarOpacityBounds(f);
  }

  /** A single star's label and the system label follow the same rule in interstellar view. */
  lemma SingleStarLabelMatchesSystemLabel(interstellarView: bool, pinned: bool, f: Fades)
    ensures StellarLabel(interstellarView, false, pinned, f) == SystemLabel(interstellarView, pinned, f)
  {
  }

  /** `isInterstellarView`: the regime is interstellar or galactic. */
  lemma InterstellarViewIsOuterScales(s: Scale)
    ensures InterstellarView(s) <==> s == Interstellar || s == Galactic
  {
  }

  // ---------------------------------------------------------------------
  // Large-scale objects

  /** The asteroid belt shader is on only around Sol, while Sol's bodies are visible and the checkbox is set. */
  function AsteroidBeltVisibility(lastFocusedSystem: string, f: Fades, showAsteroids: bool): real {
    if lastFocusedSystem == "Sol" && SolarSystemOpacity(f) > 0.01 && showAsteroids then 1.0 else 0.0
  }

  lemma AsteroidBeltOnlyAroundSol(lastFocusedSystem: string, f: Fades, showAsteroids: bool)
    ensures AsteroidBeltVisibility(lastFocusedSystem, f, showAsteroids) == 1.0 <==>
      lastFocusedSystem == "Sol" && f.system < 0.99 && showAsteroids
    ensures AsteroidBeltVisibility(lastFocusedSystem, f, showAsteroids) in {0.0, 1.0}
  {
  }

  /**
   * The plain and the labelled galaxy textures share `interstellarFade`
   * by the diagram mix (a lerp towards the checkbox, outside the model).
   */
  datatype TexturePair = TexturePair(plain: real, labelled: real)

  function GalaxyTextures(f: Fades, diagramMix: real): TexturePair {
    TexturePair(f.interstellar * (1.0 - diagramMix), f.interstellar * diagramMix)
  }

  lemma GalaxyTexturesShareTheFade(f: Fades, diagramMix: real)
    requires ValidFades(f) && Unit(diagramMix)
    ensures GalaxyTextures(f, diagramMix).plain + GalaxyTextures(f, diagramMix).labelled == f.interstellar
    ensures Unit(GalaxyTextures(f, diagramMix).plain) && Unit(GalaxyTextures(f, diagramMix).labelled)
  {
    MulUnit(f.interstellar, 1.0 - diagramMix);
    MulUnit(f.interstellar, diagramMix);
  }

  /** The volumetric galaxy: thin disk, thick disk, bulge and halo at 1, 0.7, 1 and 0.3 of `galacticOpacity`. */
  function PointClouds(f: Fades): seq<real> {
    [f.galactic, f.galactic * 0.7, f.galactic, f.galactic * 0.3]
  }

  lemma PointCloudsOrdered(f: Fades)
    requires ValidFades(f)
    ensures forall i :: 0 <= i < 4 ==> Unit(PointClouds(f)[i]) && PointClouds(f)[i] <= f.galactic
    ensures PointClouds(f)[3] <= PointClouds(f)[1] <= PointClouds(f)[0] == PointClouds(f)[2]
  {
  }
}
