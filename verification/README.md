# Multi-scale solar system viewer: the logic behind the scene

`scene-boilerplate.js` renders a Three.js scene. The user moves through it
from one planet, to a star system, to the neighbourhood of nearby stars, and
out to the whole galaxy. Most of the file builds meshes and DOM widgets. The
rest is sequential logic that decides what the viewer does, and that is what
this project models in Dafny:

- **Scale regime** (`ScaleRegime`, `scale.dfy`): the four-state machine
  (planet, system, interstellar, galactic) that `animate` re-evaluates every
  frame. It has ×1.2 hysteresis on the planet and system exits, and it
  requests an auto-zoom on both galactic transitions. `REALISTIC_SCALES` is
  in force because `useRealisticScale` is true.
- **Camera flights** (`Flights`, `flights.dfy`; `Navigation`,
  `navigation.dfy`):
  - The `autoZoom` and `cameraTransition` records. Each has cubic ease-out
    progress and lands exactly on its end values.
  - A `Navigator` class for the module-level state the handlers mutate:
    `currentScale`, both flight records, `focusedObject`,
    `lastFocusedSystem`, the camera position and the orbit-controls target.
  - Its handlers: start an auto-zoom, the frame update, the controls' cancel
    event, click-to-focus, choosing a search suggestion, focusing from the
    pinned list, and following a focused object.
- **Speed and pause** (`Speed`, `speed.dfy`): the clamped index into the
  five-level speed table, and the pause flag that every speed change clears.
- **Search** (`Search`, `search.dfy`): the order-preserving, case-insensitive
  substring filter over `searchableObjects`, with the type selector.
- **Pins** (`Pins`, `pins.dfy`): the `pinnedObjects` set, the pin button that
  toggles the focused name, and the × button that removes one name.
- **Visibility** (`Visibility`, `visibility.dfy`): the per-frame opacity
  compositions for every layer. This covers `applyFade`, the pinned-label
  override and the 0.5 pointer-events gate. The `smoothstep` fades are
  inputs in [0, 1].
- **Small helpers**:
  - `getStarTypeName` (`StarTypes`).
  - The sexagesimal RA/Dec regex parse (`Coordinates`).
  - The distance counter's unit band (`DistanceUnits`).
  - Grouping stars and exoplanets into `allSystems` (`Registry`).
  - The per-frame rebuild of `intersectableObjects`, the climb to a named
    group, and drag detection (`Picking`).

The camera-to-target distance, a ray cast's hit, and an object's world
position all come from the rendering library. So does `smoothstep`/`lerp`.
These values enter the model as parameters.

Points where the code as written does something other than what its own
comments and neighbouring code set out to do. The model follows the code:

- Lines 1094-1110 start an eased `cameraTransition` glide on a click. No
  frame ever advances that record: only the `autoZoom` record is stepped
  (lines 1642-1654). The glide stays active, and line 1831 then skips the
  follow logic for good (Findings, row 3).
- Line 1684 finds each planet's own ring by `o.ring.uuid`. `applyFade` at
  line 1432 compares `o.uuid`, a field the `orbitRings` entries do not have,
  so it writes ring 0 for every planet (Findings, row 2).
- The comment at line 1831 reads "Don't run manual follow logic during a
  transition", but the test is on `cameraTransition.active` only. During an
  auto-zoom the follow lerp also moves the controls target
  (`Navigator.Follow`).
- The comment at lines 1777-1779 says a sprite of the focused system fades
  as the inverse of the system-scale objects, unlike a distant one. As
  written, `1 - solarSystemOpacity` equals `systemFade`, so both branches of
  lines 1776-1784 compute the same value (`SpriteBranchesAgree`).
- Lines 1054-1057 make a press a drag as soon as one `mousemove` is more
  than 5 px from the press point. It stays a drag until the next press.

## Model

| member | source | states |
|---|---|---|
| ScaleRegime.Decide | scene-boilerplate.js:1615-1640 | One pass moves the regime at most one step. An auto-zoom is requested exactly on interstellar→galactic (outwards) and galactic→interstellar (inwards). Galactic is never entered without a zoom. |
| ScaleRegime.PlanetEntry | scene-boilerplate.js:1618-1619 | Planet view is entered only from system view, with a planet or moon focused and the distance below PLANET_TO_SYSTEM; those conditions always enter it. |
| ScaleRegime.PlanetExit | scene-boilerplate.js:1620-1621 | Planet view is left exactly when focus is lost or the distance exceeds 1.2 × PLANET_TO_SYSTEM. |
| ScaleRegime.SystemInterstellarThresholds | scene-boilerplate.js:1622-1625 | System→interstellar happens exactly above 1.2 × SYSTEM_TO_INTERSTELLAR AU, unless the planet-entry branch fires first. Interstellar→system happens exactly below SYSTEM_TO_INTERSTELLAR AU. |
| ScaleRegime.GalacticThresholds | scene-boilerplate.js:1628-1635 | Interstellar→galactic happens exactly above INTERSTELLAR_TO_GALACTIC AU (once the system branch does not fire), galactic→interstellar exactly below it; with no ×1.2 band, both regimes stay put only at the threshold itself. |
| ScaleRegime.NoFlapping | scene-boilerplate.js:1615-1640 | Re-running the chain at the same distance never returns to the regime the first pass left. |
| ScaleRegime.HysteresisBand | scene-boilerplate.js:1622-1625 | Between SYSTEM_TO_INTERSTELLAR and 1.2 × that distance, both system and interstellar view stay where they are and start no zoom. |
| ScaleRegime.GalacticZoomBouncesAsWritten | scene-boilerplate.js:1628-1635 | As written, the flight out to galactic view lands at 6,324,110 AU. The next pass at that distance leaves galactic view and starts the flight back in. |
| ScaleRegime.ZoomDistance | scene-boilerplate.js:1630-1635 | The corrected outward distance lies beyond INTERSTELLAR_TO_GALACTIC. The inward one (0.8 × that threshold) lies inside the interstellar band. |
| ScaleRegime.ZoomLandsInItsRegime | scene-boilerplate.js:1628-1635 | With the corrected distances, every zoom Decide requests ends where the next pass keeps the requested regime and starts no further zoom. |
| Flights.Progress | scene-boilerplate.js:1643-1644 | Progress `min(elapsed/duration, 1)` is at most 1, is non-negative once started, and equals 1 exactly when the duration has elapsed. |
| Flights.Ease | scene-boilerplate.js:1646 | Cubic ease-out maps [0,1] into [0,1] and reaches 1 only at progress 1. |
| Flights.EaseAhead | scene-boilerplate.js:1646 | Eased progress is never behind linear progress. |
| Flights.EaseMonotone | scene-boilerplate.js:1646 | Eased progress never decreases as time advances. |
| Flights.Arrives | scene-boilerplate.js:1642-1654 | Once the duration has elapsed, a step puts the camera on endPos and the target on endTarget, and deactivates the flight. |
| Flights.StillFlying | scene-boilerplate.js:1642-1654 | Before the duration has elapsed, the flight stays active and its record is unchanged. |
| Flights.StepKeepsPlan | scene-boilerplate.js:1642-1654 | A step changes no field of the record except `active`. |
| Geometry.LerpEnds | scene-boilerplate.js:1648-1649 | Interpolation at 0 gives the start and at 1 gives the end. |
| Navigation.GlideKeepsOffset | scene-boilerplate.js:1104-1109 | The glide's end position keeps the camera's offset from the target. |
| Navigation.Navigator.constructor | scene-boilerplate.js:1373-1384 | Initial state: system view, camera at (0,20,100) looking at the origin, both flights idle, no focus, last system "Sol". |
| Navigation.Navigator.StartAutoZoom | scene-boilerplate.js:1414-1421 | `startAutoZoom` records the current camera and target as the start, puts the end position `targetDist` above the focus, and targets the focus. |
| Navigation.Navigator.ClassifyScale | scene-boilerplate.js:1615-1640 | Nothing is classified while an auto-zoom is active. Otherwise the regime becomes Decide's choice, and a requested zoom starts from the current camera and target towards the origin, at the distance the caller supplies: the 100 ly of lines 1630-1632 and the 0.8 × INTERSTELLAR_TO_GALACTIC of line 1635 as written (`ZoomDistanceAsWritten`), or the corrected `ZoomDistance`. |
| Navigation.Navigator.StepAutoZoom | scene-boilerplate.js:1642-1654 | An active auto-zoom moves the camera and target by Step. An inactive one changes nothing. |
| Navigation.Navigator.StepTransition | scene-boilerplate.js:1642-1654 | The corrected glide step: the same stepping for `cameraTransition`. |
| Navigation.Navigator.UpdateScaleAndZoom | scene-boilerplate.js:1615-1654 | Classify, then step the auto-zoom; called with `ZoomDistanceAsWritten` it is the frame as written. The regime changes only when no zoom was active, by at most one step. The new auto-zoom record is the classified one (`ClassifiedZoom`), stepped when active; camera and target are that step's values during a zoom and are unchanged otherwise, including in the pass that starts a zoom. |
| Navigation.Navigator.Frame | scene-boilerplate.js:1615-1654 | The corrected frame: the same scale pass with the corrected `ZoomDistance` and the same auto-zoom step, then the glide is stepped. The new auto-zoom and glide records are their stepped values; camera and target come from the glide step when a glide was active, else from the auto-zoom step, else stay put. |
| Navigation.Navigator.CancelFlights | scene-boilerplate.js:1119-1122 | The controls' 'start' event deactivates both flights and changes nothing else in them. |
| Navigation.Navigator.ClickFocus | scene-boilerplate.js:1061-1114 | A click that ends a drag, or lands on the UI, changes nothing. Empty space clears the focus. A different object is focused and, unless locked, a glide keeping the camera's offset starts. Re-clicking the focus changes nothing. |
| Navigation.Navigator.SelectSuggestion | scene-boilerplate.js:1303-1313 | A suggestion is focused. A planet of a star other than the last focused system switches to interstellar view; otherwise the regime is unchanged. |
| Navigation.Navigator.FocusPinned | scene-boilerplate.js:1228-1234 | A pinned name found among the searchable objects is focused; otherwise nothing changes. |
| Navigation.Navigator.Follow | scene-boilerplate.js:1831-1851 | With a focus and no glide: locked snaps the target to the object and keeps the camera's direction, scaled by the given factor; unlocked moves the target 10% of the way. The last focused system is updated when the data lookup knows the object. Otherwise nothing moves. |
| Navigation.ClickEarth | scene-boilerplate.js:1061-1110 | Clicking Earth in a fresh scene focuses it and starts a 1.5 s glide ending at (35,20,100), looking at Earth. |
| Navigation.StalledGlideAsWritten | scene-boilerplate.js:1831 | As written, 4 s after the click the glide is still active and the target has not moved towards Earth. |
| Navigation.GlideArrives | scene-boilerplate.js:1094-1110 | With the glide stepped, the same click ends with the target on Earth, the camera at the kept offset, and the glide finished. |
| Speed.MovesStayInTable | scene-boilerplate.js:996-1013 | Both speed moves keep the index inside the five-entry table. |
| Speed.MovesClampAtEnds | scene-boilerplate.js:996-1013 | Speed-up at the top and slow-down at the bottom change nothing; elsewhere each move shifts the index by exactly one. |
| Speed.MovesUndoEachOther | scene-boilerplate.js:996-1013 | Away from the ends, a speed-up and a slow-down cancel out. |
| Speed.MovesAreMonotone | scene-boilerplate.js:973-979 | The table is ordered, so a speed-up never lowers the multiplier and raises it exactly below the top. |
| Speed.SpeedController.constructor | scene-boilerplate.js:980-982 | Starts at 'Normal' (index 2, multiplier 1.0), unpaused. |
| Speed.SpeedController.Apply | scene-boilerplate.js:984-992 | `updateSpeed` takes the selected level's multiplier and name and clears the pause. |
| Speed.SpeedController.SpeedUp | scene-boilerplate.js:994-1010 | The index becomes the clamped successor; the speed follows the table, never decreases, and the animation is unpaused. |
| Speed.SpeedController.SlowDown | scene-boilerplate.js:998-1015 | The index becomes the clamped predecessor; the speed follows the table, never increases, and the animation is unpaused. |
| Speed.SpeedController.SetPaused | scene-boilerplate.js:1017-1025 | The flag follows the checkbox. The display shows "Paused" or the current level's name. The index and multiplier are kept. |
| Speed.PauseThenSpeedUp | scene-boilerplate.js:984-1025 | Pausing and then pressing speed-up leaves the animation unpaused at 2.0. |
| Search.Lower | scene-boilerplate.js:1276 | Lower-casing keeps the length and maps each character. |
| Search.LowerIdempotent | scene-boilerplate.js:1276 | Lower-casing twice is lower-casing once. |
| Search.ContainsIff | scene-boilerplate.js:1286 | `includes` holds exactly when the query occurs at some position of the name. |
| Search.Keep | scene-boilerplate.js:1285-1289 | The filter keeps exactly the entries whose name matches and whose type passes the selector. |
| Search.Suggestions | scene-boilerplate.js:1275-1289 | An empty query gives no suggestions. Otherwise every suggestion matches, and every matching entry is suggested. |
| Search.KeepDistributes | scene-boilerplate.js:1285-1289 | The filter distributes over concatenation, so it keeps the original order. |
| Search.NarrowingByType | scene-boilerplate.js:1287 | Filtering the 'all' results by a type gives that type's results. |
| Search.KeepIdempotent | scene-boilerplate.js:1285-1289 | Searching the results again changes nothing. |
| Search.MatchIgnoresCase | scene-boilerplate.js:1276-1286 | The match does not depend on the case of the query or of the name. |
| Search.FindByName | scene-boilerplate.js:1230 | `find` by name returns the first entry with that name, or nothing exactly when no entry has it. |
| Pins.Toggle | scene-boilerplate.js:1344-1352 | The pressed name's membership flips; every other name keeps its membership. |
| Pins.ToggleTwice | scene-boilerplate.js:1340-1353 | Pressing the pin button twice restores the set. |
| Pins.ToggleCommutes | scene-boilerplate.js:1340-1353 | Toggles of different names commute. |
| Pins.PinBoard.constructor | scene-boilerplate.js:1340-1353 | No object is pinned initially. |
| Pins.PinBoard.PinButton | scene-boilerplate.js:1340-1353 | With no focus, or a nameless one, the set is unchanged; otherwise the focused name is toggled. |
| Pins.PinBoard.Unpin | scene-boilerplate.js:1241-1246 | The × button removes exactly that name. |
| Pins.PinTwoUnpinOne | scene-boilerplate.js:1241-1353 | Pin Earth, pin Mars, unpin Earth: only Mars stays pinned. |
| Visibility.Gated | scene-boilerplate.js:1461 | A gated label update sets the given opacity and is clickable exactly above 0.5. |
| Visibility.SolarSystemOpacity | scene-boilerplate.js:1668 | The solar-system opacity is in [0,1]. |
| Visibility.InterstellarOpacityBounds | scene-boilerplate.js:1665 | The interstellar opacity is in [0,1] and bounded by both `systemFade` and `1 - interstellarFade`. |
| Visibility.CrossFade | scene-boilerplate.js:1665-1668 | Local bodies and distant stars never add up to more than full opacity; a fully visible system hides the interstellar layer. |
| Visibility.OrbitNoBrighterThanBody | scene-boilerplate.js:1447-1455 | The orbit line `applyFade` writes is an opacity no brighter than the body; a planet's is 0.6 of it. |
| Visibility.HiddenOrbitsHideMoonLabels | scene-boilerplate.js:1451-1462 | With orbits hidden, a moon keeps its mesh opacity but its orbit and faded label go to 0 and become unclickable. |
| Visibility.ApplyFadeGatesPointer | scene-boilerplate.js:1457-1462 | A label `applyFade` touches gets the opacity and is clickable exactly above 0.5; with `fadeLabel` false it is untouched. |
| Visibility.PlanetOpacity | scene-boilerplate.js:1677-1678 | A planet's opacity is in [0,1] and is 0 unless it belongs to the last focused system. |
| Visibility.PlanetLabelRules | scene-boilerplate.js:1689-1695 | A pinned planet label has opacity 1. An unpinned distant one has 0. A clickable one is local and more than half visible. |
| Visibility.PinnedDistantPlanetLabelIgnoresPointer | scene-boilerplate.js:1692-1695 | A pinned label of a distant planet is fully opaque yet never clickable. |
| Visibility.RingOpacity | scene-boilerplate.js:1684-1685 | A planet's own ring lookup sets 0.6 × the solar-system opacity, or 0 for a distant planet. |
| Visibility.RingMatchesApplyFade | scene-boilerplate.js:1685-1687 | That value equals what `applyFade` writes for the planet's orbit. |
| Visibility.FadeRingsAsWritten | scene-boilerplate.js:1670-1696 | As written, every ring but the first keeps its own value. The first ends the frame with the last planet's ring value. |
| Visibility.FadeRings | scene-boilerplate.js:1670-1696 | Corrected: every ring ends the frame with its own planet's value. |
| Visibility.MercuryRingVanishes | scene-boilerplate.js:1432 | Near Sol, Mercury's ring ends at 0 as written instead of 0.6, because the last planet in the list is Tau Ceti f. |
| Visibility.MoonRules | scene-boilerplate.js:1699-1722 | A focused moon is fully shown with its label at 1. An unfocused moon shows only in planet view around its focused parent. A pinned label is left untouched. |
| Visibility.StarMeshRules | scene-boilerplate.js:1733-1745 | Star meshes show only for the local system. A light shines only with the mesh above 0.1. A pinned star's label is left untouched. |
| Visibility.StellarLabelRules | scene-boilerplate.js:1752-1772 | Pinned gives 1. Outside interstellar or galactic view, or in a multi-star system, it gives 0; otherwise the interstellar opacity. Clickable exactly above 0.5. |
| Visibility.SpriteBranchesAgree | scene-boilerplate.js:1774-1784 | Both sprite branches give the interstellar opacity. |
| Visibility.SystemLabelRules | scene-boilerplate.js:1788-1792 | Pinned gives 1; otherwise the interstellar opacity in interstellar or galactic view and 0 elsewhere. Clickable exactly above 0.5. |
| Visibility.SingleStarLabelMatchesSystemLabel | scene-boilerplate.js:1752-1792 | A single star's label follows the same rule as a system label. |
| Visibility.InterstellarViewIsOuterScales | scene-boilerplate.js:1664 | `isInterstellarView` holds exactly in interstellar and galactic view. |
| Visibility.AsteroidBeltOnlyAroundSol | scene-boilerplate.js:1725-1730 | The belt is on (1) exactly around Sol, with Sol's bodies more than 1% visible and the checkbox set; otherwise off (0). |
| Visibility.GalaxyTexturesShareTheFade | scene-boilerplate.js:1868-1871 | The plain and labelled galaxy maps are opacities that share `interstellarFade` between them. |
| Visibility.PointCloudsOrdered | scene-boilerplate.js:1873-1878 | Every cloud layer is an opacity no brighter than `galacticOpacity`: halo ≤ thick disk ≤ thin disk = bulge. |
| StarTypes.SwitchMatchesTable | scene-boilerplate.js:1187-1203 | For a non-empty code, the switch agrees letter for letter with a second transcription of the mapping as a table; a letter not in it gives "Star". |
| StarTypes.UnknownOnlyWhenMissing | scene-boilerplate.js:1186 | "Unknown Star" is returned exactly for a missing or empty code. |
| StarTypes.FirstLetterDecides | scene-boilerplate.js:1187 | Codes with the same upper-cased first letter get the same name. |
| StarTypes.CaseDoesNotMatter | scene-boilerplate.js:1187 | A lower-case first letter is classified like its upper-case form. |
| StarTypes.CatalogueExamples | scene-boilerplate.js:1185-1204 | G2V is a Yellow Dwarf, M5.5Ve a Red Dwarf, DA2 a White Dwarf, T8 a Brown Dwarf, WC8 a plain Star. |
| Coordinates.DigitRun | scene-boilerplate.js:382 | A greedy `\d+` consumes the longest run of leading digits. |
| Coordinates.FirstSet | scene-boilerplate.js:382-384 | The left-to-right scan of `match`: the position found matches and no earlier one does; when nothing is found, no position matches. |
| Coordinates.LeftmostAtStart | scene-boilerplate.js:382-384 | A pattern that matches at the start of the string is found at position 0. |
| Coordinates.LeftmostNowhere | scene-boilerplate.js:382-384 | A pattern that matches at no position makes `match` return `null`. |
| Coordinates.RAAtLeastEight | scene-boilerplate.js:382 | Any text the right ascension pattern matches is at least eight characters long. |
| Coordinates.HoursWithinDay | scene-boilerplate.js:383 | Well-formed RA parts give a total in [0, 24) hours. |
| Coordinates.DegreesWithinSphere | scene-boilerplate.js:385-386 | Well-formed Dec parts give a total strictly between the poles, on the side the sign says. |
| Coordinates.RoundTripRA | scene-boilerplate.js:382 | Parsing a catalogue-formatted right ascension gives back its hours, minutes and seconds. |
| Coordinates.RoundTripDec | scene-boilerplate.js:384-385 | Parsing a catalogue-formatted declination gives back its sign, degrees, minutes and seconds. |
| Coordinates.SiriusRightAscension | scene-boilerplate.js:382 | "06h 45m 08s" parses as 6 h 45 m 8 s. |
| Coordinates.SiriusDeclination | scene-boilerplate.js:384-385 | "-16° 42' 58\"" parses as south, 16° 42' 58". |
| Coordinates.NoMatchExample | scene-boilerplate.js:382 | A string without seconds does not match. |
| DistanceUnits.BandIntervals | scene-boilerplate.js:1598-1609 | Each unit is chosen on exactly its own interval of AU, so the bands cover every distance without overlap. |
| DistanceUnits.BandMonotone | scene-boilerplate.js:1598-1609 | Moving away never switches to a smaller unit. |
| DistanceUnits.ThresholdsInBands | scene-boilerplate.js:1598-1609 | The planet and interstellar thresholds show in AU, the galactic one in light years. |
| Registry.FindStar | scene-boilerplate.js:587 | `find` by name returns the first star with that name, or nothing exactly when none has it. |
| Registry.Dedup | scene-boilerplate.js:580 | The dictionary's key order has each key once, and exactly the keys inserted. |
| Registry.StarsInExactly | scene-boilerplate.js:579-582 | A star is listed under exactly its own system. |
| Registry.PlanetsInExactly | scene-boilerplate.js:585-592 | An exoplanet is listed under exactly the system its star lookup gives. |
| Registry.SystemOfCases | scene-boilerplate.js:587-588 | An exoplanet takes its star's system; when no star has that name, it takes the `star` field itself. |
| Registry.FileStars | scene-boilerplate.js:579-582 | After the star loop, the keys are the systems in first-seen order, and each entry holds that system's stars in database order. |
| Registry.FilePlanets | scene-boilerplate.js:585-592 | After the exoplanet loop, keys are added in first-seen order, and each entry also holds its exoplanets in data order. |
| Registry.GroupSystems | scene-boilerplate.js:576-592 | `allSystems` is the partition of stars and exoplanets by system, keyed in insertion order. |
| Registry.ProximaPlanetsFallBack | scene-boilerplate.js:587-588 | An exoplanet naming the system "Alpha Centauri" rather than a star is filed under that system by the fallback. |
| Picking.Picks | scene-boilerplate.js:1498-1510 | One list contributes exactly its meshes that pass the test, in list order. |
| Picking.Clickables | scene-boilerplate.js:1498-1510 | `intersectableObjects` holds exactly the star meshes above 0.1 opacity, then the planet groups whose surface mesh exists and is above 0.1, then the stellar sprites above 0.1, each list in its own order. |
| Picking.NamedAncestor | scene-boilerplate.js:1084-1086 | The climb stops at the first named object on the chain, or at the root. |
| Picking.Climb | scene-boilerplate.js:1084-1086 | The `while` loop stops at that object. |
| Picking.SmallMovesAreNotFar | scene-boilerplate.js:1054-1057 | A pointer that stays within 3 px on each axis never travels past the 5 px drag radius. |
| Picking.DragTracker.MouseDown | scene-boilerplate.js:1050-1053 | A press records its position and is not a drag. |
| Picking.DragTracker.MouseMove | scene-boilerplate.js:1054-1057 | A move more than 5 px from the press makes it a drag; being a drag is never undone by a move. |
| Picking.DragTracker.Moves | scene-boilerplate.js:1054-1057 | After a run of moves, the press is a drag exactly when one of them left the radius. |
| Picking.PressWobbleAndSweep | scene-boilerplate.js:1050-1073 | A wobble of a few pixels still counts as a click; a 20 px sweep does not. |

## Left out

- Three.js scene, mesh, material, light and renderer construction (`createCelestialObject`, `createOrbit`, `createGalaxyMeshes`). These are calls into the rendering library.
- Orbital positions, rotation by `animationSpeed`, label screen projection, and the RA/Dec-to-Cartesian conversion. These need trigonometry and floating-point library code.
- The volumetric galaxy and asteroid belt generation (random sampling, canvas reads, shaders), and the asynchronous texture and HDRI loading.
- DOM work: label divs, info panel HTML, suggestion rendering, the credits panel, and number formatting (`toLocaleString`, `toFixed`). The state these change is modelled; the markup is not.
- The z-index sorting of visible labels. It orders DOM elements by distance and changes no state the model tracks.
- `THREE.MathUtils.smoothstep` and `lerp` values. They are library code; the fades are inputs in [0, 1]. The diagram-mix lerp for the galaxy maps is an input in [0, 1] too.
- Venus's atmosphere, which `applyFade` skips. It is one texture comparison on a mesh the model does not represent.
- Navigation.Navigator.Follow: `offset.setLength(distance)` needs a square root. The locked branch takes the scale factor as a parameter and does not prove that the distance is kept.
- Navigation.Navigator.ClickFocus: the ray cast and the UI-container test (`closest`) are inputs, as is the hit's world position.
- Coordinates.ParseRA: the source fails when `match` returns `null`. The model returns `None` there and does not model the exception.
- Search.Lower: `toLowerCase` is modelled on ASCII letters only. StarTypes.UpperChar likewise covers only ASCII for `toUpperCase`.
- Registry.GroupSystems: the key order is modelled as insertion order. JavaScript orders integer-like keys first; no system name is integer-like.
- Picking.DragTracker.MouseMove: `distanceTo(...) > 5` is compared on squares (more than 25). This is equivalent because distances are non-negative.

## Findings

| source | as written | input that shows it | evidently intended | confidence | as-written member | corrected member |
|---|---|---|---|---|---|---|
| scene-boilerplate.js:1630-1632 | The flight out to galactic view targets 100 light-years, 6,324,110 AU. That is below INTERSTELLAR_TO_GALACTIC (18,972,300 AU). | Interstellar view with the camera beyond 18,972,300 AU: the zoom lands at 6,324,110 AU, and the next pass leaves galactic view and zooms back in. | Land beyond the threshold just crossed, e.g. 1.2 × INTERSTELLAR_TO_GALACTIC. | high (not executed) | ScaleRegime.GalacticZoomBouncesAsWritten | ScaleRegime.ZoomLandsInItsRegime |
| scene-boilerplate.js:1432 | `orbitRings.find(o => o.uuid === celestial.orbitRingUUID)` compares two undefined fields, so every planet's `applyFade` writes the first ring. | Camera near Sol: Mercury's ring ends each frame at the last planet's value. That planet is Tau Ceti f, which is not local, so the ring is 0 instead of 0.6. | Each planet fades its own ring, as line 1684 does. | high (not executed) | Visibility.FadeRingsAsWritten | Visibility.FadeRings |
| scene-boilerplate.js:1094-1110, 1831 | `cameraTransition` is started on click but no frame ever advances or finishes it. The follow branch is skipped while it is active. | Click Earth, then wait 4 s: the glide is still active and the target has not moved. | Step the glide like the auto-zoom, with the same ease-out, so it lands and ends. | medium (not executed) | Navigation.StalledGlideAsWritten | Navigation.GlideArrives |
