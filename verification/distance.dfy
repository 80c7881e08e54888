/**
 * The distance counter of `animate`: which unit the camera-to-target
 * distance is shown in. Only the choice of band is modelled; the number
 * formatting (`toLocaleString`, `toFixed`) is not.
 */
module DistanceUnits {
  import opened ScaleRegime

  const LyPerPc: real := 3.26156
  const PcPerKpc: real := 1000.0

  datatype Band = Km | AU | Ly | Kpc

  /** The bands in order of increasing distance. */
  function BandRank(u: Band): nat {
    match u
    case Km => 0
    case AU => 1
    case Ly => 2
    case Kpc => 3
  }

  /** The AU value at which each band ends: 0.01 AU, one light year, one kiloparsec. */
  const KmLimit: real := 0.01
  const AuLimit: real := AuPerLy
  const LyLimit: real := AuPerLy * LyPerPc * PcPerKpc

  /** The `if / else if` chain on `distanceInAU = distanceToTarget / sceneUnitsPerAU`. */
  function BandOf(distanceToTarget: real): Band {
    var au := distanceToTarget / SceneUnitsPerAU;
    if au < KmLimit then Km
    else if au < AuLimit then AU
    else if au < LyLimit then Ly
    else Kpc
  }

  /** Each band is exactly the interval between its two limits, so the bands cover every distance without overlap. */
  lemma BandIntervals(d: real)
    ensures var au := d / SceneUnitsPerAU;
      && (BandOf(d) == Km <==> au < KmLimit)
      && (BandOf(d) == AU <==> KmLimit <= au < AuLimit)
      && (BandOf(d) == Ly <==> AuLimit <= au < LyLimit)
      && (BandOf(d) == Kpc <==> LyLimit <= au)
  {
  }

  /** Moving the camera away never switches to a smaller unit. */
  lemma BandMonotone(d1: real, d2: real)
    requires d1 <= d2
    ensures BandRank(BandOf(d1)) <= BandRank(BandOf(d2))
  {
    assert d1 / SceneUnitsPerAU <= d2 / SceneUnitsPerAU;
  }

  /**
   * Where the regime thresholds show on the counter: the planet threshold
   * (50 scene units, 10/7 AU) and the interstellar one (63,241 AU, just
   * under one light year of 63,241.1 AU) in AU, the galactic one in light
   * years.
   */
  lemma ThresholdsInBands()
    ensures BandOf(PlanetToSystem) == AU
    ensures BandOf(SystemToInterstellar * SceneUnitsPerAU) == AU
    ensures BandOf(InterstellarToGalactic * SceneUnitsPerAU) == Ly
  {
  }
}
