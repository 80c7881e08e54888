/**
 * The `allSystems` dictionary: the stars of `starDatabase` grouped by their
 * `system`, then the exoplanets of `exoplanetData` added to the system of the
 * star they name. `main` later creates one star system per entry, in the
 * dictionary's insertion order.
 */
module Registry {
  import opened Wrappers

  /** The fields of a `starDatabase` entry the grouping reads. */
  datatype StarRecord = StarRecord(name: string, system: string)

  /** The fields of an `exoplanetData` entry the grouping reads: `star` names a star or a system. */
  datatype PlanetRecord = PlanetRecord(name: string, star: string)

  datatype SystemEntry = SystemEntry(name: string, stars: seq<StarRecord>, planets: seq<PlanetRecord>)

  /** `starDatabase.find(s => s.name === name)`. */
  function FindStar(stars: seq<StarRecord>, name: string): (r: Option<StarRecord>)
    ensures r.Some? ==> r.value in stars && r.value.name == name
    ensures r.Some? ==> exists i :: 0 <= i < |stars| && stars[i] == r.value && forall j :: 0 <= j < i ==> stars[j].name != name
    ensures r.None? <==> forall i :: 0 <= i < |stars| ==> stars[i].name != name
  {
    if |stars| == 0 then None
    else if stars[0].name == name then Some(stars[0])
    else
      var r := FindStar(stars[1..], name);
      assert r.Some? ==> exists i :: 0 <= i < |stars| && stars[i] == r.value && forall j :: 0 <= j < i ==> stars[j].name != name by {
        if r.Some? {
          var i :| 0 <= i < |stars[1..]| && stars[1..][i] == r.value && forall j :: 0 <= j < i ==> stars[1..][j].name != name;
          assert stars[i + 1] == r.value && forall j :: 0 <= j < i + 1 ==> stars[j].name != name;
        }
      }
      r
  }

  /** The system an exoplanet belongs to: its star's system, or the `star` field itself when no star has that name. */
  function SystemOf(stars: seq<StarRecord>, p: PlanetRecord): string {
    match FindStar(stars, p.star)
    case Some(s) => s.system
    case None => p.star
  }

  /** The stars of system `k`, in database order. */
  function StarsIn(stars: seq<StarRecord>, k: string): seq<StarRecord> {
    if |stars| == 0 then []
    else StarsIn(stars[..|stars| - 1], k) + (if stars[|stars| - 1].system == k then [stars[|stars| - 1]] else [])
  }

  /** The exoplanets of system `k`, in data order. */
  function PlanetsIn(stars: seq<StarRecord>, planets: seq<PlanetRecord>, k: string): seq<PlanetRecord> {
    if |planets| == 0 then []
    else PlanetsIn(stars, planets[..|planets| - 1], k)
         + (if SystemOf(stars, planets[|planets| - 1]) == k then [planets[|planets| - 1]] else [])
  }

  /** The system key each record is filed under, in the order the two loops visit them. */
  function StarKeys(stars: seq<StarRecord>): seq<string> {
    if |stars| == 0 then [] else StarKeys(stars[..|stars| - 1]) + [stars[|stars| - 1].system]
  }

  function PlanetKeys(stars: seq<StarRecord>, planets: seq<PlanetRecord>): seq<string> {
    if |planets| == 0 then [] else PlanetKeys(stars, planets[..|planets| - 1]) + [SystemOf(stars, planets[|planets| - 1])]
  }

  /** First occurrences only: the insertion order of the dictionary's keys. */
  function Dedup(xs: seq<string>): (r: seq<string>)
    ensures forall x :: x in r <==> x in xs
    ensures forall i, j :: 0 <= i < j < |r| ==> r[i] != r[j]
  {
    if |xs| == 0 then []
    else
      var d := Dedup(xs[..|xs| - 1]);
      var x := xs[|xs| - 1];
      assert forall y :: y in xs <==> y in xs[..|xs| - 1] || y == x;
      if x in d then d else d + [x]
  }

  /** Appending a key keeps the order of first occurrences and adds the key only if it is new. */
  lemma DedupSnoc(xs: seq<string>, x: string)
    ensures Dedup(xs + [x]) == if x in Dedup(xs) then Dedup(xs) else Dedup(xs) + [x]
  {
    assert (xs + [x])[..|xs|] == xs;
  }

  /** Grouping is a partition: a star is listed under exactly its own system. */
  lemma {:induction false} StarsInExactly(stars: seq<StarRecord>, k: string)
    ensures forall s :: s in StarsIn(stars, k) <==> s in stars && s.system == k
  {
    if |stars| > 0 {
      StarsInExactly(stars[..|stars| - 1], k);
      assert forall s :: s in stars <==> s in stars[..|stars| - 1] || s == stars[|stars| - 1];
    }
  }

  /** An exoplanet is listed under exactly the system SystemOf gives it. */
  lemma {:induction false} PlanetsInExactly(stars: seq<StarRecord>, planets: seq<PlanetRecord>, k: string)
    ensures forall p :: p in PlanetsIn(stars, planets, k) <==> p in planets && SystemOf(stars, p) == k
  {
    if |planets| > 0 {
      PlanetsInExactly(stars, planets[..|planets| - 1], k);
      assert forall p :: p in planets <==> p in planets[..|planets| - 1] || p == planets[|planets| - 1];
    }
  }

  /** A key that no star is filed under has no stars. */
  lemma {:induction false} StarsInAbsent(stars: seq<StarRecord>, k: string)
    requires k !in StarKeys(stars)
    ensures StarsIn(stars, k) == []
  {
    if |stars| > 0 {
      assert StarKeys(stars) == StarKeys(stars[..|stars| - 1]) + [stars[|stars| - 1].system];
      StarsInAbsent(stars[..|stars| - 1], k);
    }
  }

  /** A key that no exoplanet is filed under has no exoplanets. */
  lemma {:induction false} PlanetsInAbsent(stars: seq<StarRecord>, planets: seq<PlanetRecord>, k: string)
    requires k !in PlanetKeys(stars, planets)
    ensures PlanetsIn(stars, planets, k) == []
  {
    if |planets| > 0 {
      assert PlanetKeys(stars, planets) == PlanetKeys(stars, planets[..|planets| - 1]) + [SystemOf(stars, planets[|planets| - 1])];
      PlanetsInAbsent(stars, planets[..|planets| - 1], k);
    }
  }

  /** The lookup falls back to the `star` field only when no star has that name. */
  lemma SystemOfCases(stars: seq<StarRecord>, p: PlanetRecord)
    ensures (exists s :: s in stars && s.name == p.star) ==> exists s :: s in stars && s.name == p.star && SystemOf(stars, p) == s.system
    ensures (forall s :: s in stars ==> s.name != p.star) ==> SystemOf(stars, p) == p.star
  {
    if forall s :: s in stars ==> s.name != p.star {
      assert forall i :: 0 <= i < |stars| ==> stars[i].name != p.star by {
        forall i | 0 <= i < |stars|
          ensures stars[i].name != p.star
        {
          assert stars[i] in stars;
        }
      }
    }
  }

  /** One more star: the key list and system `k`'s stars grow by that star's contribution. */
  lemma StarStep(stars: seq<StarRecord>, i: nat, k: string)
    requires i < |stars|
    ensures StarKeys(stars[..i + 1]) == StarKeys(stars[..i]) + [stars[i].system]
    ensures StarsIn(stars[..i + 1], k) == StarsIn(stars[..i], k) + (if stars[i].system == k then [stars[i]] else [])
  {
    assert stars[..i + 1][..i] == stars[..i];
  }

  /** One more exoplanet, likewise. */
  lemma PlanetStep(stars: seq<StarRecord>, planets: seq<PlanetRecord>, j: nat, k: string)
    requires j < |planets|
    ensures PlanetKeys(stars, planets[..j + 1]) == PlanetKeys(stars, planets[..j]) + [SystemOf(stars, planets[j])]
    ensures PlanetsIn(stars, planets[..j + 1], k)
         == PlanetsIn(stars, planets[..j], k) + (if SystemOf(stars, planets[j]) == k then [planets[j]] else [])
  {
    assert planets[..j + 1][..j] == planets[..j];
  }

  /** What the two loops keep: the keys in first-insertion order, and each entry holding exactly its system's records so far. */
  ghost predicate Filed(stars: seq<StarRecord>, planets: seq<PlanetRecord>, systems: map<string, SystemEntry>, order: seq<string>) {
    && order == Dedup(StarKeys(stars) + PlanetKeys(stars, planets))
    && KeysMatch(systems, order)
    && EntriesHold(stars, planets, systems)
  }

  /** The dictionary's keys are exactly the keys listed in `order`. */
  ghost predicate KeysMatch(systems: map<string, SystemEntry>, order: seq<string>) {
    forall k :: k in systems <==> k in order
  }

  /** Each entry holds exactly its system's stars and exoplanets. */
  ghost predicate EntriesHold(stars: seq<StarRecord>, planets: seq<PlanetRecord>, systems: map<string, SystemEntry>) {
    forall k :: k in systems ==> systems[k] == SystemEntry(k, StarsIn(stars, k), PlanetsIn(stars, planets, k))
  }

  /** The entry a record is pushed onto: the existing one, or a fresh empty one. */
  function EntryFor(systems: map<string, SystemEntry>, k: string): SystemEntry {
    if k in systems then systems[k] else SystemEntry(k, [], [])
  }

  /** The key order after filing one more star. */
  lemma StarOrderStep(stars: seq<StarRecord>, i: nat, order: seq<string>)
    requires i < |stars| && order == Dedup(StarKeys(stars[..i]) + PlanetKeys(stars[..i], []))
    ensures var key := stars[i].system;
      (if key in order then order else order + [key]) == Dedup(StarKeys(stars[..i + 1]) + PlanetKeys(stars[..i + 1], []))
  {
    StarStep(stars, i, stars[i].system);
    assert StarKeys(stars[..i]) + PlanetKeys(stars[..i], []) == StarKeys(stars[..i]);
    assert StarKeys(stars[..i + 1]) + PlanetKeys(stars[..i + 1], []) == StarKeys(stars[..i + 1]);
    DedupSnoc(StarKeys(stars[..i]), stars[i].system);
  }

  /** The entries after filing one more star: its system's entry gains it, every other entry is unchanged. */
  lemma StarEntriesStep(stars: seq<StarRecord>, i: nat, systems: map<string, SystemEntry>)
    requires i < |stars|
    requires forall k :: k in systems ==> systems[k] == SystemEntry(k, StarsIn(stars[..i], k), PlanetsIn(stars[..i], [], k))
    requires stars[i].system !in systems ==> stars[i].system !in StarKeys(stars[..i])
    ensures var s := stars[i]; var e := EntryFor(systems, s.system); var systems' := systems[s.system := e.(stars := e.stars + [s])];
      forall k :: k in systems' ==> systems'[k] == SystemEntry(k, StarsIn(stars[..i + 1], k), PlanetsIn(stars[..i + 1], [], k))
  {
    var s := stars[i];
    var e := EntryFor(systems, s.system);
    var systems' := systems[s.system := e.(stars := e.stars + [s])];
    if s.system !in systems {
      StarsInAbsent(stars[..i], s.system);
    }
    assert e == SystemEntry(s.system, StarsIn(stars[..i], s.system), []);
    forall k | k in systems'
      ensures systems'[k] == SystemEntry(k, StarsIn(stars[..i + 1], k), PlanetsIn(stars[..i + 1], [], k))
    {
      StarStep(stars, i, k);
      if k != s.system {
        assert systems'[k] == systems[k];
      }
    }
  }

  /** Updating the entry of `key`, and appending `key` to the order when it is new, keeps keys and order in step. */
  lemma KeysStep(systems: map<string, SystemEntry>, order: seq<string>, key: string, entry: SystemEntry, order': seq<string>)
    requires KeysMatch(systems, order)
    requires order' == if key in systems then order else order + [key]
    ensures KeysMatch(systems[key := entry], order')
  {
  }

  /** Filing the next star: the order conjunct of `Filed`. */
  lemma FileStarOrder(stars: seq<StarRecord>, i: nat, systems: map<string, SystemEntry>, order: seq<string>,
                     systems': map<string, SystemEntry>, order': seq<string>)
    requires i < |stars| && Filed(stars[..i], [], systems, order)
    requires var key := stars[i].system; var e := EntryFor(systems, key);
      && systems' == systems[key := e.(stars := e.stars + [stars[i]])]
      && order' == if key in systems then order else order + [key]
    ensures order' == Dedup(StarKeys(stars[..i + 1]) + PlanetKeys(stars[..i + 1], []))
  {
    assert stars[i].system in systems <==> stars[i].system in order;
    StarOrderStep(stars, i, order);
  }

  /** Filing the next star: the entries conjunct of `Filed`. */
  lemma FileStarEntries(stars: seq<StarRecord>, i: nat, systems: map<string, SystemEntry>, order: seq<string>,
                     systems': map<string, SystemEntry>, order': seq<string>)
    requires i < |stars| && Filed(stars[..i], [], systems, order)
    requires var key := stars[i].system; var e := EntryFor(systems, key);
      && systems' == systems[key := e.(stars := e.stars + [stars[i]])]
      && order' == if key in systems then order else order + [key]
    ensures EntriesHold(stars[..i + 1], [], systems')
  {
    assert stars[i].system !in systems ==> stars[i].system !in StarKeys(stars[..i]) by {
      assert StarKeys(stars[..i]) + PlanetKeys(stars[..i], []) == StarKeys(stars[..i]);
    }
    StarEntriesStep(stars, i, systems);
  }

  /** Filing the next star keeps `Filed`, the exoplanets not yet started. */
  lemma FileStarStep(stars: seq<StarRecord>, i: nat, systems: map<string, SystemEntry>, order: seq<string>,
                     systems': map<string, SystemEntry>, order': seq<string>)
    requires i < |stars| && Filed(stars[..i], [], systems, order)
    requires var key := stars[i].system; var e := EntryFor(systems, key);
      && systems' == systems[key := e.(stars := e.stars + [stars[i]])]
      && order' == if key in systems then order else order + [key]
    ensures Filed(stars[..i + 1], [], systems', order')
  {
    var e := EntryFor(systems, stars[i].system);
    FileStarOrder(stars, i, systems, order, systems', order');
    KeysStep(systems, order, stars[i].system, e.(stars := e.stars + [stars[i]]), order');
    FileStarEntries(stars, i, systems, order, systems', order');
  }

  /** The key order after filing one more exoplanet. */
  lemma PlanetOrderStep(stars: seq<StarRecord>, planets: seq<PlanetRecord>, j: nat, order: seq<string>)
    requires j < |planets| && order == Dedup(StarKeys(stars) + PlanetKeys(stars, planets[..j]))
    ensures var key := SystemOf(stars, planets[j]);
      (if key in order then order else order + [key]) == Dedup(StarKeys(stars) + PlanetKeys(stars, planets[..j + 1]))
  {
    var key := SystemOf(stars, planets[j]);
    PlanetStep(stars, planets, j, key);
    ghost var keys := StarKeys(stars) + PlanetKeys(stars, planets[..j]);
    assert StarKeys(stars) + PlanetKeys(stars, planets[..j + 1]) == keys + [key];
    DedupSnoc(keys, key);
  }

  /** The entries after filing one more exoplanet. */
  lemma PlanetEntriesStep(stars: seq<StarRecord>, planets: seq<PlanetRecord>, j: nat, systems: map<string, SystemEntry>)
    requires j < |planets|
    requires forall k :: k in systems ==> systems[k] == SystemEntry(k, StarsIn(stars, k), PlanetsIn(stars, planets[..j], k))
    requires var key := SystemOf(stars, planets[j]);
      key !in systems ==> key !in StarKeys(stars) && key !in PlanetKeys(stars, planets[..j])
    ensures var p := planets[j]; var key := SystemOf(stars, p); var e := EntryFor(systems, key);
      var systems' := systems[key := e.(planets := e.planets + [p])];
      forall k :: k in systems' ==> systems'[k] == SystemEntry(k, StarsIn(stars, k), PlanetsIn(stars, planets[..j + 1], k))
  {
    var p := planets[j];
    var key := SystemOf(stars, p);
    var e := EntryFor(systems, key);
    var systems' := systems[key := e.(planets := e.planets + [p])];
    if key !in systems {
      StarsInAbsent(stars, key);
      PlanetsInAbsent(stars, planets[..j], key);
    }
    assert e == SystemEntry(key, StarsIn(stars, key), PlanetsIn(stars, planets[..j], key));
    forall k | k in systems'
      ensures systems'[k] == SystemEntry(k, StarsIn(stars, k), PlanetsIn(stars, planets[..j + 1], k))
    {
      PlanetStep(stars, planets, j, k);
      if k != key {
        assert systems'[k] == systems[k];
      }
    }
  }

  /** Filing the next exoplanet: the order conjunct of `Filed`. */
  lemma FilePlanetOrder(stars: seq<StarRecord>, planets: seq<PlanetRecord>, j: nat, systems: map<string, SystemEntry>, order: seq<string>,
                       systems': map<string, SystemEntry>, order': seq<string>)
    requires j < |planets| && Filed(stars, planets[..j], systems, order)
    requires var key := SystemOf(stars, planets[j]); var e := EntryFor(systems, key);
      && systems' == systems[key := e.(planets := e.planets + [planets[j]])]
      && order' == if key in systems then order else order + [key]
    ensures order' == Dedup(StarKeys(stars) + PlanetKeys(stars, planets[..j + 1]))
  {
    assert SystemOf(stars, planets[j]) in systems <==> SystemOf(stars, planets[j]) in order;
    PlanetOrderStep(stars, planets, j, order);
  }

  /** Filing the next exoplanet: the entries conjunct of `Filed`. */
  lemma FilePlanetEntries(stars: seq<StarRecord>, planets: seq<PlanetRecord>, j: nat, systems: map<string, SystemEntry>, order: seq<string>,
                       systems': map<string, SystemEntry>, order': seq<string>)
    requires j < |planets| && Filed(stars, planets[..j], systems, order)
    requires var key := SystemOf(stars, planets[j]); var e := EntryFor(systems, key);
      && systems' == systems[key := e.(planets := e.planets + [planets[j]])]
      && order' == if key in systems then order else order + [key]
    ensures EntriesHold(stars, planets[..j + 1], systems')
  {
    var key := SystemOf(stars, planets[j]);
    assert key !in systems ==> key !in StarKeys(stars) + PlanetKeys(stars, planets[..j]);
    PlanetEntriesStep(stars, planets, j, systems);
  }

  /** Filing the next exoplanet keeps `Filed`. */
  lemma FilePlanetStep(stars: seq<StarRecord>, planets: seq<PlanetRecord>, j: nat, systems: map<string, SystemEntry>, order: seq<string>,
                       systems': map<string, SystemEntry>, order': seq<string>)
    requires j < |planets| && Filed(stars, planets[..j], systems, order)
    requires var key := SystemOf(stars, planets[j]); var e := EntryFor(systems, key);
      && systems' == systems[key := e.(planets := e.planets + [planets[j]])]
      && order' == if key in systems then order else order + [key]
    ensures Filed(stars, planets[..j + 1], systems', order')
  {
    var key := SystemOf(stars, planets[j]);
    FilePlanetOrder(stars, planets, j, systems, order, systems', order');
    var e := EntryFor(systems, key);
    KeysStep(systems, order, key, e.(planets := e.planets + [planets[j]]), order');
    FilePlanetEntries(stars, planets, j, systems, order, systems', order');
  }

  /** The `forEach` callback of the first loop: create the star's system entry on first sight, then push the star. */
  method AddStar(systems: map<string, SystemEntry>, order: seq<string>, s: StarRecord)
      returns (systems': map<string, SystemEntry>, order': seq<string>)
    ensures systems' == systems[s.system := EntryFor(systems, s.system).(stars := EntryFor(systems, s.system).stars + [s])]
    ensures order' == if s.system in systems then order else order + [s.system]
  {
    systems', order' := systems, order;
    if s.system !in systems' {
      systems' := systems'[s.system := SystemEntry(s.system, [], [])];
      order' := order' + [s.system];
    }
    var e := systems'[s.system];
    systems' := systems'[s.system := e.(stars := e.stars + [s])];
  }

  /** The callback of the second loop: look up the exoplanet's system, create its entry on first sight, then push. */
  method AddPlanet(stars: seq<StarRecord>, systems: map<string, SystemEntry>, order: seq<string>, p: PlanetRecord)
      returns (systems': map<string, SystemEntry>, order': seq<string>)
    ensures var k := SystemOf(stars, p);
      && systems' == systems[k := EntryFor(systems, k).(planets := EntryFor(systems, k).planets + [p])]
      && order' == if k in systems then order else order + [k]
  {
    var k := match FindStar(stars, p.star) case Some(info) => info.system case None => p.star;
    systems', order' := systems, order;
    if k !in systems' {
      systems' := systems'[k := SystemEntry(k, [], [])];
      order' := order' + [k];
    }
    var e := systems'[k];
    systems' := systems'[k := e.(planets := e.planets + [p])];
  }

  /** The first loop: every star pushed onto its system's entry, created on first sight. */
  method FileStars(stars: seq<StarRecord>) returns (systems: map<string, SystemEntry>, order: seq<string>)
    ensures Filed(stars, [], systems, order)
  {
    systems, order := map[], [];
    var i := 0;
    while i < |stars|
      invariant 0 <= i <= |stars|
      invariant Filed(stars[..i], [], systems, order)
    {
      var systems', order' := AddStar(systems, order, stars[i]);
      FileStarStep(stars, i, systems, order, systems', order');
      systems, order := systems', order';
      i := i + 1;
    }
    assert stars[..i] == stars;
  }

  /** The second loop: every exoplanet pushed onto the entry of the system SystemOf gives it. */
  method FilePlanets(stars: seq<StarRecord>, planets: seq<PlanetRecord>, systems0: map<string, SystemEntry>, order0: seq<string>)
      returns (systems: map<string, SystemEntry>, order: seq<string>)
    requires Filed(stars, [], systems0, order0)
    ensures Filed(stars, planets, systems, order)
  {
    systems, order := systems0, order0;
    var j := 0;
    assert planets[..0] == [];
    while j < |planets|
      invariant 0 <= j <= |planets|
      invariant Filed(stars, planets[..j], systems, order)
    {
      var systems', order' := AddPlanet(stars, systems, order, planets[j]);
      FilePlanetStep(stars, planets, j, systems, order, systems', order');
      systems, order := systems', order';
      j := j + 1;
    }
    assert planets[..j] == planets;
  }

  /** Both loops building `allSystems`, with the keys in the order they were inserted. */
  method GroupSystems(stars: seq<StarRecord>, planets: seq<PlanetRecord>)
      returns (systems: map<string, SystemEntry>, order: seq<string>)
    ensures order == Dedup(StarKeys(stars) + PlanetKeys(stars, planets))
    ensures forall k :: k in systems <==> k in order
    ensures forall k :: k in systems ==> systems[k] == SystemEntry(k, StarsIn(stars, k), PlanetsIn(stars, planets, k))
  {
    systems, order := FileStars(stars);
    systems, order := FilePlanets(stars, planets, systems, order);
  }

  /**
   * The Proxima Centauri planets name "Alpha Centauri", which is a system
   * and not a star: no star matches, and the fallback files them under the
   * system of that name anyway.
   */
  lemma ProximaPlanetsFallBack()
    ensures var stars := [StarRecord("Alpha Centauri A", "Alpha Centauri"), StarRecord("Proxima Centauri", "Alpha Centauri")];
      SystemOf(stars, PlanetRecord("Proxima Centauri b", "Alpha Centauri")) == "Alpha Centauri"
  {
  }
}
