/** The shooting-star spawner of `src/components/OrbitBackdrop.jsx`: the
    registry of live shooting stars, one timer tick, and the
    `animationend` clean-up; plus the visible-star filter of the composite. */
module OrbitBackdrop {
  import opened JsMath
  import opened BackgroundConfig

  /** The concurrency cap of one tick, drawn from a single `Math.random()`:
      3 below 0.10, 2 below 0.35, and 1 otherwise. */
  function MaxStars(rand: real): (cap: nat)
    ensures cap == 1 || cap == 2 || cap == 3
    ensures cap == 3 <==> rand < 0.10
    ensures cap == 2 <==> 0.10 <= rand < 0.35
    ensures cap == 1 <==> 0.35 <= rand
  {
    if rand < SHOOTING_STAR_THREE_CHANCE then MAX_SHOOTING_STARS_THREE
    else if rand < SHOOTING_STAR_THREE_CHANCE + SHOOTING_STAR_TWO_CHANCE then MAX_SHOOTING_STARS_TWO
    else MAX_SHOOTING_STARS
  }

  /** The delay before the next tick, in milliseconds:
      `MIN_DELAY + Math.random() * (MAX_DELAY - MIN_DELAY)`. */
  function SpawnDelay(r: real): (delay: real)
    requires IsRandom(r)
    ensures 3000.0 <= delay < 8000.0
  {
    SHOOTING_STAR_MIN_DELAY + r * (SHOOTING_STAR_MAX_DELAY - SHOOTING_STAR_MIN_DELAY)
  }

  /** `Math.round(angle / 10) * 10`: the nearest multiple of ten, halves
      rounded up. */
  function RoundToTen(angle: real): (a: int)
    ensures a % 10 == 0
    ensures angle - 5.0 < a as real <= angle + 5.0
  {
    var n := Round(angle / 10.0);
    assert (angle / 10.0) * 10.0 == angle;
    n * 10
  }

  /** A registry entry: the star and the index its keyframe rule had in the
      shared style sheet when it was inserted. */
  datatype Entry = Entry(star: ShootingStar, keyframeIndex: nat)

  /** The rounded angles of the stars registered under `keys`. */
  function AnglesOf(stars: map<string, Entry>, keys: set<string>): set<int>
    requires keys <= stars.Keys
  {
    set id | id in keys :: RoundToTen(stars[id].star.angle)
  }

  /** The angle set handed to `createShootingStar`: one rounded angle per
      live star. */
  function AngleSet(stars: map<string, Entry>): set<int> {
    AnglesOf(stars, stars.Keys)
  }

  /** The `!star.hidden` filter of the star layer, keeping the order. */
  function VisibleStars(stars: seq<Star>): seq<Star> {
    if stars == [] then []
    else (if stars[0].hidden then [] else [stars[0]]) + VisibleStars(stars[1..])
  }

  /** The filter keeps exactly the stars that are not hidden. */
  lemma {:induction false} VisibleStarsMembers(stars: seq<Star>)
    ensures forall s :: s in VisibleStars(stars) <==> s in stars && !s.hidden
  {
    if stars != [] {
      VisibleStarsMembers(stars[1..]);
      assert stars == [stars[0]] + stars[1..];
    }
  }

  /** No star the composite draws lies inside a planet zone. */
  lemma VisibleStarsOutsideZones(n: nat, draws: seq<StarDraws>)
    requires |draws| == n && ValidAllStarDraws(draws)
    ensures forall s, k :: s in VisibleStars(GenerateStars(n, PLANET_ZONES, draws)) && 0 <= k < |PLANET_ZONES| ==>
              !InZone(PLANET_ZONES[k], s.top, s.left)
  {
    var stars := GenerateStars(n, PLANET_ZONES, draws);
    VisibleStarsMembers(stars);
    forall s, k | s in VisibleStars(stars) && 0 <= k < |PLANET_ZONES|
      ensures !InZone(PLANET_ZONES[k], s.top, s.left)
    {
      var i :| 0 <= i < |stars| && stars[i] == s;
      GenerateStarsHidden(n, PLANET_ZONES, draws, i);
    }
  }

  /** `deleteRule` behind its guard: the rule at `index` is removed only when
      `index` names an existing rule; otherwise the sheet is left alone. */
  function GuardedDelete(rules: seq<string>, index: int): (r: seq<string>)
    ensures 0 <= index < |rules| ==>
              (|r| == |rules| - 1 &&
               (forall k :: 0 <= k < index ==> r[k] == rules[k]) &&
               (forall k :: index <= k < |r| ==> r[k] == rules[k + 1]))
    ensures !(0 <= index < |rules|) ==> r == rules
  {
    if 0 <= index < |rules| then rules[..index] + rules[index + 1..] else rules
  }

  /** At most three stars are live, and each is registered under its own id. */
  predicate RegistryOk(stars: map<string, Entry>) {
    |stars| <= MAX_SHOOTING_STARS_THREE &&
    forall id :: id in stars ==> stars[id].star.id == id
  }

  /** The registry and the style sheet's rules after one wake of the spawn
      timer, given the cap draw `rand`, the draws of `createShootingStar`,
      the viewport and the new star's id. */
  function TickStep(stars: map<string, Entry>, rules: seq<string>, mounted: bool,
                    rand: real, draws: ShootingDraws, env: Option<Viewport>, id: string)
    : (map<string, Entry>, seq<string>)
    requires ValidShootingDraws(draws)
  {
    if |stars| >= MaxStars(rand) then (stars, rules)
    else
      match CreateShootingStar(AngleSet(stars), env, draws, id)
      case None => (stars, rules)
      case Some(star) =>
        if !mounted then (stars, rules)
        else (stars[id := Entry(star, |rules|)], rules + [id])
  }

  /** A tick that finds the registry at its cap changes nothing. */
  lemma TickSkipsAtCap(stars: map<string, Entry>, rules: seq<string>, mounted: bool,
                       rand: real, draws: ShootingDraws, env: Option<Viewport>, id: string)
    requires ValidShootingDraws(draws) && |stars| >= MaxStars(rand)
    ensures TickStep(stars, rules, mounted, rand, draws, env, id) == (stars, rules)
  {
  }

  /** Without a window, or without the container, a tick changes nothing. */
  lemma TickWithoutStar(stars: map<string, Entry>, rules: seq<string>, mounted: bool,
                        rand: real, draws: ShootingDraws, env: Option<Viewport>, id: string)
    requires ValidShootingDraws(draws) && (env.None? || !mounted)
    ensures TickStep(stars, rules, mounted, rand, draws, env, id) == (stars, rules)
  {
  }

  /** A tick below the cap, with a window and a mounted container, appends
      the new star's rule and registers the star under its id with that
      rule's index; the other entries stay as they were, and the registry
      grows by one for a fresh id and stays within the cap. */
  lemma TickSpawns(stars: map<string, Entry>, rules: seq<string>,
                   rand: real, draws: ShootingDraws, vp: Viewport, id: string)
    requires ValidShootingDraws(draws) && |stars| < MaxStars(rand)
    ensures var (stars2, rules2) := TickStep(stars, rules, true, rand, draws, Some(vp), id);
            rules2 == rules + [id] &&
            stars2.Keys == stars.Keys + {id} &&
            stars2[id].star.id == id &&
            stars2[id].star == CreateShootingStar(AngleSet(stars), Some(vp), draws, id).value &&
            stars2[id].keyframeIndex == |rules| &&
            (forall k :: k in stars && k != id ==> stars2[k] == stars[k]) &&
            (id !in stars ==> |stars2| == |stars| + 1) &&
            |stars2| <= MaxStars(rand)
  {
    var stars2 := TickStep(stars, rules, true, rand, draws, Some(vp), id).0;
    if id in stars {
      assert stars2.Keys == stars.Keys;
    } else {
      assert stars2.Keys == stars.Keys + {id};
    }
  }

  /** Every tick keeps the registry within three stars, each under its own id. */
  lemma TickKeepsRegistryOk(stars: map<string, Entry>, rules: seq<string>, mounted: bool,
                            rand: real, draws: ShootingDraws, env: Option<Viewport>, id: string)
    requires ValidShootingDraws(draws) && RegistryOk(stars)
    ensures RegistryOk(TickStep(stars, rules, mounted, rand, draws, env, id).0)
  {
    if |stars| < MaxStars(rand) && env.Some? && mounted {
      TickSpawns(stars, rules, rand, draws, env.value, id);
    }
  }

  /** The registry and the rules after the `animationend` of star `id`. */
  function EndStep(stars: map<string, Entry>, rules: seq<string>, id: string)
    : (map<string, Entry>, seq<string>)
  {
    (stars - {id}, if id in stars then GuardedDelete(rules, stars[id].keyframeIndex) else rules)
  }

  /** `animationend` removes exactly `id`, and handling it a second time
      changes nothing. */
  lemma EndStepRemovesOnce(stars: map<string, Entry>, rules: seq<string>, id: string)
    ensures var (stars2, _) := EndStep(stars, rules, id);
            id !in stars2 &&
            (forall k :: k in stars && k != id ==> k in stars2 && stars2[k] == stars[k]) &&
            stars2.Keys <= stars.Keys
    ensures var (stars2, rules2) := EndStep(stars, rules, id);
            EndStep(stars2, rules2, id) == (stars2, rules2)
  {
    var (stars2, rules2) := EndStep(stars, rules, id);
    assert stars2 - {id} == stars2;
  }

  /** `animationend` keeps the registry within three stars, each under its
      own id. */
  lemma EndKeepsRegistryOk(stars: map<string, Entry>, rules: seq<string>, id: string)
    requires RegistryOk(stars)
    ensures RegistryOk(EndStep(stars, rules, id).0)
  {
    assert (stars - {id}).Keys <= stars.Keys;
    SubsetCard((stars - {id}).Keys, stars.Keys);
  }

  lemma SubsetCard(a: set<string>, b: set<string>)
    requires a <= b
    ensures |a| <= |b|
  {
    assert b == a + (b - a);
  }

  /** Two ticks at cap 1 (`rand` = 0.5) with no `animationend` between them
      leave exactly one live star: the second tick finds the registry at the
      cap. */
  lemma TwoTicksAtCapOne(d1: ShootingDraws, d2: ShootingDraws, vp: Viewport, id1: string, id2: string)
    requires ValidShootingDraws(d1) && ValidShootingDraws(d2)
    ensures var (s1, r1) := TickStep(map[], [], true, 0.5, d1, Some(vp), id1);
            var (s2, r2) := TickStep(s1, r1, true, 0.5, d2, Some(vp), id2);
            |s2| == 1 && s2.Keys == {id1} && r2 == [id1]
  {
    TickSpawns(map[], [], 0.5, d1, vp, id1);
    var (s1, r1) := TickStep(map[], [], true, 0.5, d1, Some(vp), id1);
    assert s1.Keys == {id1};
    TickSkipsAtCap(s1, r1, true, 0.5, d2, Some(vp), id2);
  }

  /** Any tick on an empty registry, with a window and the container,
      spawns: the star gets rule index 0. */
  lemma SpawnFromEmpty(rand: real, d: ShootingDraws, vp: Viewport, id: string)
    requires ValidShootingDraws(d)
    ensures var t := TickStep(map[], [], true, rand, d, Some(vp), id);
            t.0.Keys == {id} && t.1 == [id] && t.0[id].keyframeIndex == 0
  {
    TickSpawns(map[], [], rand, d, vp, id);
  }

  /** A tick at cap 2 on a registry holding one star spawns a second one
      with rule index 1. */
  lemma SpawnSecondAtCapTwo(s1: map<string, Entry>, d: ShootingDraws, vp: Viewport, id1: string, id2: string)
    requires ValidShootingDraws(d) && id1 != id2
    requires s1.Keys == {id1} && s1[id1].keyframeIndex == 0
    ensures var t := TickStep(s1, [id1], true, 0.2, d, Some(vp), id2);
            t.0.Keys == {id1, id2} && t.1 == [id1, id2] &&
            t.0[id1].keyframeIndex == 0 && t.0[id2].keyframeIndex == 1
  {
    assert |s1| == |s1.Keys| == 1;
    TickSpawns(s1, [id1], 0.2, d, vp, id2);
  }

  /** Two ticks at cap 2 (`rand` = 0.2) from an empty registry spawn both
      stars: rules `[id1, id2]`, recorded at indices 0 and 1. */
  lemma SpawnTwoAtCapTwo(d1: ShootingDraws, d2: ShootingDraws, vp: Viewport, id1: string, id2: string)
    requires ValidShootingDraws(d1) && ValidShootingDraws(d2) && id1 != id2
    ensures var t1 := TickStep(map[], [], true, 0.2, d1, Some(vp), id1);
            var t2 := TickStep(t1.0, t1.1, true, 0.2, d2, Some(vp), id2);
            t2.0.Keys == {id1, id2} && t2.1 == [id1, id2] &&
            t2.0[id1].keyframeIndex == 0 && t2.0[id2].keyframeIndex == 1
  {
    SpawnFromEmpty(0.2, d1, vp, id1);
    var t1 := TickStep(map[], [], true, 0.2, d1, Some(vp), id1);
    SpawnSecondAtCapTwo(t1.0, d2, vp, id1, id2);
  }

  /** Ending two stars in spawn order when they recorded indices 0 and 1:
      the first end deletes rule 0, after which index 1 names no rule, so
      the second star's rule remains. */
  lemma EndTwoInSpawnOrder(s2: map<string, Entry>, id1: string, id2: string)
    requires id1 != id2 && s2.Keys == {id1, id2}
    requires s2[id1].keyframeIndex == 0 && s2[id2].keyframeIndex == 1
    ensures var (s3, r3) := EndStep(s2, [id1, id2], id1);
            var (s4, r4) := EndStep(s3, r3, id2);
            s4 == map[] && r4 == [id2]
  {
    var (s3, r3) := EndStep(s2, [id1, id2], id1);
    assert s3.Keys == {id2} && r3 == [id2];
    var (s4, r4) := EndStep(s3, r3, id2);
    assert s4.Keys == {};
  }

  /** Two stars spawned at cap 2 and ended in spawn order: the registry ends
      empty, but the second star's keyframe rule is left in the sheet. */
  lemma EndInSpawnOrder(d1: ShootingDraws, d2: ShootingDraws, vp: Viewport, id1: string, id2: string)
    requires ValidShootingDraws(d1) && ValidShootingDraws(d2) && id1 != id2
    ensures var t1 := TickStep(map[], [], true, 0.2, d1, Some(vp), id1);
            var t2 := TickStep(t1.0, t1.1, true, 0.2, d2, Some(vp), id2);
            var t3 := EndStep(t2.0, t2.1, id1);
            var t4 := EndStep(t3.0, t3.1, id2);
            t4.0 == map[] && t4.1 == [id2]
  {
    SpawnTwoAtCapTwo(d1, d2, vp, id1, id2);
    var t1 := TickStep(map[], [], true, 0.2, d1, Some(vp), id1);
    var t2 := TickStep(t1.0, t1.1, true, 0.2, d2, Some(vp), id2);
    EndTwoInSpawnOrder(t2.0, id1, id2);
  }

  /** `ShootingStarsLayer`: the registry of live shooting stars
      (`starsRef.current`) and the shared keyframe style sheet it writes to. */
  class ShootingStarsLayer {
    /** Live shooting stars by id. */
    var stars: map<string, Entry>
    /** The rules of the shared style sheet; a rule is named by the id of the
        star whose keyframes it holds. */
    var rules: seq<string>
    /** Whether the container element is mounted (`containerRef.current`). */
    var mounted: bool

    ghost predicate Valid()
      reads this
    {
      RegistryOk(stars)
    }

    constructor (mounted: bool)
      ensures Valid()
      ensures stars == map[] && rules == [] && this.mounted == mounted
    {
      stars := map[];
      rules := [];
      this.mounted := mounted;
    }

    /** The `forEach` over the registry that collects the rounded angles of
        the live stars. */
    method ExistingAngles() returns (angles: set<int>)
      ensures angles == AngleSet(stars)
    {
      angles := {};
      var done: set<string> := {};
      var todo := stars.Keys;
      while todo != {}
        invariant todo + done == stars.Keys && todo !! done
        invariant angles == AnglesOf(stars, done)
        decreases todo
      {
        var id :| id in todo;
        angles := angles + {RoundToTen(stars[id].star.angle)};
        done := done + {id};
        todo := todo - {id};
      }
    }

    /** One wake of the spawn timer: the new registry and rules are
        `TickStep` of the old ones, and the returned delay to the next wake is
        drawn by `delayRand`. */
    method Tick(rand: real, draws: ShootingDraws, env: Option<Viewport>, id: string, delayRand: real)
      returns (delay: real)
      requires Valid() && IsRandom(rand) && ValidShootingDraws(draws) && IsRandom(delayRand)
      modifies this`stars, this`rules
      ensures Valid()
      ensures (stars, rules) == TickStep(old(stars), old(rules), mounted, rand, draws, env, id)
      ensures SHOOTING_STAR_MIN_DELAY <= delay < SHOOTING_STAR_MAX_DELAY
    {
      TickKeepsRegistryOk(stars, rules, mounted, rand, draws, env, id);
      var currentCount := |stars|;
      var maxStars := MaxStars(rand);
      delay := SpawnDelay(delayRand);
      if currentCount >= maxStars {
        return;
      }
      var existingAngles := ExistingAngles();
      var star := CreateShootingStar(existingAngles, env, draws, id);
      if star.None? || !mounted {
        return;
      }
      stars := stars[id := Entry(star.value, |rules|)];
      rules := rules + [id];
    }

    /** The `animationend` handler of star `id`: the new registry and rules
        are `EndStep` of the old ones. */
    method AnimationEnd(id: string)
      requires Valid()
      modifies this`stars, this`rules
      ensures Valid()
      ensures (stars, rules) == EndStep(old(stars), old(rules), id)
    {
      EndKeepsRegistryOk(stars, rules, id);
      if id in stars {
        rules := GuardedDelete(rules, stars[id].keyframeIndex);
      }
      stars := stars - {id};
    }
  }
}
