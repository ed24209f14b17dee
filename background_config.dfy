/** The decorative background generator of `src/config/backgroundConfig.js`:
    the star count, the grid-based star field with its exclusion zones, the
    rejection-sampled planet placement and the construction of one shooting
    star. Every `Math.random()` call is an input `r` with `IsRandom(r)`. */
module BackgroundConfig {
  import opened JsMath

  datatype Option<T> = None | Some(value: T)

  // ------------------------------------------------------------------
  // Star count
  // ------------------------------------------------------------------

  /** `STAR_COUNT = 500 + Math.floor(Math.random() * 501)`. */
  function StarCount(r: real): (n: nat)
    requires IsRandom(r)
    ensures 500 <= n <= 1000
  {
    500 + RandomIndex(r, 501)
  }

  // ------------------------------------------------------------------
  // Star field
  // ------------------------------------------------------------------

  /** A circular exclusion zone, centre and radius in percent of the viewport. */
  datatype Zone = Zone(top: real, left: real, radius: real)

  const PLANET_ZONES: seq<Zone> :=
    [Zone(10.0, 88.0, 8.0), Zone(88.0, 15.0, 9.0), Zone(72.0, 78.0, 9.0)]

  const STAR_PALETTE: seq<string> :=
    ["#271002", "#9B081C", "#E2A128", "#122E40", "#283121", "#D5D7D7"]

  /** Number of colours in a star's twinkle cycle. */
  const COLOR_CYCLE_LENGTH: nat := 5

  /** Seconds of animation delay per star index. */
  const STAR_DELAY_STEP: real := 0.18

  /** The `Math.random()` values one star consumes, in the order the source
      draws them: jitter of `top`, jitter of `left`, five palette picks,
      `duration`, `twinkleDuration`. */
  datatype StarDraws = StarDraws(top: real, left: real, colors: seq<real>, duration: real, twinkle: real)

  predicate ValidStarDraws(d: StarDraws) {
    IsRandom(d.top) && IsRandom(d.left) &&
    |d.colors| == COLOR_CYCLE_LENGTH &&
    (forall k :: 0 <= k < |d.colors| ==> IsRandom(d.colors[k])) &&
    IsRandom(d.duration) && IsRandom(d.twinkle)
  }

  predicate ValidAllStarDraws(draws: seq<StarDraws>) {
    forall i :: 0 <= i < |draws| ==> ValidStarDraws(draws[i])
  }

  /** A star record; `top` and `left` are in percent, times in seconds. */
  datatype Star = Star(id: nat, top: real, left: real, delay: real, duration: real,
                       hidden: bool, colors: seq<string>, twinkleDuration: real)

  function SqDist(dx: real, dy: real): real {
    dx * dx + dy * dy
  }

  /** The zone test `Math.sqrt(dx * dx + dy * dy) < zone.radius` stated on
      squares: for a non-negative radius it is `dx^2 + dy^2 < radius^2`, and
      for a negative radius the square root is never below it. */
  predicate InZone(z: Zone, top: real, left: real) {
    z.radius >= 0.0 && SqDist(left - z.left, top - z.top) < z.radius * z.radius
  }

  /** `planetZones.some(...)`: a left-to-right scan of the zones. */
  function OverlapsPlanet(zones: seq<Zone>, top: real, left: real): bool {
    if zones == [] then false
    else InZone(zones[0], top, left) || OverlapsPlanet(zones[1..], top, left)
  }

  /** The scan finds an overlap exactly when some zone contains the point. */
  lemma {:induction false} OverlapsPlanetIff(zones: seq<Zone>, top: real, left: real)
    ensures OverlapsPlanet(zones, top, left) <==>
            exists k :: 0 <= k < |zones| && InZone(zones[k], top, left)
  {
    if zones != [] {
      OverlapsPlanetIff(zones[1..], top, left);
      if OverlapsPlanet(zones[1..], top, left) {
        var k :| 0 <= k < |zones[1..]| && InZone(zones[1..][k], top, left);
        assert InZone(zones[k + 1], top, left);
      }
      if exists k :: 0 <= k < |zones| && InZone(zones[k], top, left) {
        var k :| 0 <= k < |zones| && InZone(zones[k], top, left);
        if k > 0 {
          assert zones[1..][k - 1] == zones[k];
        }
      }
    }
  }

  /** `STAR_PALETTE[Math.floor(Math.random() * STAR_PALETTE.length)]`. */
  function PalettePick(r: real): (c: string)
    requires IsRandom(r)
    ensures c in STAR_PALETTE
  {
    STAR_PALETTE[RandomIndex(r, |STAR_PALETTE|)]
  }

  /** The cell `(gridX, gridY)` of star `idx` on a grid of `g` columns. */
  function GridCell(idx: nat, g: nat): (nat, nat)
    requires g > 0
  {
    (idx % g, idx / g)
  }

  /** Row-major index of cell `(x, y)`: the inverse of `GridCell`. */
  function CellIndex(x: nat, y: nat, g: nat): nat {
    y * g + x
  }

  /** A coordinate inside cell number `cell` of a `g`-cell axis of length 100:
      `cell * (100 / g) + Math.random() * (100 / g)`. */
  function CellOffset(cell: nat, g: nat, r: real): real
    requires g > 0
  {
    var size := 100.0 / g as real;
    cell as real * size + r * size
  }

  /** Star number `idx` of a field laid out on a `g`-column grid. */
  function MakeStar(idx: nat, g: nat, zones: seq<Zone>, d: StarDraws): Star
    requires g > 0 && ValidStarDraws(d)
  {
    var (gridX, gridY) := GridCell(idx, g);
    var top := CellOffset(gridY, g, d.top);
    var left := CellOffset(gridX, g, d.left);
    Star(id := idx,
         top := top,
         left := left,
         delay := idx as real * STAR_DELAY_STEP,
         duration := 6.0 + d.duration * 4.0,
         hidden := OverlapsPlanet(zones, top, left),
         colors := seq(COLOR_CYCLE_LENGTH, k requires 0 <= k < COLOR_CYCLE_LENGTH => PalettePick(d.colors[k])),
         twinkleDuration := 6.0 + d.twinkle * 6.0)
  }

  /** `generateStars(starCount, planetZones)`: one star per index on a
      `ceil(sqrt n)`-square grid. */
  function GenerateStars(n: nat, zones: seq<Zone>, draws: seq<StarDraws>): (stars: seq<Star>)
    requires |draws| == n && ValidAllStarDraws(draws)
    ensures |stars| == n
  {
    var g := CeilSqrt(n);
    seq(n, i requires 0 <= i < n => MakeStar(i, g, zones, draws[i]))
  }

  /** Record `i` of the field is star number `i`, delayed by `0.18 * i` s. */
  lemma GenerateStarsIds(n: nat, zones: seq<Zone>, draws: seq<StarDraws>, i: nat)
    requires |draws| == n && ValidAllStarDraws(draws) && i < n
    ensures GenerateStars(n, zones, draws)[i].id == i
    ensures GenerateStars(n, zones, draws)[i].delay == i as real * 0.18
  {
  }

  /** On the grid of a field of `n` stars every index below `n` lands on a
      cell inside the grid, and the row-major index of that cell is the index
      itself. */
  lemma GridCellInGrid(n: nat, i: nat)
    requires i < n
    ensures CeilSqrt(n) > 0
    ensures GridCell(i, CeilSqrt(n)).0 < CeilSqrt(n)
    ensures GridCell(i, CeilSqrt(n)).1 < CeilSqrt(n)
    ensures CellIndex(GridCell(i, CeilSqrt(n)).0, GridCell(i, CeilSqrt(n)).1, CeilSqrt(n)) == i
  {
    var g := CeilSqrt(n);
    assert g > 0;
    DivBelow(i, g);
  }

  /** An index below `g * g` lies in one of the first `g` rows. */
  lemma DivBelow(i: nat, g: nat)
    requires 0 < g && i < g * g
    ensures i / g < g
  {
    var q := i / g;
    assert i == q * g + i % g;
    if q >= g {
      MulAtLeast(q, g, g);
      assert false;
    }
  }

  /** `k >= m` implies `k * g >= m * g` for natural `g`. */
  lemma MulAtLeast(k: int, m: int, g: nat)
    requires k >= m
    ensures k * g >= m * g
  {
    assert k * g - m * g == (k - m) * g;
  }

  /** Euclidean division is unique: a decomposition `i == q * g + r` with
      `0 <= r < g` is the one `/` and `%` compute. */
  lemma DivModUnique(i: int, g: nat, q: int, r: int)
    requires 0 <= r < g && i == q * g + r
    ensures i / g == q && i % g == r
  {
    var q2, r2 := i / g, i % g;
    assert i == q2 * g + r2;
    if q2 > q {
      MulAtLeast(q2, q + 1, g);
      assert false;
    } else if q2 < q {
      MulAtLeast(q, q2 + 1, g);
      assert false;
    }
  }

  /** `GridCell` inverts `CellIndex` for every cell of the grid. */
  lemma CellIndexRoundTrip(x: nat, y: nat, g: nat)
    requires x < g
    ensures GridCell(CellIndex(x, y, g), g) == (x, y)
  {
    DivModUnique(y * g + x, g, y, x);
  }

  /** Distinct stars of one field sit in distinct cells. */
  lemma GridCellsDistinct(n: nat, i: nat, j: nat)
    requires i < n && j < n && i != j
    ensures GridCell(i, CeilSqrt(n)) != GridCell(j, CeilSqrt(n))
  {
    GridCellInGrid(n, i);
    GridCellInGrid(n, j);
  }

  /** A jittered coordinate stays inside its own cell, and a cell of the grid
      lies inside [0, 100). */
  lemma CellOffsetBounds(cell: nat, g: nat, r: real)
    requires cell < g && IsRandom(r)
    ensures cell as real * (100.0 / g as real) <= CellOffset(cell, g, r)
    ensures CellOffset(cell, g, r) < (cell + 1) as real * (100.0 / g as real)
    ensures 0.0 <= CellOffset(cell, g, r) < 100.0
  {
    var size := 100.0 / g as real;
    ScaledBelow(r, size);
    assert (cell + 1) as real * size <= g as real * size;
    assert g as real * size == 100.0;
  }

  /** Star `i` is jittered inside its own grid cell, so `top` and `left`
      lie in [0, 100). */
  lemma GenerateStarsInCell(n: nat, zones: seq<Zone>, draws: seq<StarDraws>, i: nat)
    requires |draws| == n && ValidAllStarDraws(draws) && i < n
    ensures var g := CeilSqrt(n);
            var s := GenerateStars(n, zones, draws)[i];
            var cell := 100.0 / g as real;
            g > 0 &&
            (i / g) as real * cell <= s.top < (i / g + 1) as real * cell &&
            (i % g) as real * cell <= s.left < (i % g + 1) as real * cell &&
            0.0 <= s.top < 100.0 && 0.0 <= s.left < 100.0
  {
    var g := CeilSqrt(n);
    GridCellInGrid(n, i);
    CellOffsetBounds(i / g, g, draws[i].top);
    CellOffsetBounds(i % g, g, draws[i].left);
  }

  /** Star `i` is hidden exactly when it lies strictly inside some zone. */
  lemma GenerateStarsHidden(n: nat, zones: seq<Zone>, draws: seq<StarDraws>, i: nat)
    requires |draws| == n && ValidAllStarDraws(draws) && i < n
    ensures var s := GenerateStars(n, zones, draws)[i];
            s.hidden <==> exists k :: 0 <= k < |zones| && InZone(zones[k], s.top, s.left)
  {
    var s := GenerateStars(n, zones, draws)[i];
    OverlapsPlanetIff(zones, s.top, s.left);
  }

  /** Each star cycles through exactly five palette colours, and its timings
      are `duration` in [6, 10) and `twinkleDuration` in [6, 12) seconds. */
  lemma GenerateStarsLook(n: nat, zones: seq<Zone>, draws: seq<StarDraws>, i: nat)
    requires |draws| == n && ValidAllStarDraws(draws) && i < n
    ensures var s := GenerateStars(n, zones, draws)[i];
            |s.colors| == 5 &&
            (forall k :: 0 <= k < 5 ==> s.colors[k] in STAR_PALETTE) &&
            6.0 <= s.duration < 10.0 &&
            6.0 <= s.twinkleDuration < 12.0
  {
  }

  /** A field of four stars without zones uses a 2 x 2 grid: the stars sit in
      cells (0,0), (1,0), (0,1), (1,1), each in its own 50 x 50 quarter, and
      none is hidden. */
  lemma FourStarField(draws: seq<StarDraws>)
    requires |draws| == 4 && ValidAllStarDraws(draws)
    ensures CeilSqrt(4) == 2
    ensures GridCell(0, 2) == (0, 0) && GridCell(1, 2) == (1, 0)
    ensures GridCell(2, 2) == (0, 1) && GridCell(3, 2) == (1, 1)
    ensures forall i :: 0 <= i < 4 ==>
              var s := GenerateStars(4, [], draws)[i];
              !s.hidden &&
              (i % 2) as real * 50.0 <= s.left < (i % 2 + 1) as real * 50.0 &&
              (i / 2) as real * 50.0 <= s.top < (i / 2 + 1) as real * 50.0
  {
    CeilSqrtUnique(4, 2);
    forall i | 0 <= i < 4
      ensures var s := GenerateStars(4, [], draws)[i];
              !s.hidden &&
              (i % 2) as real * 50.0 <= s.left < (i % 2 + 1) as real * 50.0 &&
              (i / 2) as real * 50.0 <= s.top < (i / 2 + 1) as real * 50.0
    {
      GenerateStarsInCell(4, [], draws, i);
      GenerateStarsHidden(4, [], draws, i);
    }
  }

  // ------------------------------------------------------------------
  // Planets
  // ------------------------------------------------------------------

  datatype PlanetType = PlanetType(id: string, className: string, baseSize: int)

  const PLANET_TYPES: seq<PlanetType> := [
    PlanetType("azure", "planet planet--azure", 140),
    PlanetType("obsidian", "planet planet--obsidian", 110),
    PlanetType("ember", "planet planet--ember planet--halo", 100)
  ]

  /** Minimum distance between planet centres, in percent. */
  const MIN_DISTANCE: real := 15.0

  /** Sampling attempts per planet before the last sample is accepted. */
  const MAX_ATTEMPTS: nat := 100

  /** `Math.random()` values `generateStaticPlanets` may consume: per planet
      type one for the size and two per attempt. */
  const PLANET_DRAWS: nat := 3 * (1 + 2 * MAX_ATTEMPTS)

  /** A placed planet. `top` and `left` are the numbers the source formats as
      percentages, `size` the diameter in pixels. */
  datatype Planet = Planet(kind: PlanetType, top: real, left: real, size: int)

  predicate AllRandom(rs: seq<real>) {
    forall k :: 0 <= k < |rs| ==> IsRandom(rs[k])
  }

  /** `Math.round(baseSize * (0.8 + Math.random() * 0.4))`. */
  function PlanetSize(baseSize: int, r: real): (size: int)
    requires IsRandom(r)
  {
    Round(baseSize as real * (0.8 + r * 0.4))
  }

  /** The size of a planet of a non-negative base size is its base size
      scaled by a factor in [0.8, 1.2), rounded. */
  lemma PlanetSizeBounds(baseSize: int, r: real)
    requires IsRandom(r) && baseSize >= 0
    ensures Round(baseSize as real * 0.8) <= PlanetSize(baseSize, r) <= Round(baseSize as real * 1.2)
  {
    var b := baseSize as real;
    MultiplierBounds(b, r);
    RoundMono(b * 0.8, b * (0.8 + r * 0.4));
    RoundMono(b * (0.8 + r * 0.4), b * 1.2);
  }

  /** `b * 0.8 <= b * (0.8 + r * 0.4) <= b * 1.2` for a non-negative `b`. */
  lemma MultiplierBounds(b: real, r: real)
    requires IsRandom(r) && b >= 0.0
    ensures b * 0.8 <= b * (0.8 + r * 0.4) <= b * 1.2
  {
    var br := b * r;
    UnitScale(r, b);
    assert b * (0.8 + r * 0.4) == b * 0.8 + br * 0.4;
  }

  /** `0 <= b * r <= b` for a random `r` and a non-negative `b`. */
  lemma UnitScale(r: real, b: real)
    requires IsRandom(r) && b >= 0.0
    ensures 0.0 <= b * r <= b
  {
    assert b - b * r == b * (1.0 - r);
  }

  lemma RoundMono(x: real, y: real)
    requires x <= y
    ensures Round(x) <= Round(y)
  {
  }

  /** The planet sizes the three planet types can get: azure in [112, 168],
      obsidian in [88, 132], ember in [80, 120] pixels. */
  lemma PlanetTypeSizes(r: real)
    requires IsRandom(r)
    ensures 112 <= PlanetSize(PLANET_TYPES[0].baseSize, r) <= 168
    ensures 88 <= PlanetSize(PLANET_TYPES[1].baseSize, r) <= 132
    ensures 80 <= PlanetSize(PLANET_TYPES[2].baseSize, r) <= 120
  {
    PlanetSizeBounds(140, r);
    PlanetSizeBounds(110, r);
    PlanetSizeBounds(100, r);
    assert Round(140.0 * 0.8) == 112 && Round(140.0 * 1.2) == 168;
    assert Round(110.0 * 0.8) == 88 && Round(110.0 * 1.2) == 132;
    assert Round(100.0 * 0.8) == 80 && Round(100.0 * 1.2) == 120;
  }

  /** `5 + Math.random() * 90`: a coordinate away from the viewport edges. */
  function SamplePosition(r: real): (p: real)
    requires IsRandom(r)
    ensures 5.0 <= p < 95.0
  {
    5.0 + r * 90.0
  }

  /** Attempt number `a` of a placement that starts reading draws at `from`:
      the pair `(top, left)` it samples. */
  function Attempt(rs: seq<real>, from: nat, a: nat): (p: (real, real))
    requires from + 2 * a + 1 < |rs| && AllRandom(rs)
  {
    (SamplePosition(rs[from + 2 * a]), SamplePosition(rs[from + 2 * a + 1]))
  }

  /** `planets.every(...)`: the point is at least `MIN_DISTANCE` from the
      centre of every planet already placed (stated on squared distances). */
  predicate FarFrom(placed: seq<Planet>, top: real, left: real) {
    forall j :: 0 <= j < |placed| ==>
      SqDist(left - placed[j].left, top - placed[j].top) >= MIN_DISTANCE * MIN_DISTANCE
  }

  /** Every sample before the last of `tries`, read from `rs` at `from`, lies
      too close to some planet of `placed`. */
  predicate EarlierRejected(rs: seq<real>, placed: seq<Planet>, from: nat, tries: nat)
    requires AllRandom(rs) && tries <= MAX_ATTEMPTS && from + 2 * MAX_ATTEMPTS <= |rs|
  {
    forall a :: 0 <= a < tries - 1 ==>
      !FarFrom(placed, Attempt(rs, from, a).0, Attempt(rs, from, a).1)
  }

  /** The rejection-sampling loop for one planet: sample until a point is far
      from every placed planet or `MAX_ATTEMPTS` samples were drawn, and keep
      the last sample either way. */
  method PlacePlanet(placed: seq<Planet>, rs: seq<real>, from: nat)
    returns (top: real, left: real, attempts: nat, valid: bool)
    requires from + 2 * MAX_ATTEMPTS <= |rs| && AllRandom(rs)
    ensures 1 <= attempts <= MAX_ATTEMPTS
    ensures (top, left) == Attempt(rs, from, attempts - 1)
    ensures 5.0 <= top < 95.0 && 5.0 <= left < 95.0
    ensures valid == FarFrom(placed, top, left)
    ensures !valid ==> attempts == MAX_ATTEMPTS
    ensures EarlierRejected(rs, placed, from, attempts)
    ensures placed == [] ==> valid && attempts == 1
  {
    top, left := 0.0, 0.0;
    attempts, valid := 0, false;
    while !valid && attempts < MAX_ATTEMPTS
      invariant 0 <= attempts <= MAX_ATTEMPTS
      invariant attempts == 0 ==> !valid
      invariant placed == [] ==> attempts <= 1
      invariant attempts > 0 ==> (top, left) == Attempt(rs, from, attempts - 1)
      invariant attempts > 0 ==> valid == FarFrom(placed, top, left)
      invariant EarlierRejected(rs, placed, from, attempts)
      decreases MAX_ATTEMPTS - attempts
    {
      top := SamplePosition(rs[from + 2 * attempts]);
      left := SamplePosition(rs[from + 2 * attempts + 1]);
      valid := FarFrom(placed, top, left);
      attempts := attempts + 1;
    }
  }

  /** What `generateStaticPlanets` does for planet `p`, the `k`-th, placed
      after the planets `before` by reading draws from `rs` at `cursor`: its
      size is the first draw, its position the last of `tries` samples drawn
      after it, the last sample is accepted (`valid`) iff it is far from every
      planet before, and every earlier sample was rejected. */
  predicate PlanetOk(rs: seq<real>, before: seq<Planet>, p: Planet, k: nat,
                     cursor: nat, tries: nat, valid: bool) {
    AllRandom(rs) && cursor + 1 + 2 * MAX_ATTEMPTS <= |rs| &&
    k < |PLANET_TYPES| && p.kind == PLANET_TYPES[k] &&
    p.size == PlanetSize(p.kind.baseSize, rs[cursor]) &&
    1 <= tries <= MAX_ATTEMPTS && (!valid ==> tries == MAX_ATTEMPTS) &&
    (p.top, p.left) == Attempt(rs, cursor + 1, tries - 1) &&
    valid == FarFrom(before, p.top, p.left) &&
    EarlierRejected(rs, before, cursor + 1, tries)
  }

  /** Every planet of `planets` satisfies `PlanetOk` against the planets
      before it, and each placement starts reading draws where the previous
      one stopped: one size draw and two draws per sample. */
  ghost predicate AllPlanetsOk(rs: seq<real>, planets: seq<Planet>, cursors: seq<nat>,
                               attempts: seq<nat>, accepted: seq<bool>) {
    |cursors| == |planets| && |attempts| == |planets| && |accepted| == |planets| &&
    (|planets| > 0 ==> cursors[0] == 0) &&
    (forall j :: 0 <= j < |planets| - 1 ==> cursors[j + 1] == cursors[j] + 1 + 2 * attempts[j]) &&
    forall j :: 0 <= j < |planets| ==>
      PlanetOk(rs, planets[..j], planets[j], j, cursors[j], attempts[j], accepted[j])
  }

  /** Appending a planet placed after all earlier ones, from the draws where
      the last one stopped, keeps `AllPlanetsOk`. */
  lemma AllPlanetsOkAppend(rs: seq<real>, planets: seq<Planet>, cursors: seq<nat>,
                           attempts: seq<nat>, accepted: seq<bool>,
                           p: Planet, cursor: nat, tries: nat, valid: bool)
    requires AllPlanetsOk(rs, planets, cursors, attempts, accepted)
    requires PlanetOk(rs, planets, p, |planets|, cursor, tries, valid)
    requires cursor == if planets == [] then 0
                       else cursors[|planets| - 1] + 1 + 2 * attempts[|planets| - 1]
    ensures AllPlanetsOk(rs, planets + [p], cursors + [cursor], attempts + [tries], accepted + [valid])
  {
    var ps := planets + [p];
    forall j | 0 <= j < |ps|
      ensures PlanetOk(rs, ps[..j], ps[j], j, (cursors + [cursor])[j],
                       (attempts + [tries])[j], (accepted + [valid])[j])
    {
      if j < |planets| {
        assert ps[..j] == planets[..j];
      } else {
        assert ps[..j] == planets;
      }
    }
  }

  /** `generateStaticPlanets()`: one planet per type, in type order, each
      placed by `PlacePlanet` against the planets before it. The ghost
      results record, per planet, where its draws start, how many samples it
      took and whether the last one was accepted; the source keeps the last
      two in locals and reads the draws from `Math.random()` in this order. */
  method GenerateStaticPlanets(rs: seq<real>)
    returns (planets: seq<Planet>, ghost cursors: seq<nat>,
             ghost attempts: seq<nat>, ghost accepted: seq<bool>)
    requires PLANET_DRAWS <= |rs| && AllRandom(rs)
    ensures |planets| == |PLANET_TYPES| && |cursors| == |planets| &&
            |attempts| == |planets| && |accepted| == |planets|
    ensures cursors[0] == 0
    ensures forall k :: 0 <= k < |planets| - 1 ==> cursors[k + 1] == cursors[k] + 1 + 2 * attempts[k]
    ensures forall k :: 0 <= k < |planets| ==>
              cursors[k] + 1 + 2 * MAX_ATTEMPTS <= |rs| &&
              planets[k].kind == PLANET_TYPES[k] &&
              planets[k].size == PlanetSize(PLANET_TYPES[k].baseSize, rs[cursors[k]])
    ensures forall k :: 0 <= k < |planets| ==>
              1 <= attempts[k] <= MAX_ATTEMPTS && (!accepted[k] ==> attempts[k] == MAX_ATTEMPTS) &&
              (planets[k].top, planets[k].left) == Attempt(rs, cursors[k] + 1, attempts[k] - 1)
    ensures forall k :: 0 <= k < |planets| ==>
              accepted[k] == FarFrom(planets[..k], planets[k].top, planets[k].left)
    ensures forall k :: 0 <= k < |planets| ==>
              EarlierRejected(rs, planets[..k], cursors[k] + 1, attempts[k])
    ensures forall k :: 0 <= k < |planets| ==>
              5.0 <= planets[k].top < 95.0 && 5.0 <= planets[k].left < 95.0
    ensures forall k :: 0 <= k < |planets| ==>
              Round(PLANET_TYPES[k].baseSize as real * 0.8) <= planets[k].size <= Round(PLANET_TYPES[k].baseSize as real * 1.2)
    ensures accepted[0] && attempts[0] == 1
  {
    planets, cursors, attempts, accepted := [], [], [], [];
    var cursor: nat := 0;
    var k := 0;
    while k < |PLANET_TYPES|
      invariant 0 <= k <= |PLANET_TYPES| && |planets| == k
      invariant cursor <= k * (1 + 2 * MAX_ATTEMPTS)
      invariant AllPlanetsOk(rs, planets, cursors, attempts, accepted)
      invariant cursor == if k == 0 then 0 else cursors[k - 1] + 1 + 2 * attempts[k - 1]
      invariant k > 0 ==> accepted[0] && attempts[0] == 1
    {
      var kind := PLANET_TYPES[k];
      var size := PlanetSize(kind.baseSize, rs[cursor]);
      var top, left, tries, valid := PlacePlanet(planets, rs, cursor + 1);
      var p := Planet(kind, top, left, size);
      AllPlanetsOkAppend(rs, planets, cursors, attempts, accepted, p, cursor, tries, valid);
      planets, cursors, attempts, accepted :=
        planets + [p], cursors + [cursor], attempts + [tries], accepted + [valid];
      cursor := cursor + 1 + 2 * tries;
      k := k + 1;
    }
    AllPlanetsOkSpelled(rs, planets, cursors, attempts, accepted);
  }

  /** `AllPlanetsOk` spelled out per planet, with the position and size
      ranges that follow from the draws. */
  lemma AllPlanetsOkSpelled(rs: seq<real>, planets: seq<Planet>, cursors: seq<nat>,
                            attempts: seq<nat>, accepted: seq<bool>)
    requires AllPlanetsOk(rs, planets, cursors, attempts, accepted)
    ensures |cursors| == |planets| && |attempts| == |planets| && |accepted| == |planets|
    ensures forall k :: 0 <= k < |planets| ==>
              cursors[k] + 1 + 2 * MAX_ATTEMPTS <= |rs| && AllRandom(rs) && k < |PLANET_TYPES| &&
              planets[k].kind == PLANET_TYPES[k] &&
              planets[k].size == PlanetSize(PLANET_TYPES[k].baseSize, rs[cursors[k]])
    ensures forall k :: 0 <= k < |planets| ==>
              1 <= attempts[k] <= MAX_ATTEMPTS && (!accepted[k] ==> attempts[k] == MAX_ATTEMPTS) &&
              (planets[k].top, planets[k].left) == Attempt(rs, cursors[k] + 1, attempts[k] - 1)
    ensures forall k :: 0 <= k < |planets| ==>
              accepted[k] == FarFrom(planets[..k], planets[k].top, planets[k].left)
    ensures forall k :: 0 <= k < |planets| ==>
              EarlierRejected(rs, planets[..k], cursors[k] + 1, attempts[k])
    ensures forall k :: 0 <= k < |planets| ==>
              5.0 <= planets[k].top < 95.0 && 5.0 <= planets[k].left < 95.0
    ensures forall k :: 0 <= k < |planets| ==>
              Round(planets[k].kind.baseSize as real * 0.8) <= planets[k].size <= Round(planets[k].kind.baseSize as real * 1.2)
  {
    forall k | 0 <= k < |planets|
      ensures Round(planets[k].kind.baseSize as real * 0.8) <= planets[k].size <= Round(planets[k].kind.baseSize as real * 1.2)
    {
      assert PlanetOk(rs, planets[..k], planets[k], k, cursors[k], attempts[k], accepted[k]);
      PlanetSizeBounds(planets[k].kind.baseSize, rs[cursors[k]]);
    }
  }

  /** When every planet was accepted the whole set keeps the minimum
      separation: any two distinct planets are at least `MIN_DISTANCE` apart. */
  lemma AcceptedPlanetsSeparated(planets: seq<Planet>, accepted: seq<bool>)
    requires |accepted| == |planets|
    requires forall k :: 0 <= k < |planets| && accepted[k] ==>
               FarFrom(planets[..k], planets[k].top, planets[k].left)
    requires forall k :: 0 <= k < |accepted| ==> accepted[k]
    ensures forall i, j :: 0 <= i < |planets| && 0 <= j < |planets| && i != j ==>
              SqDist(planets[i].left - planets[j].left, planets[i].top - planets[j].top) >= MIN_DISTANCE * MIN_DISTANCE
  {
    forall i, j | 0 <= i < |planets| && 0 <= j < |planets| && i != j
      ensures SqDist(planets[i].left - planets[j].left, planets[i].top - planets[j].top) >= MIN_DISTANCE * MIN_DISTANCE
    {
      var lo, hi := if i < j then i else j, if i < j then j else i;
      assert FarFrom(planets[..hi], planets[hi].top, planets[hi].left);
      assert planets[..hi][lo] == planets[lo];
      SqDistSymmetric(planets[i].left - planets[j].left, planets[i].top - planets[j].top);
    }
  }

  lemma SqDistSymmetric(dx: real, dy: real)
    ensures SqDist(dx, dy) == SqDist(-dx, -dy)
  {
  }

  // ------------------------------------------------------------------
  // Shooting stars
  // ------------------------------------------------------------------

  const MAX_SHOOTING_STARS: nat := 1
  const MAX_SHOOTING_STARS_TWO: nat := 2
  const MAX_SHOOTING_STARS_THREE: nat := 3
  /** Speeds in pixels per frame at 60 frames per second. */
  const SHOOTING_STAR_MIN_SPEED: real := 0.8
  const SHOOTING_STAR_MAX_SPEED: real := 1.6
  /** Spawn delays in milliseconds. */
  const SHOOTING_STAR_MIN_DELAY: real := 3000.0
  const SHOOTING_STAR_MAX_DELAY: real := 8000.0
  const SHOOTING_STAR_TWO_CHANCE: real := 0.25
  const SHOOTING_STAR_THREE_CHANCE: real := 0.10

  /** The twelve base travel angles, in degrees, three per quadrant. */
  const POSSIBLE_ANGLES: seq<int> := [30, 45, 60, 120, 135, 150, 210, 225, 240, 300, 315, 330]

  /** Angles closer than this to a live star's angle are not offered. */
  const MIN_ANGLE_GAP: int := 20
  /** A difference above this counts as close across the 0/360 wrap. */
  const WRAP_GAP: int := 340
  /** Pixels outside the viewport at which a shooting star starts. */
  const SPAWN_MARGIN: real := 20.0

  datatype ShootingColor = ShootingColor(head: string, tail: string, rgb: string)

  const SHOOTING_STAR_COLORS: seq<ShootingColor> := [
    ShootingColor("rgba(213, 215, 215, 0.9)", "rgba(213, 215, 215, 0.45)", "213, 215, 215"),
    ShootingColor("rgba(100, 180, 255, 0.9)", "rgba(100, 180, 255, 0.45)", "100, 180, 255")
  ]

  /** `window.innerWidth` and `window.innerHeight`, in pixels. */
  datatype Viewport = Viewport(width: nat, height: nat)

  /** The `Math.random()` values one shooting star consumes, in the order the
      source draws them: base-angle pick, jitter, spawn side, position along
      the edge, colour, speed, tail length. */
  datatype ShootingDraws = ShootingDraws(pick: real, jitter: real, side: real, along: real,
                                         color: real, speed: real, tail: real)

  predicate ValidShootingDraws(d: ShootingDraws) {
    IsRandom(d.pick) && IsRandom(d.jitter) && IsRandom(d.side) && IsRandom(d.along) &&
    IsRandom(d.color) && IsRandom(d.speed) && IsRandom(d.tail)
  }

  /** A shooting star. Start point in pixels, angle in degrees, tail length in
      pixels; `speed` (pixels per frame) is the value the source turns into the
      animation duration. */
  datatype ShootingStar = ShootingStar(id: string, startX: real, startY: real, angle: real,
                                       speed: real, color: ShootingColor, tailLength: real)

  /** The closeness test of the angle filter: `diff < 20 || diff > 340`. */
  predicate TooClose(angle: int, existing: int) {
    var diff := Abs(angle - existing);
    diff < MIN_ANGLE_GAP || diff > WRAP_GAP
  }

  /** `angle` is not too close to any live star's (rounded) angle. */
  predicate Available(angle: int, existing: set<int>) {
    forall e :: e in existing ==> !TooClose(angle, e)
  }

  /** Some base angle is available. */
  predicate AnyAvailable(existing: set<int>) {
    exists a :: a in POSSIBLE_ANGLES && Available(a, existing)
  }

  /** `possibleAngles.filter(...)`, keeping the order of the list. */
  function FilterAvailable(angles: seq<int>, existing: set<int>): seq<int> {
    if angles == [] then []
    else (if Available(angles[0], existing) then [angles[0]] else []) +
         FilterAvailable(angles[1..], existing)
  }

  /** The filter keeps exactly the available angles of its list. */
  lemma {:induction false} FilterAvailableMembers(angles: seq<int>, existing: set<int>)
    ensures forall a :: a in FilterAvailable(angles, existing) <==> a in angles && Available(a, existing)
  {
    if angles != [] {
      FilterAvailableMembers(angles[1..], existing);
      assert angles == [angles[0]] + angles[1..];
    }
  }

  /** `availableAngles.length > 0 ? availableAngles : possibleAngles`. */
  function AngleOptions(existing: set<int>): (opts: seq<int>)
    ensures |opts| > 0
  {
    var available := FilterAvailable(POSSIBLE_ANGLES, existing);
    if |available| > 0 then available else POSSIBLE_ANGLES
  }

  /** The options are exactly the available base angles, or all twelve when
      none is available. */
  lemma AngleOptionsExact(existing: set<int>)
    ensures forall a :: a in AngleOptions(existing) <==>
              a in POSSIBLE_ANGLES && (AnyAvailable(existing) ==> Available(a, existing))
  {
    FilterAvailableMembers(POSSIBLE_ANGLES, existing);
    var f := FilterAvailable(POSSIBLE_ANGLES, existing);
    if |f| > 0 {
      assert f[0] in f;
      assert f[0] in POSSIBLE_ANGLES && Available(f[0], existing);
    }
  }

  /** The base angle picked uniformly from the options. */
  function BaseAngle(existing: set<int>, r: real): int
    requires IsRandom(r)
  {
    var opts := AngleOptions(existing);
    opts[RandomIndex(r, |opts|)]
  }

  /** The base angle is always one of the twelve; when any of them is at
      least 20 degrees (with wrap-around) from every live angle, it is one of
      those. */
  lemma BaseAngleChoice(existing: set<int>, r: real)
    requires IsRandom(r)
    ensures BaseAngle(existing, r) in POSSIBLE_ANGLES
    ensures AnyAvailable(existing) ==> Available(BaseAngle(existing, r), existing)
  {
    FilterAvailableMembers(POSSIBLE_ANGLES, existing);
    var opts := AngleOptions(existing);
    assert opts[RandomIndex(r, |opts|)] in opts;
    if AnyAvailable(existing) {
      var a :| a in POSSIBLE_ANGLES && Available(a, existing);
      assert a in FilterAvailable(POSSIBLE_ANGLES, existing);
    }
  }

  /** `angle + (Math.random() - 0.5) * 10`: the base angle moved by an offset
      in [-5, 5) degrees. */
  function Jitter(base: int, r: real): (angle: real)
    requires IsRandom(r)
    ensures base as real - 5.0 <= angle < base as real + 5.0
  {
    base as real + (r - 0.5) * 10.0
  }

  /** The four branches of the spawn-side choice. */
  datatype Quadrant = TopLeft | TopRight | BottomRight | BottomLeft

  function QuadrantOf(angle: real): Quadrant {
    if 0.0 <= angle < 90.0 then TopLeft
    else if 90.0 <= angle < 180.0 then TopRight
    else if 180.0 <= angle < 270.0 then BottomRight
    else BottomLeft
  }

  /** Jitter never moves a base angle into another branch. */
  lemma JitterKeepsQuadrant(base: int, r: real)
    requires base in POSSIBLE_ANGLES && IsRandom(r)
    ensures QuadrantOf(Jitter(base, r)) == QuadrantOf(base as real)
  {
  }

  datatype Edge = TopEdge | BottomEdge | LeftEdge | RightEdge

  /** The edges a star of each branch enters from: top-left from the top or
      the left, top-right from the top or the right, and so on. */
  function EntryEdges(q: Quadrant): set<Edge> {
    match q
    case TopLeft => {TopEdge, LeftEdge}
    case TopRight => {TopEdge, RightEdge}
    case BottomRight => {BottomEdge, RightEdge}
    case BottomLeft => {BottomEdge, LeftEdge}
  }

  /** `x` is a position along a viewport side of `extent` pixels. */
  predicate InSpan(x: real, extent: nat) {
    0.0 <= x && (x < extent as real || extent == 0)
  }

  /** `(x, y)` lies `SPAWN_MARGIN` pixels outside edge `e` of the viewport. */
  predicate OnEdge(e: Edge, x: real, y: real, vp: Viewport) {
    match e
    case TopEdge => y == -SPAWN_MARGIN && InSpan(x, vp.width)
    case BottomEdge => y == vp.height as real + SPAWN_MARGIN && InSpan(x, vp.width)
    case LeftEdge => x == -SPAWN_MARGIN && InSpan(y, vp.height)
    case RightEdge => x == vp.width as real + SPAWN_MARGIN && InSpan(y, vp.height)
  }

  /** The spawn-side choice: in each branch a draw above 0.5 picks the
      top or bottom edge, otherwise the left or right edge, and a second draw
      places the point along it. */
  function StartPoint(angle: real, vp: Viewport, side: real, along: real): (real, real)
    requires IsRandom(side) && IsRandom(along)
  {
    var w, h := vp.width as real, vp.height as real;
    if 0.0 <= angle < 90.0 then
      if side > 0.5 then (along * w, -SPAWN_MARGIN) else (-SPAWN_MARGIN, along * h)
    else if 90.0 <= angle < 180.0 then
      if side > 0.5 then (along * w, -SPAWN_MARGIN) else (w + SPAWN_MARGIN, along * h)
    else if 180.0 <= angle < 270.0 then
      if side > 0.5 then (along * w, h + SPAWN_MARGIN) else (w + SPAWN_MARGIN, along * h)
    else
      if side > 0.5 then (along * w, h + SPAWN_MARGIN) else (-SPAWN_MARGIN, along * h)
  }

  /** The start point lies 20 px outside an entry edge of the angle's
      branch; it is on the top or bottom edge exactly when the side draw is
      above 0.5. */
  lemma StartPointOnEntryEdge(angle: real, vp: Viewport, side: real, along: real)
    requires IsRandom(side) && IsRandom(along)
    ensures var p := StartPoint(angle, vp, side, along);
            exists e :: e in EntryEdges(QuadrantOf(angle)) && OnEdge(e, p.0, p.1, vp) &&
                        ((e == TopEdge || e == BottomEdge) <==> side > 0.5)
  {
    var p := StartPoint(angle, vp, side, along);
    SpanOf(along, vp.width);
    SpanOf(along, vp.height);
    var q := QuadrantOf(angle);
    var e: Edge :=
      if side > 0.5 then (if q == TopLeft || q == TopRight then TopEdge else BottomEdge)
      else (if q == TopLeft || q == BottomLeft then LeftEdge else RightEdge);
    assert e in EntryEdges(q) && OnEdge(e, p.0, p.1, vp);
  }

  /** `Math.random() * extent` is a position along a side of that extent. */
  lemma SpanOf(r: real, extent: nat)
    requires IsRandom(r)
    ensures InSpan(r * extent as real, extent)
  {
    if extent > 0 {
      ScaledBelow(r, extent as real);
    }
  }

  /** `createShootingStar(existingAngles)`, with the viewport as `env`
      (`None` when there is no window) and the id as a parameter. The end
      point and the duration, which need trigonometry, are not part of it. */
  function CreateShootingStar(existing: set<int>, env: Option<Viewport>, d: ShootingDraws, id: string)
    : (s: Option<ShootingStar>)
    requires ValidShootingDraws(d)
    ensures s.None? <==> env.None?
    ensures s.Some? ==>
              s.value.id == id &&
              s.value.color in SHOOTING_STAR_COLORS &&
              30.0 <= s.value.tailLength < 50.0 &&
              SHOOTING_STAR_MIN_SPEED <= s.value.speed < SHOOTING_STAR_MAX_SPEED
  {
    match env
    case None => None
    case Some(vp) =>
      var angle := Jitter(BaseAngle(existing, d.pick), d.jitter);
      var start := StartPoint(angle, vp, d.side, d.along);
      Some(ShootingStar(
        id := id,
        startX := start.0,
        startY := start.1,
        angle := angle,
        speed := SHOOTING_STAR_MIN_SPEED + d.speed * (SHOOTING_STAR_MAX_SPEED - SHOOTING_STAR_MIN_SPEED),
        color := SHOOTING_STAR_COLORS[RandomIndex(d.color, |SHOOTING_STAR_COLORS|)],
        tailLength := 30.0 + d.tail * 20.0))
  }

  /** The trajectory of a created star: its angle is within [-5, 5) degrees
      of a base angle that is available whenever any is, stays in that base
      angle's branch, and the star starts 20 px outside an entry edge of the
      branch. */
  lemma CreateShootingStarTrajectory(existing: set<int>, vp: Viewport, d: ShootingDraws, id: string)
    requires ValidShootingDraws(d)
    ensures var s := CreateShootingStar(existing, Some(vp), d, id).value;
            (exists b :: b in POSSIBLE_ANGLES &&
                         (AnyAvailable(existing) ==> Available(b, existing)) &&
                         b as real - 5.0 <= s.angle < b as real + 5.0 &&
                         QuadrantOf(s.angle) == QuadrantOf(b as real)) &&
            (exists e :: e in EntryEdges(QuadrantOf(s.angle)) && OnEdge(e, s.startX, s.startY, vp))
  {
    var s := CreateShootingStar(existing, Some(vp), d, id).value;
    var b := BaseAngle(existing, d.pick);
    BaseAngleChoice(existing, d.pick);
    JitterKeepsQuadrant(b, d.jitter);
    StartPointOnEntryEdge(s.angle, vp, d.side, d.along);
  }
}
