# Decorative background generator: a Dafny model

This project models the part of the portfolio site that has behaviour worth
stating: the generator behind its animated background. The rest of the site is
static page content.

- **Star count.** `STAR_COUNT` is drawn once, between 500 and 1000.
- **Star field.** `generateStars` places n stars on a grid of
  `ceil(sqrt n)` × `ceil(sqrt n)` cells. Each star gets random jitter inside
  its own cell, five random palette colours and random timings. A star is
  marked `hidden` when it lies inside one of the circular planet exclusion
  zones.
- **Planets.** `generateStaticPlanets` places the three planet types by
  rejection sampling. It tries up to 100 positions per planet, each
  inside [5, 95) percent. It keeps the first position at least 15 percent away
  from every planet placed before. When all 100 fail, it keeps the last
  sample.
- **One shooting star.** `createShootingStar` picks a base angle from twelve.
  It skips any angle within 20 degrees (with wrap-around) of a live star's
  rounded angle, and falls back to all twelve when none is left. It then adds
  ±5 degrees of jitter and starts the star 20 px outside a viewport edge that
  matches the angle's quadrant.
- **Spawner.** `ShootingStarsLayer` keeps a registry (a `Map`) of live
  shooting stars. On each timer tick it:
  - draws a cap from {1, 2, 3};
  - skips the tick when the registry has reached the cap;
  - otherwise creates a star, appends its keyframe rule to a shared style
    sheet, and registers the star.

  `animationend` deletes the star's recorded keyframe rule, if that index
  still names a rule, and removes the star from the registry.

Files and modules:

- `js_math.dfy`, module `JsMath`. The JavaScript `Math` operations used:
  - `Math.random()` is an input `r` with `IsRandom(r)`, that is 0 ≤ r < 1;
  - `Math.floor` and `Math.round` (halves rounded up);
  - `Math.ceil(Math.sqrt(n))`, stated as the least `g` with `g * g >= n`.
- `background_config.dfy`, module `BackgroundConfig`. Models
  `src/config/backgroundConfig.js`:
  - `GenerateStars` and `CreateShootingStar` are pure functions, as in the
    source;
  - `GenerateStaticPlanets` is a method with the source's two loops.
- `orbit_backdrop.dfy`, module `OrbitBackdrop`. Models the tick logic of
  `src/components/OrbitBackdrop.jsx` as the class `ShootingStarsLayer`, with:
  - a `map` field for the registry;
  - a `seq` field for the style sheet's rules;
  - the methods `Tick`, `AnimationEnd` and `ExistingAngles`.

  `Tick` and `AnimationEnd` are proved against the pure step functions
  `TickStep` and `EndStep`. The properties of a tick, such as the cap, the
  skip rules and the single new entry, are lemmas about those functions.

Positions, angles and times are Dafny `real`s. Every test the source makes on
`Math.sqrt` of a squared distance is stated on the squares instead. The
viewport is a parameter. Random values are passed in the order the source
draws them:

- `StarDraws`, one record per star;
- one flat sequence for the planets, read through a cursor;
- `ShootingDraws`, one record per shooting star.

The keyframe indices the registry records are never adjusted when an earlier
rule is deleted. So a recorded index can name another star's rule, or no rule
at all. The model reproduces this as written:

- `EndTwoInSpawnOrder` shows a case where the second star's rule is never
  deleted;
- `EndInSpawnOrder` shows the same case from two real spawning ticks.

This is an observation about the code. Nothing in the model claims that a
star's own rule is the one deleted.

Two facts about the code that are easy to assume otherwise:

- Star positions lie in [0, 100): a cell's offset is below the cell's width.
- `animationend` is the only removal trigger for a shooting star. The code
  has no off-screen check, so the model has only `AnimationEnd`.

## Model

| member | source | states |
|---|---|---|
| `JsMath.CeilSqrt` | src/config/backgroundConfig.js:36 | the grid size is the least g with g*g >= n, i.e. ceil(sqrt n) |
| `JsMath.CeilSqrtUnique` | src/config/backgroundConfig.js:36 | any g with (g-1)^2 < n <= g^2 is the grid size, so the characterisation is exact |
| `JsMath.RandomIndex` | src/config/backgroundConfig.js:166 | `Math.floor(Math.random() * len)` is a valid index below len |
| `JsMath.Round` | src/config/backgroundConfig.js:90 | `Math.round(x)` is the integer n with n - 0.5 <= x < n + 0.5 (halves up) |
| `BackgroundConfig.StarCount` | src/config/backgroundConfig.js:12 | the star count lies in [500, 1000] |
| `BackgroundConfig.GenerateStars` | src/config/backgroundConfig.js:32-70 | exactly n star records are produced |
| `BackgroundConfig.GenerateStarsIds` | src/config/backgroundConfig.js:60-64 | record i has id i and delay i * 0.18 |
| `BackgroundConfig.GridCellInGrid` | src/config/backgroundConfig.js:36-38 | for i < n the cell (i mod g, i div g) lies inside the g x g grid, and its row-major index is i |
| `BackgroundConfig.CellIndexRoundTrip` | src/config/backgroundConfig.js:37-38 | the cell of index y*g + x is (x, y) for x < g: cells and indices are in bijection |
| `BackgroundConfig.GridCellsDistinct` | src/config/backgroundConfig.js:36-38 | distinct star indices get distinct cells |
| `BackgroundConfig.GenerateStarsInCell` | src/config/backgroundConfig.js:39-45 | top lies in [gridY*100/g, (gridY+1)*100/g), left likewise with gridX, so both lie in [0, 100) |
| `BackgroundConfig.OverlapsPlanetIff` | src/config/backgroundConfig.js:48-52 | the zone scan reports an overlap exactly when some zone strictly contains the point |
| `BackgroundConfig.GenerateStarsHidden` | src/config/backgroundConfig.js:48-66 | a star is hidden iff some zone has squared distance to the star below its squared (non-negative) radius |
| `BackgroundConfig.PalettePick` | src/config/backgroundConfig.js:55 | a palette pick is a colour of `STAR_PALETTE` |
| `BackgroundConfig.GenerateStarsLook` | src/config/backgroundConfig.js:55-68 | each star has exactly 5 colours, all from the palette, duration in [6, 10) and twinkle duration in [6, 12) |
| `BackgroundConfig.FourStarField` | src/config/backgroundConfig.js:32-66 | four stars without zones use a 2 x 2 grid, sit in cells (0,0), (1,0), (0,1), (1,1), each inside its own 50 x 50 quarter, none hidden |
| `BackgroundConfig.PlanetSizeBounds` | src/config/backgroundConfig.js:89-90 | a planet's size is round(base * m) with m in [0.8, 1.2), so it lies between round(0.8 base) and round(1.2 base) |
| `BackgroundConfig.PlanetTypeSizes` | src/config/backgroundConfig.js:77-90 | azure sizes lie in [112, 168], obsidian in [88, 132], ember in [80, 120] px |
| `BackgroundConfig.SamplePosition` | src/config/backgroundConfig.js:99-100 | a sampled coordinate lies in [5, 95) |
| `BackgroundConfig.PlacePlanet` | src/config/backgroundConfig.js:92-114 | the loop runs 1 to 100 times; it returns its last sample; that sample is accepted iff it is >= 15 from every placed planet; every earlier sample was rejected; it stops early only on acceptance; with no planets placed the first sample is accepted |
| `BackgroundConfig.GenerateStaticPlanets` | src/config/backgroundConfig.js:76-127 | one planet per type in type order; planet k reads its draws where planet k-1 stopped (one size draw, two per sample); its size is the rounded formula on its first draw; its position is its last sample; that sample is accepted iff it is >= 15 from every earlier planet, and only the 100th sample is ever kept unaccepted; every earlier sample was rejected; positions in [5, 95), sizes in range; the first planet is accepted on its first sample |
| `BackgroundConfig.AllPlanetsOkSpelled` | src/config/backgroundConfig.js:83-124 | the per-planet facts of the placement loop, each planet against the planets before it, with the position and size ranges the draws imply |
| `BackgroundConfig.AcceptedPlanetsSeparated` | src/config/backgroundConfig.js:83-124 | when every planet was accepted, all pairs of distinct planets are at least 15 apart |
| `BackgroundConfig.FilterAvailableMembers` | src/config/backgroundConfig.js:157-162 | the angle filter keeps exactly the base angles with difference in [20, 340] to every live angle |
| `BackgroundConfig.AngleOptions` | src/config/backgroundConfig.js:164-165 | the option list is never empty |
| `BackgroundConfig.AngleOptionsExact` | src/config/backgroundConfig.js:157-165 | an angle is offered iff it is one of the twelve and, when any of them is available, it is available itself; so the options are the available angles, or all twelve when none is |
| `BackgroundConfig.BaseAngleChoice` | src/config/backgroundConfig.js:157-166 | the base angle is one of the twelve, and is an available one whenever any is available |
| `BackgroundConfig.Jitter` | src/config/backgroundConfig.js:169 | the jittered angle lies in [base - 5, base + 5) |
| `BackgroundConfig.JitterKeepsQuadrant` | src/config/backgroundConfig.js:169-202 | jitter never moves a base angle into another branch of the spawn-side choice |
| `BackgroundConfig.StartPointOnEntryEdge` | src/config/backgroundConfig.js:171-211 | the start point is 20 px outside an edge of the angle's branch (top/left, top/right, bottom/right, bottom/left), on the top or bottom edge exactly when the side draw exceeds 0.5 |
| `BackgroundConfig.CreateShootingStar` | src/config/backgroundConfig.js:143-238 | no star without a window; otherwise the given id, a colour from the two shooting-star colours, tail length in [30, 50) and speed in [0.8, 1.6) |
| `BackgroundConfig.CreateShootingStarTrajectory` | src/config/backgroundConfig.js:157-211 | the angle is within [-5, 5) of a base angle that is available whenever any is, in that base angle's branch, and the start lies outside an entry edge of that branch |
| `OrbitBackdrop.MaxStars` | src/components/OrbitBackdrop.jsx:43-50 | the cap is 3 iff rand < 0.10, 2 iff 0.10 <= rand < 0.35, 1 otherwise; always in {1, 2, 3} |
| `OrbitBackdrop.SpawnDelay` | src/components/OrbitBackdrop.jsx:160 | the next tick delay lies in [3000, 8000) ms |
| `OrbitBackdrop.RoundToTen` | src/components/OrbitBackdrop.jsx:61 | a rounded angle is a multiple of 10 within (a - 5, a + 5], halves rounded up |
| `OrbitBackdrop.ShootingStarsLayer.constructor` | src/components/OrbitBackdrop.jsx:31-33 | a new layer has an empty registry and an empty rule list |
| `OrbitBackdrop.ShootingStarsLayer.ExistingAngles` | src/components/OrbitBackdrop.jsx:58-62 | the collected set is exactly { round(a/10)*10 : a the angle of a live star } |
| `OrbitBackdrop.TickSkipsAtCap` | src/components/OrbitBackdrop.jsx:41-56 | a tick that finds the registry size >= the cap leaves registry and rules unchanged |
| `OrbitBackdrop.TickWithoutStar` | src/components/OrbitBackdrop.jsx:64-68 | without a window (no star created) or without the container, a tick leaves registry and rules unchanged |
| `OrbitBackdrop.TickSpawns` | src/components/OrbitBackdrop.jsx:53-141 | a tick below the cap: appends one rule named by the new id; registers the created star under that id with the rule's index; leaves every other entry unchanged; for a fresh id the registry grows by exactly one; the size stays <= cap |
| `OrbitBackdrop.TickKeepsRegistryOk` | src/components/OrbitBackdrop.jsx:41-141 | every tick keeps at most three live stars, each registered under its own id |
| `OrbitBackdrop.EndStepRemovesOnce` | src/components/OrbitBackdrop.jsx:144-157 | `animationend` removes exactly the star's id and no other entry; handling it again is a no-op |
| `OrbitBackdrop.EndKeepsRegistryOk` | src/components/OrbitBackdrop.jsx:144-157 | `animationend` keeps at most three live stars, each under its own id |
| `OrbitBackdrop.ShootingStarsLayer.Tick` | src/components/OrbitBackdrop.jsx:40-160 | the new registry and rules are `TickStep` of the old ones, the registry invariant is kept, and the next delay is in [3000, 8000) |
| `OrbitBackdrop.ShootingStarsLayer.AnimationEnd` | src/components/OrbitBackdrop.jsx:144-157 | the new registry and rules are `EndStep` of the old ones: the id leaves the registry, and its recorded rule is deleted only if that index still names a rule |
| `OrbitBackdrop.GuardedDelete` | src/components/OrbitBackdrop.jsx:149-155 | the rule at the index is removed (later rules shift down) only when the index names a rule; otherwise the rules are unchanged |
| `OrbitBackdrop.TwoTicksAtCapOne` | src/components/OrbitBackdrop.jsx:41-56 | two ticks at cap 1 with no removal between them leave exactly one live star; the second tick is skipped |
| `OrbitBackdrop.SpawnFromEmpty` | src/components/OrbitBackdrop.jsx:41-141 | any tick on an empty registry with a window and the container spawns a star recorded at rule index 0 |
| `OrbitBackdrop.SpawnSecondAtCapTwo` | src/components/OrbitBackdrop.jsx:41-141 | at cap 2 a tick on a one-star registry spawns a second star recorded at rule index 1 |
| `OrbitBackdrop.SpawnTwoAtCapTwo` | src/components/OrbitBackdrop.jsx:41-141 | two ticks at cap 2 from empty give rules [id1, id2] with recorded indices 0 and 1 |
| `OrbitBackdrop.EndTwoInSpawnOrder` | src/components/OrbitBackdrop.jsx:140-156 | ending stars recorded at 0 and 1 in that order empties the registry but leaves the second star's rule: after the first deletion index 1 names no rule |
| `OrbitBackdrop.EndInSpawnOrder` | src/components/OrbitBackdrop.jsx:135-156 | two stars spawned at cap 2 and ended in spawn order leave the registry empty and the second star's rule in the sheet |
| `OrbitBackdrop.VisibleStarsMembers` | src/components/OrbitBackdrop.jsx:188 | the render filter keeps exactly the stars that are not hidden |
| `OrbitBackdrop.VisibleStarsOutsideZones` | src/components/OrbitBackdrop.jsx:188 | no rendered star of a field built with `PLANET_ZONES` lies inside a planet zone |

## Left out

- DOM and CSSOM work is not modelled. This covers element creation, styles,
  gradients, the unique animation name and the keyframe text. A rule is
  represented by the id of the star that inserted it.
- The `<style>` element lookup is not modelled. `insertRule` is taken to
  succeed, so the `textContent` fallback is not modelled.
- Timers are not modelled: `setTimeout`, `clearTimeout`, unmount clean-up, and
  the effect's initial window and container check. One tick is one `Tick`
  call, which returns the next delay.
- The end point and the duration of a shooting star are not modelled. They
  need `Math.cos`, `Math.sin`, `Math.sqrt` and float division. The record
  keeps the drawn `speed` instead.
- The planets' `${top}%` formatting and the `parseFloat` read-back are treated
  as identity on numbers.
- Shooting-star ids (`Date.now()` plus a random number) are a parameter of
  `Tick`. The random number inside the id is not one of the `ShootingDraws`.
  Ids need not be fresh: a reused id overwrites its entry.
- There is no window in a non-browser environment. This is modelled only as
  the `None` viewport, which gives no star.
- Floating point is not modelled. Reals are exact. `Math.ceil(Math.sqrt(n))`
  is taken to equal the exact ceiling of the square root.
- Rendering is not modelled, apart from the `!star.hidden` filter. This covers
  the orbit rings, the planets' markup, the pages, the static data files and
  `SECTION_VARIANTS`.
- `GenerateStaticPlanets`: needs at least 603 random draws available, the
  most the three placements can consume. The source has an unbounded
  `Math.random()`.
