# rusty_roguelike core, modelled in Dafny

This project models the pure logic inside the game code of a small Rust
roguelike:

- the **template spawner**. It filters an entity catalog by dungeon level and
  expands it into a selection pool by integer frequency. It makes one draw per
  spawn point and turns each drawn template into an entity with a fixed set of
  components.
- the fixed **player** and **Amulet of Yala** entities, and `spawn_level`.
- the two **map themes**: the glyph each tile type is drawn with, and the
  architect each theme picks.
- the **rooms architect**. It derives the player start and the spawn locations
  from the room list.
- the **field-of-view pass**. It recomputes visibility only for viewers whose
  dirty flag is set.
- the **score tracker**: the score accumulator and the minutes/seconds split of
  the elapsed time.

Modules follow the source: `Prelude` holds shared types. `Components` holds
entities as component sets. `Templates` is `src/spawner/template.rs` and
`Spawner` is `src/spawner/mod.rs`. `Themes`, `Rooms`, `Fov` and `ScoreTracker`
follow the remaining files.

Modelling choices:

- An entity is a set of components, with at most one component of each type.
  Attaching a component of a type the entity already has replaces it, as the
  entity store does. So when a template declares "Healing" twice, the last
  amount wins.
- The world is a list of entities. The spawn pass's command buffer becomes one
  append of all new entities at the end of the pass.
- A panic becomes an `Err` result. This covers `hp.unwrap()` on an Enemy
  template without hit points, and `rooms[0]` when no room was placed. When
  one spawn panics, the buffer is never flushed, so the whole pass is an `Err`.
- Random draws are inputs. `draws[i]` is the pool index the random source
  picks for spawn point `i`. The Forest theme's `range(0, 1)` is an integer
  `draw`.
- Foreign and unseen code is passed in as function values. This covers
  `field_of_view_set`, `Rect::center`, `Map::new` and the carving helpers
  `fill`, `build_random_rooms`, `build_corridors` and `find_most_distant`.
  Those helpers are taken to change only the map and the room list.
- The clock is an input. `SystemTime::now()` is a clock reading in
  nanoseconds, passed in by the caller; `elapsed` is computed from the
  tracker's start reading and the current one.

Some behaviours of the code, which the model follows as written:

- Frequencies are `i32`. A zero or negative frequency adds nothing to the pool.
- A missing `hp` on an Enemy is not rejected when the catalog is loaded. It
  panics when such a template is drawn.
- The rooms architect fails only when no room at all was placed. With one
  room there are no spawn locations.
- The Forest theme does not pick its architect uniformly. See Findings.

## Model

| member | source | states |
|---|---|---|
| `Templates.BuildPool` | src/spawner/template.rs:158-166 | the level-filtered, frequency-expanded loop yields exactly the reference pool `Pool(catalog, level)` |
| `Templates.PushCopies` | src/spawner/template.rs:163-165 | `for _ in 0..frequency` appends exactly `max(frequency, 0)` copies of the template, after the existing pool |
| `Templates.PoolMembership` | src/spawner/template.rs:159-166 | a template is in the pool iff it is in the catalog, its levels contain the level, and its frequency is positive |
| `Templates.PoolCount` | src/spawner/template.rs:162-166 | each template occurs in the pool (catalog occurrences) × `max(frequency, 0)` times at an eligible level, and 0 times otherwise |
| `Templates.PoolAppend` | src/spawner/template.rs:159-166 | the pool of `a + b` is the pool of `a` followed by the pool of `b`, so copies come in catalog order |
| `Templates.PoolSize` | src/spawner/template.rs:158-166 | the pool's length is the sum of the catalog's weights at the level |
| `Templates.SpawnCalls` | src/spawner/template.rs:168-172 | an empty pool makes no spawn call; otherwise one call per spawn point, in order, with that point and the drawn pool entry |
| `Templates.ApplyEffects` | src/spawner/template.rs:121-131 | "MagicMap" attaches the dungeon-map grant; the last "Healing" sets the healing amount; any other name adds nothing and later effects still apply; no other component changes |
| `Templates.UnknownEffectIsSkipped` | src/spawner/template.rs:121-130 | removing an effect whose name is neither "Healing" nor "MagicMap" from anywhere in the list leaves the resulting entity unchanged |
| `Templates.WithDamage` | src/spawner/template.rs:133-138 | a base damage attaches `Damage(d)`; `Weapon` is added only for an Item with a base damage; nothing else changes |
| `Templates.KindedBundle` | src/spawner/template.rs:97-118 | the pushed bundle holds position, glyph and name; an Item adds the Item marker; an Enemy adds Enemy, field of view 6, ChasingPlayer and Health(hp, hp) |
| `Templates.SpawnEntity` | src/spawner/template.rs:95-140 | it panics iff the template is an Enemy without hp; otherwise the entity has exactly the components `Materializes` lists, one per type |
| `Templates.AssembledMaterializes` | src/spawner/template.rs:97-138 | the bundle, kind components, effects and damage assembled in source order meet the declarative description |
| `Templates.EffectsOnBundle` | src/spawner/template.rs:121-131 | on a bundle without effect components, the effect grants are exactly those named by the declared effects |
| `Templates.DamageAfterEffects` | src/spawner/template.rs:133-138 | attaching damage after the effects keeps the effect grants and sets Damage/Weapon as declared |
| `Templates.BundlePartsCarryOver` | src/spawner/template.rs:97-118 | the base and kind components survive the effect and damage steps unchanged |
| `Templates.MaterializeAll` | src/spawner/template.rs:168-173 | the batch succeeds iff every drawn template can be materialized, and then entity `i` materializes call `i` |
| `Templates.SpawnEntities` | src/spawner/template.rs:151-174 | the pass fails iff some drawn entry is an Enemy without hp; otherwise the old world is kept as a prefix; one entity per point is added when the pool is non-empty and none when it is empty; entity `i` materializes the template drawn for point `i` |
| `Templates.SpawnedTemplatesEligible` | src/spawner/template.rs:159-172 | every spawn call's template is in the catalog, lists the level and has a positive frequency |
| `Templates.TestSpawnsThree` | src/spawner/template.rs:227-234 | the unit test's catalog with three spawn points at level 0 makes exactly three spawn calls, whatever the draws |
| `Templates.TestPotionHealsNothing` | src/spawner/template.rs:193-196 | the test potion's effect name "ProvidesHealing" is not a known name, so the concrete spawner gives it no healing component |
| `Spawner.SpawnLevel` | src/spawner/mod.rs:15-23 | level and spawn points are passed unchanged to the template spawn; new entities sit at the spawn points in order; well-formed worlds stay well-formed |
| `Spawner.SpawnPlayer` | src/spawner/mod.rs:25-40 | one entity is appended with exactly six components: Player at map level 0, the position, '@', Health 10/10, field of view 8 and Damage 1; no name, not an item, not an enemy |
| `Spawner.SpawnAmuletOfYala` | src/spawner/mod.rs:42-53 | one entity is appended with exactly five components: Item, AmuletOfYala, the position, the vertical-bar glyph and the name "Amulet of Yala"; no health and no damage |
| `Themes.RenderInjective` | src/map_builder/themes.rs:14-42 | within one theme, two tiles get the same glyph iff they are the same tile |
| `Themes.RenderRoundTrip` | src/map_builder/themes.rs:14-42 | every drawn glyph reads back as its tile, and a glyph reads back as a tile iff the theme draws that tile with it |
| `Themes.ThemesShareOnlyExit` | src/map_builder/themes.rs:16-18 | the Dungeon and Forest themes draw a tile alike iff it is the Exit ('>') |
| `Themes.GetArchitect` | src/map_builder/themes.rs:22-50 | the Dungeon theme always picks the rooms architect; the Forest theme never does, and picks the drunkard's walk iff the draw is 0 |
| `Themes.ForestNeverCellularAsWritten` | src/map_builder/themes.rs:44-50 | with the draw in `range(0, 1)`, the Forest theme always picks the drunkard's walk |
| `Themes.ForestReachesBothArchitects` | src/map_builder/themes.rs:45-49 | with draws in [0, 2), both Forest architects are reachable |
| `Rooms.CreateMapBuilder` | src/map_builder/rooms.rs:7-30 | it fails iff no room was placed; the map is walled, roomed and then corridored; the theme is Dungeon; the player starts at the first room's center; location `i` is the center of room `i + 1` with no preferred entity; player start and spawn points are exactly the room centers, in order |
| `Fov.FovPass` | src/systems/fov.rs:6-15 | clean viewers are unchanged; dirty ones get `sight(position, radius, map)`; no viewer stays dirty; position and radius are only read |
| `Fov.PassIdempotent` | src/systems/fov.rs:10-13 | running the pass twice gives the same viewers as running it once |
| `Fov.PassMatchesMethodContract` | src/systems/fov.rs:10-13 | the per-viewer contract of the pass determines its output completely |
| `ScoreTracker.New` | src/score_tracker/mod.rs:9-14 | a new tracker has score 0 and records the given clock reading as its start |
| `ScoreTracker.IncreaseScore` | src/score_tracker/mod.rs:15-18 | the score grows by exactly the points and the start time is kept |
| `ScoreTracker.GetFinalScore` | src/score_tracker/mod.rs:29-31 | the final score is the current score; the tracker is a value and is not changed |
| `ScoreTracker.FinalScoreIsSum` | src/score_tracker/mod.rs:15-18 | after any run of increases without overflow, the final score is the start score plus the sum of the points, and the start time is unchanged |
| `ScoreTracker.GetTimeElapsed` | src/score_tracker/mod.rs:19-28 | it fails iff the start reading is later than the current one, reporting how far ahead it is; otherwise the pair is (whole minutes, total whole seconds since the start), with `60 * minutes <= seconds < 60 * minutes + 60` |
| `ScoreTracker.ElapsedSecondsNotWrapped` | src/score_tracker/mod.rs:22-24 | 75 seconds after the start, the pair is (1, 75) |
| `ScoreTracker.GetTimeElapsedMinSec` | src/score_tracker/mod.rs:19-28 | the corrected split: the same error case, seconds below 60, and `60 * minutes + seconds` is the number of whole seconds since the start |

## Findings

| source | as written | input that shows it | evidently intended | confidence | as-written member | corrected member |
|---|---|---|---|---|---|---|
| src/map_builder/themes.rs:46 | `rng.range(0, 1)` picks the Forest architect, and bracket-lib's `range` excludes its upper bound | every draw is 0, so the `_ => CellularAutomataArchitect` arm is dead | a choice between both architects, `range(0, 2)` | medium, not executed | `Themes.ForestNeverCellularAsWritten` | `Themes.ForestReachesBothArchitects` |
| src/score_tracker/mod.rs:22-24 | returns `(seconds / 60, seconds)` | 75 seconds give `(1, 75)`, which src/systems/hud.rs:45-50 prints as "Time: 1:75" | `(seconds / 60, seconds % 60)` | high, not executed | `ScoreTracker.ElapsedSecondsNotWrapped` | `ScoreTracker.GetTimeElapsedMinSec` |

## Left out

- Catalog loading (`FileEntityLoader::load_entities`, the RON file, serde) is file I/O. The catalog is an input.
- `Templates::load()`, called by `spawn_level`, is not defined in src/spawner/template.rs. `Spawner.SpawnLevel` takes the catalog as an input and delegates to `Templates.SpawnEntities`.
- The mockall traits, the `Default` impls and `CanReadEntitiesFromFile` are test and wiring scaffolding. `Templates.SpawnCalls` stands for the calls a mock spawner sees.
- legion's `World` and `CommandBuffer` storage and queries are not modelled. The world is a list of entities, and a spawn pass adds its entities in one append.
- `RandomNumberGenerator` is not modelled: draws are inputs. That a template with frequency N is N times as likely to be drawn is stated only as pool counts (`Templates.PoolCount`). Uniformity of the draw is not modelled.
- `to_cp437` and the colour pairs are presentation. `Render` holds the character itself.
- `FieldOfView::new` belongs to a components file that is not part of this model. A spawned entity records only the radius of its field of view, and `Fov.FovPass` works on a separate, full field-of-view record. A spawned enemy's initial visible set and dirty flag are not stated.
- `field_of_view_set`, `Rect::center`, `Map::new`, `fill`, `build_random_rooms`, `build_corridors` and `find_most_distant` are not part of this model. They are passed in as functions, and the random draws they make are folded into them.
- The drunkard's-walk and cellular-automata architects are not part of this model. Only their selection by the Forest theme is modelled.
- `SystemTime::now` reads the clock. The readings are inputs, in nanoseconds; `ScoreTracker.Elapsed` stands for `SystemTime::elapsed`.
- `println!` warnings, for unknown effect names and score increases, are not modelled.
- src/systems/hud.rs is terminal drawing and is not modelled. It is cited only to show how the elapsed pair is displayed.
- src/spawner.rs is a stale copy of `spawn_player` without the map level, and is not modelled.
- `ScoreTracker.IncreaseScore`: `i32` overflow is excluded by the precondition instead of modelled. Debug builds panic on overflow and release builds wrap.
- `Fov.FovPass`: the query's iteration order is taken to be list order. Entities without both a position and a field of view are not part of the list.
