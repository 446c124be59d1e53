# Minceraft core, modelled in Dafny

A model of the sequential logic inside `src/main.rs` of Minceraft, a small first-person voxel
game built on the Bevy engine. The engine plumbing (entities, queries, commands, meshes) is
stripped away, and what remains is written as pure functions and small methods over
immutable datatypes:

- **Terrain** (`terrain.dfy`): the column height (five times the noise sample at a tenth of the
  column's coordinates, clamped at zero and cast to `i32`), the column of blocks for every `y` in `[-5, h]` with grass on top, and the 20 x 20 startup world.
  The Perlin sampler (seed 42) is a function parameter `Noise`.
- **Loading** (`loading.dfy`): the `WorldGenProgress` counter, the counter-to-column mapping
  by `%` and `/` on `WORLD_SIZE`, one `loading_screen` frame as a loop of at most 100 columns,
  and the Loading state run frame after frame until Playing is requested.
- **Game states** (`game_states.dfy`): `GameState`, the Escape toggle between Playing and
  Paused with its cursor effect, and the main menu's Play press.
- **Control** (`control.dfy`): `player_control` — mouse look with the pitch clamp, the jump
  guard, and the horizontal velocity set from W/A/S/D.
- **Physics** (`physics.dfy`): `physics_system` — gravity, integration, and the single pass of
  per-block overlap tests with single-axis correction, as a fold over the block positions.
- `geometry.dfy` (real-valued `Vec3`, `Abs`, `Signum`, `Clamp`) and `wrappers.dfy` (`Option`) are support.

All f32/f64 quantities are exact reals. A system never changes the game state itself: it
returns the requested next state (Bevy's `NextState`) and any cursor change as values.

The loading screen's width is a parameter `w > 0`; the game uses `WORLD_SIZE = 2`
(`Loading.WorldSize`). With non-negative counters and a positive width, Rust's truncating
`%` and `/` agree with Dafny's.

### Behaviour of the code worth noting

- The loading screen needs `(total - completed) / 100 + 1` frames, because the completion check
  runs at the top of each of the 100 iterations: a frame that generates the last 100 columns does
  not request Playing, and the next frame does (`Loading.LoadingScreen`, `Loading.LoadToCompletion`).
- The height is a saturating truncation of a value already clamped at zero, which is the floor
  of that value below `i32::MAX`.
- Gravity is the player's `Gravity(20.0)` component and is applied on every Playing frame.
- The startup world is 20 x 20 columns, but the loading screen generates a 2 x 2 square that
  lies inside it, so those columns are spawned twice (`Loading.LoadingDuplicatesStartup`).

## Model

| member | source | states |
|---|---|---|
| Terrain.TruncToI32 | src/main.rs:94 | `as i32` on the clamped value gives a height in `[0, i32::MAX]`, the whole part of the value below the maximum, and the maximum exactly when the value reaches it |
| Terrain.HeightBounds | src/main.rs:94 | the height is never negative, is 0 when the noise sample is not positive, and otherwise `h <= 5*noise < h + 1` |
| Terrain.StackShape | src/main.rs:96-101 | the column loop yields one block per level `-5 .. h`, in order, in the column `(x, z)`, grass exactly at `y == h` |
| Terrain.StackMembers | src/main.rs:96-101 | a block is spawned by the column loop iff it is in that column, its level is in `[-5, h]`, and it is grass iff it is at the top |
| Terrain.StackGrassCount | src/main.rs:100 | a non-empty column loop spawns exactly one grass block |
| Terrain.ColumnShape | src/main.rs:94-101 | a column of height `h` has `h + 6` blocks, its last one is the grass block at `y == h`, and it holds exactly one grass block |
| Terrain.ColumnMembers | src/main.rs:429-436 | a block is in the column at `(x, z)` iff it has those coordinates and the terrain shape for that column's height |
| Terrain.RowMembers | src/main.rs:91-106 | the inner startup loop over z spawns exactly the terrain-shaped blocks of the columns `(x, z0..z1)` |
| Terrain.GridMembers | src/main.rs:90-108 | the nested startup loops spawn exactly the terrain-shaped blocks of the columns in the rectangle |
| Terrain.StartupTerrainMembers | src/main.rs:88-108 | the startup world holds exactly the terrain-shaped blocks of the columns with x, z in `[-10, 10)` |
| Terrain.RowGrassCount | src/main.rs:91-106 | the inner startup loop over `z0..z1` spawns exactly one grass block per column |
| Terrain.GridGrassCount | src/main.rs:90-108 | the nested startup loops spawn exactly one grass block per column of the rectangle |
| Terrain.StartupGrassCount | src/main.rs:90-108 | the startup world has exactly 400 grass blocks, one on top of each of its 20 x 20 columns |
| Loading.ColumnAtRoundTrip | src/main.rs:424-425 | every counter value maps to a column with x in the square's width and z not below it, and that column maps back to the counter |
| Loading.IndexOfRoundTrip | src/main.rs:424-425 | every such column is reached by a counter value, and by the one `IndexOf` gives |
| Loading.IndexInSquare | src/main.rs:415-425 | a column's counter value is below `WORLD_SIZE²` iff the column lies in `[-size, -size + WORLD_SIZE)²` |
| Loading.ColumnAtBijective | src/main.rs:415-425 | the counters `0 .. WORLD_SIZE² - 1` reach columns inside the square, and distinct counters reach distinct columns |
| Loading.ColumnsGrassCount | src/main.rs:418-443 | the columns generated for counters `a .. b-1` hold exactly `b - a` grass blocks, one per column |
| Loading.ColumnsMembers | src/main.rs:418-443 | the blocks generated for counters `a .. b-1` are exactly the terrain-shaped blocks of the columns whose counter is in that range |
| Loading.LoadedWorldMembers | src/main.rs:415-443 | loading the whole square yields exactly the terrain-shaped blocks of the square's columns |
| Loading.LoadingDuplicatesStartup | src/main.rs:415-436 | with `WORLD_SIZE = 2` every block the loading screen spawns is also spawned at startup |
| Loading.LoadingScreen | src/main.rs:415-444 | one frame never decreases the counter, adds at most 100, never passes the total, generates exactly the columns it counts, and requests Playing iff fewer than 100 columns remained on entry |
| Loading.LoadToCompletion | src/main.rs:416-444 | running frames from a valid progress until Playing is requested generates every remaining column once, in counter order, ends at `total`, and takes `(total - completed) / 100 + 1` frames |
| GameStates.TogglePause | src/main.rs:237-259 | a request is made iff Escape was just pressed in Playing or Paused; it is the other of the two; the cursor is shown iff pausing and locked iff resuming |
| GameStates.TogglePauseTwice | src/main.rs:243-258 | two Escape edges return Playing or Paused to itself, with the cursor set for that state |
| GameStates.TogglePauseStable | src/main.rs:243-258 | with no Escape edge, or in MainMenu or Loading, the state is unchanged |
| GameStates.MainMenuFrame | src/main.rs:313-322 | the cursor is always released; Loading is requested iff some changed interaction is a press, and the menu is spawned iff it is not |
| Control.Turn | src/main.rs:149-152 | applying the motion events one by one subtracts `0.002` times the summed deltas from yaw and pitch |
| Control.Look | src/main.rs:148-154 | after the update the pitch is in `[-1.5, 1.5]`, equals the unclamped sum when that is in range and the nearer limit otherwise; yaw is unclamped |
| Control.ClampAfterAllEvents | src/main.rs:149-154 | the clamp is applied once after all events: up past the limit and back down in one frame stays at 1.5, where clamping per event would give 1.3 |
| Control.KeyVectorCombination | src/main.rs:164-177 | with `forward` the horizontal part of `-transform.forward()`, the key vector is `forward·(S−W) + right·(D−A)`, so W+S and A+D cancel to zero |
| Control.Jump | src/main.rs:179-181 | the vertical velocity changes only when Space was just pressed with `|vy| < 0.1`, and then becomes 10 |
| Control.NoDoubleJump | src/main.rs:179-181 | right after a jump a second Space press leaves the vertical velocity at 10 |
| Control.PlayerControl | src/main.rs:140-191 | yaw and pitch are the mouse-look update (pitch in `[-1.5, 1.5]`, yaw less `0.002` times the summed x motion); `vy` becomes 10 exactly under the jump guard and is kept otherwise; a zero key vector (in particular W+S and A+D cancelling) zeroes `vx`, `vz`; otherwise they become the normalised key vector times `200·dt` |
| Control.HorizontalOverwritten | src/main.rs:183-190 | the result does not depend on the incoming horizontal velocity: it is overwritten, not accumulated |
| Geometry.Signum | src/main.rs:225 | `signum` is ±1 with `signum(r)·r == |r|`, and `+1` at zero |
| Physics.SeparatingAxis | src/main.rs:215-230 | the corrected axis has the largest `|diff|`; y is chosen iff `|dy|` strictly exceeds both others; x iff y is not chosen and `|dx| > |dz|` |
| Physics.ResolveBlock | src/main.rs:206-231 | a non-overlapping block changes nothing; an overlapping one sets exactly the separating axis's coordinate to `MinDist` from the block on the player's side, moves it by the penetration depth, zeroes only that velocity component, and no longer overlaps |
| Physics.ResolveAll | src/main.rs:205-232 | after the pass each velocity component is unchanged or zero; every coordinate that left the candidate has its velocity component zeroed and lies exactly `MinDist` from some block on that axis; the last block processed does not overlap the final position |
| Physics.PhysicsStep | src/main.rs:198-234 | after a frame `vy` is `vy − 20·dt` or 0, `vx` and `vz` are kept or 0; each committed coordinate equals the candidate `pos + v·dt` (with gravity applied once) unless its velocity component ended at 0 and it lies `MinDist` from some block on that axis; the last block does not overlap the committed position |
| Physics.NoContactNoChange | src/main.rs:205-234 | when no block overlaps the candidate, the pass leaves position and velocity unchanged |
| Physics.FreeFall | src/main.rs:201-234 | with no block in reach, gravity is applied once and the player moves by `v·dt` with the updated `v` |
| Physics.RestingIsStable | src/main.rs:201-234 | standing at rest on one block's top face stays exactly there, at rest, over a frame with `20·dt² < 1.5` |
| Physics.SinglePassMayLeaveOverlap | src/main.rs:205-232 | the pass is single, not solved to a fixed point: a block resolved early can overlap again after a later block's correction |

## Left out

- Rendering and UI: meshes, materials, lights, the `pause_menu`, `main_menu` and loading-screen widgets, `spawn_crosshair` and the `cleanup_*` despawns. The menu widget spawn is only a flag in `GameStates.MainMenuFrame`.
- The loading percentage (`src/main.rs:446`): an f32 division used only for display text.
- Perlin noise: the sampler is an uninterpreted `Noise` parameter, so the fixed seed 42 is not modelled.
- Camera orientation: `Quat::from_euler`, `transform.forward()` and `transform.right()` need trigonometry. The horizontal parts of `-transform.forward()` and `transform.right()`, normalised, are inputs of `Control.PlayerControl`.
- Control.PlayerControl: `normalize()` needs a square root and is an abstract parameter. The contract says nothing about the length of the diagonal movement, and nothing about the rotation written back to the transform.
- f32/f64 rounding, NaN and infinities: every quantity is an exact real.
- The `usize as i32` cast of the loading counter: the counter never exceeds `WORLD_SIZE² = 4`, where the cast is the identity.
- `setup`'s cursor capture and the spawn of the camera, player (yaw 0, pitch 0, at `(0, 15, 0)`, gravity 20) and light: these are engine calls with no logic beyond their constants.
- Window cursor mutation: it is returned as an effect value, never performed.
- System scheduling: Bevy does not fix the order of `player_control` and `physics_system` within a frame, so the model does not compose them.
- `utility/src/main.rs` (spawns a `cargo` process) and `build.rs` (writes a build timestamp): process and file I/O.
