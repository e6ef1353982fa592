# QTE cube prototype: level-up, trail cooldown and QTE spawning in Dafny

This project models the game logic of a small Unity arcade prototype. The
player steers a cube. Quick-time-event (QTE) buttons pop up on screen, one at
a time. Each click on a button makes the cube grow. Every second click raises
the cube's level, which changes its colour along a fixed palette. A moving
cube leaves a trail of spheres, spawned at most once per cooldown period.

Three scripts hold that logic, and the model follows them file by file:

- `Assets/Assets/CS_PlayerController.cs` is modelled by module `Leveling` and
  module `PlayerControl`. `Leveling` holds the level-up rule and the trail
  gate as pure functions, with lemmas about them. `PlayerControl` holds the
  class `PlayerController`, whose methods update the counter, the level, the
  renderer colour and the cooldown in place. Each method is specified by the
  `Leveling` functions.
- `Assets/Assets/CS_QTEManager.cs` is modelled by module `Spawning` and class
  `QTE.QTEManager`. `Spawning` is the spawning rule as a state machine over
  three events: a generator tick, a success and an expiry. It also holds the
  safe area for new buttons and the trace lemma behind the one-button rule.
  `QTEManager` is the imperative class, and its methods are specified by
  `Spawning.Step`.
- `Assets/Assets/CS_QTEButton.cs` is modelled by module `Countdown` (the fill
  fraction) and class `QTE.QTEButton` (`Start`, `Update`, `OnClick`).

Engine objects are abstract tokens. Module `Engine` provides them through a
`Scene` object table, which supports instantiate, destroy and anchored
positions. In the engine, a reference to a destroyed object compares equal to
null. The model expresses this as `Spawning.IsNull`: the manager has no
reference, or its reference names an instance that is no longer live. Time is
a `real` that the caller passes in. The coroutine's wait is folded into one
call of `GeneratorStep` per wake-up. The random spawn position is a
nondeterministic choice (`:|`) anywhere in the safe rectangle, bounds
included, since the engine's float range is inclusive.

Module `Options` supplies `Option`, which stands for a nullable reference.
The three `QTE.Session…` methods are verified client methods. Their
assertions show what a caller can conclude from the contracts alone.

## Model

| member | source | states |
|---|---|---|
| `Leveling.Recolor` | Assets/Assets/CS_PlayerController.cs:144-150 | A palette entry is written only when a renderer is present and `level < levelColors.Length`. In that case the colour becomes `levelColors[level]`. Otherwise the colour is unchanged, and a renderer is never created or lost. |
| `Leveling.Succeed` | Assets/Assets/CS_PlayerController.cs:156-172 | One success adds one growth step. The level rises by at most 1. It rises exactly when the counter was already 1 and the level is below the last palette index. A counter of 0 or 1 flips to the other value. |
| `Leveling.InitialInv` | Assets/Assets/CS_PlayerController.cs:44-56 | The state after Awake satisfies the invariant: counter ≤ 1, level ≤ last index, and the renderer shows the entry for the level. It keeps a renderer exactly when one exists. |
| `Leveling.SucceedKeepsInv` | Assets/Assets/CS_PlayerController.cs:156-172 | Each success preserves that invariant. So the counter stays in {0,1}, the level never passes `Length - 1`, and the colour tracks the level. |
| `Leveling.ClosedForm` | Assets/Assets/CS_PlayerController.cs:156-172 | After n successes from the start: counter = n mod 2, level = min(n div 2, last index), growth = n, and the colour is the palette entry of that level (when a renderer exists). Proved by induction on n. |
| `Leveling.SuccessesInv` | Assets/Assets/CS_PlayerController.cs:162-170 | Every state reached by any number of successes satisfies the invariant. |
| `Leveling.LevelMonotone` | Assets/Assets/CS_PlayerController.cs:166-169 | With more successes the level is never lower. |
| `Leveling.Saturated` | Assets/Assets/CS_PlayerController.cs:163-170 | At the last level a success still flips the counter. The level and the colour stay the same. |
| `Leveling.DefaultPaletteLevels` | Assets/Assets/CS_PlayerController.cs:25-34 | With the 7-colour default palette, level = min(n div 2, 6). From 12 successes on, the cube is violet. |
| `Leveling.GateKeepsTrailInv` | Assets/Assets/CS_PlayerController.cs:98-102 | When the gate opens at `time`, the cooldown moves to `time + trailSpawnRate`. This keeps consecutive spawns at least `trailSpawnRate` apart, and keeps the next permitted spawn at least that far after the last one. |
| `PlayerControl.PlayerController.constructor` | Assets/Assets/CS_PlayerController.cs:40-56 | The fields start at counter 0, level 0 and cooldown 0, with no spawns. Awake has painted the level-0 colour, and the invariant holds. |
| `PlayerControl.PlayerController.UpdateLevelColor` | Assets/Assets/CS_PlayerController.cs:144-150 | The new renderer colour equals `Recolor` of the old one at the current level. |
| `PlayerControl.PlayerController.OnQTESuccess` | Assets/Assets/CS_PlayerController.cs:156-172 | The new state equals `Succeed` of the old state, and the invariant is kept. The trail cooldown and spawn record are unchanged. |
| `PlayerControl.PlayerController.FixedUpdate` | Assets/Assets/CS_PlayerController.cs:97-102 | The gate opens exactly when x²+y² > 0.1 and `time >= nextSpawnTime`. Then the cooldown becomes `time + trailSpawnRate`, and a spawn is recorded if a prefab is assigned. Otherwise nothing changes. The spacing invariant is kept. |
| `PlayerControl.PlayerController.SpawnTrailSphere` | Assets/Assets/CS_PlayerController.cs:117-121 | A sphere is spawned at `time` only when a trail prefab is assigned. |
| `Countdown.Fill` | Assets/Assets/CS_QTEButton.cs:58 | For 0 ≤ age < lifetime, the fill `1 - age/lifetime` lies in (0, 1]. It is 1 exactly at age 0. |
| `Countdown.FillNeverIncreases` | Assets/Assets/CS_QTEButton.cs:45-58 | An older live button never has a higher fill. A strictly older one has a strictly lower fill. |
| `Spawning.Show` | Assets/Assets/CS_QTEManager.cs:49-65 | Without a prefab, only `enabled` changes, and it becomes false. No button is created and the reference is unchanged. With a prefab, a fresh instance is created, becomes current and is live (non-null). |
| `Spawning.TickStep` | Assets/Assets/CS_QTEManager.cs:35-46 | A wake-up creates an instance exactly when no button is active and a prefab is assigned. While a button is active, nothing changes. |
| `Spawning.SuccessStep` | Assets/Assets/CS_QTEManager.cs:104-110 | Afterwards no button is active. Only the current instance is destroyed. |
| `Spawning.ExpireStep` | Assets/Assets/CS_QTEButton.cs:46-54 | An expiry destroys exactly the given instance and leaves the manager's fields alone. |
| `Spawning.InvAtMostOne` | Assets/Assets/CS_QTEManager.cs:40-45 | If every live instance is the current one, then at most one instance is live, and a live one makes the reference non-null. |
| `Spawning.StepKeepsInv` | Assets/Assets/CS_QTEManager.cs:35-46 | Ticks, successes and expiries all preserve "every live instance is the current one". |
| `Spawning.RunKeepsInv` | Assets/Assets/CS_QTEManager.cs:35-46 | Any sequence of events preserves the same invariant. Proved by induction on the sequence. |
| `Spawning.AtMostOneButton` | Assets/Assets/CS_QTEManager.cs:35-46 | From a fresh manager, after any sequence of events, at most one button instance is live. |
| `Spawning.NoPrefabNoButtons` | Assets/Assets/CS_QTEManager.cs:52-57 | Without a prefab, no instance is ever created and the reference never changes. After any tick the manager is disabled. |
| `Spawning.FreedAfterSuccessOrExpiry` | Assets/Assets/CS_QTEManager.cs:104-110 | After a success, or after the current button expires, the next wake-up creates a new instance (given a prefab). |
| `Spawning.SafeExtent` | Assets/Assets/CS_QTEManager.cs:76-77 | For padding p in [0, 0.4], the safe extent `size·(1-2p)` lies between 0.2·size and size. |
| `Spawning.ChooseSpawnPosition` | Assets/Assets/CS_QTEManager.cs:79-82 | The drawn position satisfies \|x\| ≤ safeW/2 and \|y\| ≤ safeH/2. |
| `Spawning.SafeAreaKeepsBorder` | Assets/Assets/CS_QTEManager.cs:12-14 | A safe position stays at least a padding fraction of the canvas away from each edge. |
| `QTE.QTEManager.constructor` | Assets/Assets/CS_QTEManager.cs:21-29 | The manager starts with no button and nothing created, enabled. An unassigned player controller is replaced by the scene lookup. |
| `QTE.QTEManager.GeneratorStep` | Assets/Assets/CS_QTEManager.cs:33-47 | The new state is `Step(old, Tick)`. A button is returned exactly when none was active and a prefab is assigned. The returned button is fresh, wired to this manager, parented to the current instance, not yet started, at full fill and placed in the safe area. A wake-up that shows nothing leaves every anchored position as it was; one that shows a button writes only the new instance's position. The single-button invariant is kept. |
| `QTE.QTEManager.ShowNewQTEButton` | Assets/Assets/CS_QTEManager.cs:49-89 | The new state is `Show(old)`. Without a prefab, the scene is untouched and the manager disables itself. Otherwise the current instance is live, and its script is returned wired to this manager, not yet started and at full fill, at a safe position. Only the new instance's anchored position is written. |
| `QTE.QTEManager.OnQTESuccess` | Assets/Assets/CS_QTEManager.cs:91-111 | The player controller, if present, receives exactly one `Succeed`, even when no button is active. The new state is `Step(old, Success)`, so afterwards no button is active. |
| `QTE.QTEButton.constructor` | Assets/Assets/CS_QTEButton.cs:16-23 | A new script has no manager yet, records its instance (parent), its scene and its lifetime, and shows a full fill. |
| `QTE.QTEButton.Start` | Assets/Assets/CS_QTEButton.cs:37-41 | Records the spawn time. |
| `QTE.QTEButton.Update` | Assets/Assets/CS_QTEButton.cs:43-59 | At or past the lifetime, the parent instance is destroyed if there is one, and otherwise nothing is destroyed. In that case the fill is untouched. Before the lifetime, the fill becomes `Fill(age, lifetime)` and nothing is destroyed. For the manager that spawned it, an expiry is exactly its `Expire(parent)` step and otherwise its state is untouched, so the manager's invariant survives. |
| `QTE.QTEButton.OnClick` | Assets/Assets/CS_QTEButton.cs:64-72 | With a manager, the manager takes exactly one `Success` step, and the player gets one `Succeed`. The anchored positions and the player's trail cooldown and spawn record stay as they were. Without a manager, nothing changes. The button's own fields never change; any destruction comes from the manager's step. |

## Left out

- Movement input, Rigidbody velocity and camera follow are engine physics and transform plumbing (`CS_PlayerController.cs` lines 78-95 and 105-112). The move input is a parameter of `FixedUpdate`.
- The 1.1× scale growth is counted as an integer number of growth steps. The float scale, the hue accumulation and wrap, the HSV-to-RGB trail colour and the trail sphere's scale factor are floating-point visuals.
- Floats are modelled as exact reals: `0.1f`, `spawnAreaPadding` and `1 - age/lifetime` carry no rounding. Integer fields never leave {0,1} or the palette range, so 32-bit wrap-around cannot arise.
- `Random.Range`, `Instantiate`, `Destroy`, `GetComponent`, `GetComponentInChildren` and `FindFirstObjectByType` are engine calls. They become a nondeterministic choice, `Scene` tokens and constructor parameters. The button prefab is assumed to carry the button script on a child of its root, as the script's own documentation says. A prefab without the script, which would fail at line 88 of the manager, is not modelled.
- The canvas and the Rigidbody are assumed assigned. In the source, a missing `parentCanvas` makes line 65 of the manager throw before `Instantiate`: no button is created, and the exception ends the generator coroutine for good, so no button is ever shown again. A missing Rigidbody makes line 95 of the player controller throw before the trail gate at line 98, so no trail sphere is ever spawned. The model's `GeneratorStep`, `ShowNewQTEButton` and `FixedUpdate` describe only the assigned case.
- `Destroy` takes effect at once in the model. The engine defers it to the end of the frame. On the expiry path this can only delay the manager's next spawn. On the success path the manager clears its reference itself, so whether a wake-up later in the same frame could create a new instance while the old one still awaits destruction depends on the engine's frame order; `AtMostOneButton` is proved for immediate destruction.
- `WaitForSeconds(spawnInterval)` is abstracted: each call of `GeneratorStep` is one wake-up of the loop. In the source, `enabled = false` does not stop the generator loop, and the model keeps that: `Step` ignores `enabled`.
- Audio (`PlayOneShot`) and log messages are I/O. `CS_BGMPlayer.cs`, `CS_TrailSphere.cs` and `TestScript.cs` are not part of this model.
- `QTE.QTEButton.constructor`: the initial fill of 1 stands for the progress image's configured fill, which the script never sets itself.
- `QTE.QTEButton.Update`: it requires `now >= spawnTime`, because engine time never runs backwards between `Start` and `Update`. That also rules out the division by a zero lifetime, which needs a negative age.
