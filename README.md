# Characters of a canvas shooting game

This project models the character objects of a small browser shoot-'em-up (`script/character.js`):

- **`Position`**: a mutable point whose `set` leaves alone any coordinate it is given as `null`.
- **`Viper`**: the player ship, with two states.
  - *Entrance* (`isComing`): the ship rises from `comingStartPosition` at 50 units per second, measured by the clock. It stops on `comingEndPosition.y` and never passes it.
  - *Controllable*: each arrow key held moves the ship by `speed` (3) on its axis, and the result is clamped into the canvas. Holding `z` with the cooldown counter at 0 or above scans the shot pool. The first free shot (`life <= 0`) is placed at the ship, the counter restarts from `-shotInterval` (-10), and the scan stops. Every controllable frame adds one to the counter.
- **`Shot`**: a pooled projectile.
  - `set` activates it at a point with `life = 1`.
  - `update` does nothing to a free shot.
  - An active shot moves up by `speed` (7). If it was already wholly above the top edge (`y + height < 0`), that same update also retires it.

The one frame-specific input of `update` is modelled as parameters:
- the clock reading `now` (ms);
- the key state, as an `Input` of five booleans;
- the canvas size.

Files:

- `wrappers.dfy`: `Option`, which stands for a JavaScript argument that may be `null`.
- `frame_rules.dfy` (module `FrameRules`): the per-frame rules as pure functions:
  - the entrance step;
  - the per-axis move and the clamp;
  - the first free slot (`FirstInactive`) and the slot a frame fires (`FireSlot`);
  - the cooldown counter.

  It also holds lemmas about the cooldown over many frames.
- `character.dfy` (module `Character`): the classes `Position`, `Shot` and `Viper`, and the pool scan.
  - `Viper.Update` is split into its entrance part (`Enter`), its movement part (`Steer`) and its firing part (`Fire` / `ShootFirstFree`).
  - Each part is proved against the functions of `FrameRules`.
  - `Viper.Valid` gives the separation facts and the cooldown bound `1 - shotInterval <= shotCheckCounter`. Every frame keeps it.
    - The separation facts: the points of the ship and of the pool shots are distinct objects, and the entrance points are set while entering.
- `scenarios.dfy` (module `Scenarios`): clients that drive the objects frame by frame and state what the frames add up to:
  - a complete entrance;
  - fire held for three frames;
  - a shot leaving the top edge.

The pool scan (`ActivateFirstFree`) is written as a search for the first free index, followed by the activation of that one shot. The source's `for` loop with a `break` after the first activation behaves the same way. `ShootFirstFree` then resets the counter exactly when a shot was activated, as the loop body does.

The cooldown counter's bound and step imply that after a firing frame the next `shotInterval - 1` controllable frames (9, not 10) cannot fire. The reason is that the firing frame's own `++shotCheckCounter` already brings the counter to `-9`. The model follows the code: `VolleyBound` states at most ceil(k / 10) shots in k frames.

## Model

| member | source | states |
|---|---|---|
| Character.Position.constructor | script/character.js:11-22 | the point holds the given coordinates |
| Character.Position.Set | script/character.js:29-32 | each coordinate takes its argument exactly when that argument is present (non-null), and otherwise keeps its old value; with both present the point is exactly `(x, y)` |
| Character.Shot.constructor | script/character.js:289-300 | a fresh point at `(x, y)`, the given size, `life` 0 (free) and `speed` 7 |
| Character.Shot.Set | script/character.js:307-312 | the shot is at `(x, y)` with `life` 1, whatever its previous state (re-activating an active shot is allowed) |
| Character.Shot.Update | script/character.js:317-328 | a free shot does not change; an active one keeps its x and moves up by exactly `speed`; its life becomes 0 exactly when `y + height < 0` held on entry, and the move happens in that same call |
| Character.ActivateFirstFree | script/character.js:250-259 | the reported slot is the first index, in pool order, whose shot was free (none if all were active); that shot is at `(x, y)` with life 1, and every other shot's life and point are unchanged |
| Character.Viper.constructor | script/character.js:122-165 | life 0, speed 3, not entering, no pool, counter 0, interval 10; the invariant holds |
| Character.Viper.SetComing | script/character.js:175-186 | entering from `now`, the ship at the start point, fresh start and end points recorded; pool, counter and invariant kept |
| Character.Viper.SetShotArray | script/character.js:192-195 | the ship refers to the given pool, which stays its builder's; nothing else changes; the invariant holds when the pool's points are distinct from each other and from the ship's |
| Character.Viper.Update | script/character.js:200-264 | one frame keeps the invariant and never replaces the pool. Entrance: x kept, y from `EntranceStep`, the entrance ends exactly when that step arrives, the counter and the shots untouched. Controllable: each axis is `Clamp(Axis(..))`, so within `[0, canvas]`; the counter is `NextCounter` of the slot `FireSlot` picks; that slot's shot is at the ship's new point with life 1, and every other shot is unchanged |
| Character.Viper.Enter | script/character.js:205-215 | x kept, y as `EntranceStep` computes, `isComing` cleared exactly when the step arrives; pool and counter untouched |
| Character.Viper.Steer | script/character.js:223-242 | each coordinate moves by `±speed` per pressed key of its axis, independently of the other axis, then is clamped into `[0, canvas size]` |
| Character.Viper.Fire | script/character.js:245-263 | the counter after the frame is `NextCounter(old counter, interval, fired)`; the shot of `FireSlot(fire, old counter, old lives)` is activated at the ship and no other shot changes; the invariant (counter at least `1 - interval`) is kept |
| Character.Viper.ShootFirstFree | script/character.js:250-260 | the first free shot, in pool order, is placed at the ship and the counter becomes `-shotInterval`; with no free shot neither the counter nor any shot changes |
| FrameRules.EntranceStep | script/character.js:206-213 | the ship is never above `endY`; the entrance ends exactly when `now - since >= (startY - endY) * 20` ms, and then y is exactly `endY` (no overshoot); before that y is `startY - elapsed / 20` |
| FrameRules.Axis | script/character.js:223-234 | only the backward key lowers the coordinate by `speed`, only the forward key raises it by `speed`, and both or neither leave it alone |
| FrameRules.Clamp | script/character.js:239-240 | `min(max(v, 0), hi)` lies in `[0, hi]`, is `v` inside that range, 0 below it and `hi` above it |
| FrameRules.FirstInactive | script/character.js:250-259 | none exactly when every life is positive; otherwise the index of a free entry with every entry before it positive |
| FrameRules.FireSlot | script/character.js:245-259 | a slot is chosen exactly when fire is held, the counter is not negative and some shot is free, and it is the first free one; so nothing fires while the counter is negative |
| FrameRules.VolleyBound | script/character.js:245-263 | over any k frames with fire held, starting from a counter of at least `1 - interval`, at most ceil(k / interval) shots fire, fewer while the counter is still negative |
| FrameRules.VolleyFloor | script/character.js:245-263 | when every frame finds a free shot, at least one fires per `interval` frames, once the counter has reached 0 |
| FrameRules.ThreeHeldFramesFireOnce | script/character.js:245-263 | with interval 10 and fire held for three frames from a counter of 0, exactly one shot fires |
| Scenarios.EntranceEvery16Ms | script/character.js:205-215 | an entrance from y 600 to y 400 with a frame every 16 ms ends after exactly 250 frames, at x 100 and y 400 |
| Scenarios.Tick | script/character.js:245-263 | one frame of a ship with two shots, ship first and then each shot: the counter follows `NextCounter`, the ship's y is clamped, an activated shot leaves the ship's point moving up by its speed, and a free shot not chosen stays free |
| Scenarios.ShipWithTwoShots | script/character.js:192-195 | a ship at (320, 400) wired to a pool of two free shots satisfies the invariant, with counter 0 and interval 10 |
| Scenarios.FireHeldThreeFrames | script/character.js:245-263 | two free shots with fire held for three frames from a counter of 0: the first shot is active at the end and the second is still free |
| Scenarios.ShotLeavesTop | script/character.js:317-328 | a shot 10 high at y = -11 is retired by its next update and still moves up to y = -18 |

## Left out

- `Character.draw` / `ctx.drawImage` (script/character.js:94-106, 269, 327): these are rendering calls.
- Image loading and the `ready` flag (script/character.js:78-88): asynchronous browser I/O.
- The half-transparent blink during the entrance (`justTime % 100 < 50`) and the reset of `globalAlpha` to 1.0 (script/character.js:217-219, 272): canvas rendering state.
- `Date.now()`: the `now` (ms) parameter of `SetComing` and `Update` stands in for the clock.
- `window.isKeyDown`: the `Input` parameter of `Update` stands in for the global key map.
- `ctx.canvas.width` / `height`: the canvas-size parameters of `Update` stand in for them.
- JavaScript numbers are modelled as Dafny `real` (coordinates), `int` (life, counter, time) and `nat` (canvas size); IEEE rounding is not modelled.
- `comingStart` starts as `null` in the source; the model starts it at 0. It is read only while entering, and `SetComing` sets it together with `isComing`.
- `comingStartPosition` is never initialised by the source's constructor (`undefined`); the model starts it at `null`, like `comingEndPosition`.
- Viper.Update: requires a pool only on the path that reads it, a controllable frame with `z` held and the counter not negative. The source crashes there on a missing pool (script/character.js:250) instead of doing nothing.
- Viper.SetShotArray: requires that the pool shots' points are distinct from each other and from the ship's points. The source's constructors always make a fresh point per character, so aliasing between them is not modelled.
- Shot.Set: takes two numbers, as its only caller passes. A `null` argument, which the source would forward to `Position.set`, is not modelled for it.
- The ship's `life`, `width` and `height`, and a shot's `width`: the model keeps them as fields, but only `draw` reads them.
- The game loop that calls the characters (ship first, then each shot, once per animation frame) is not part of this model. `Scenarios.Tick` assumes that order and a 640×480 canvas.
