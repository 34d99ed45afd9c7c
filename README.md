# Flappy Bird with gesture control: a Dafny model of the game simulation

The game is a side-scroller. A bird falls under gravity. A hand gesture seen by
the webcam makes it jump. Pairs of pipes scroll in from the right, and the game
ends when the bird's box overlaps a pipe with positive area. This project models the simulation in
`src/flappy_bird.py` and proves its properties:

- `Bird.jump`;
- `update_game`, which moves the bird, scrolls the pipes, spawns a pair, prunes
  the list and tests for a collision;
- `check_collision`;
- `track_hand`;
- the setup and the per-tick control decision of `main`.

## Modules

- `Config` (config.dfy): the constants of the game.
  - Field: 600 x 800.
  - Bird motion: initial velocity 5, gravity 0.5, jump force -10.
  - Pipes: width 50, gap 200, spawn interval 200.
  - Bird box: 40 x 40 at x = 50.
  - Random top-pipe height: in [100, 499].
- `Geometry` (geometry.dfy): integer rectangles and the strict overlap rule of
  `colliderect`. Also the bird's box, whose real-valued `y` is truncated toward
  zero into the integer rectangle, and the collision search `CheckCollision`.
  `CheckCollision` is proved against the predicate `Collides`.
- `Pipes` (pipes.dfy): the pipe list as a value.
  - The three steps of a tick are functions: `Scrolled`, `MaybeSpawn` and
    `Prune`. Their composition is `Advance`.
  - The invariant `WellFormed` requires all of these:
    - the list is non-empty;
    - its newest pipe is at x >= 400;
    - x is non-decreasing along the list;
    - every x lies in (-50, 600];
    - the list is made of whole top/bottom pairs with the gap geometry.
  - Lemmas prove that the initial pair satisfies the invariant and that every
    tick keeps it. The non-emptiness part is what `pipes[-1]` needs.
- `Gesture` (gesture.dfy): `TrackHand`, which turns the detected hands into
  `Some(Up)`, `Some(Down)` or `None`.
- `Physics` (physics.dfy): the bird's motion as a value. `Step` is one tick:
  an optional jump, then the position moves by the velocity, then gravity is
  added. `Glide` is a run of ticks. Lemmas give the closed form of free fall
  and the effect of a jump.
- `Game` (game.dfy): the class `Game`, whose fields are updated in place:
  - `y` is `Bird.y`;
  - `speed` is the module-level `bird_speed`;
  - `pipes` is the list.

  Its members are the constructor (the setup in `main`), `Jump`, `ScrollPipes`
  (the in-place scrolling loop), `UpdateGame`, `Tick` (one iteration of the main
  loop) and `Run` (the main loop over a finite run of frames). Each method states
  the new state in terms of the functions of `Physics` and `Pipes`; for `Run`
  these are the folds `Glide` over `Jumps` (the bird) and `Fields` (the pipes).

## Behaviour worth noting

- The velocity starts at 5: the module-level `bird_speed = 5`
  (src/flappy_bird.py:8) is never reset.
- `update_game` adds the velocity to the position first and applies gravity
  afterwards (src/flappy_bird.py:55-56). So ten ticks of free fall from rest
  drop the bird by 22.5 (`Physics.TenTicksFromRest`).
- When no camera frame arrives, the whole tick is skipped (`continue`,
  src/flappy_bird.py:99-100): the bird and the pipes do not move.
- Pruning keeps exactly the pipes with `x > -50`: it tests the left edge.
- `randint(100, 500)` excludes its upper bound, so the top height is in
  [100, 499].
- New pairs are appended at x = 600, the largest x in the list. So the list,
  oldest first, is ordered by non-decreasing x, and pruning drops a prefix
  (`Pipes.PruneSortedIsSuffix`).
- The bird is not kept inside the field. A bird whose box is entirely above or
  below the field never collides (`Pipes.OffFieldNeverCollides`), so leaving
  the field vertically does not end the game.

## Model

| member | source | states |
|---|---|---|
| `Geometry.RectCoord` | src/flappy_bird.py:47 | the bird's real height becomes an integer rectangle coordinate within one unit of it, rounded toward zero |
| `Geometry.BirdRect` | src/flappy_bird.py:47 | the bird's box is 40 x 40 at x = 50, with the converted height as its top edge |
| `Geometry.CheckCollision` | src/flappy_bird.py:46-51 | the scan of the pipes returns true exactly when some pipe strictly overlaps the bird's box |
| `Geometry.PairCollision` | src/flappy_bird.py:46-51 | against one top/bottom pair, the bird collides iff it reaches the pair horizontally and its box is neither inside the gap nor entirely above or below the field |
| `Pipes.SpawnPair` | src/flappy_bird.py:62-65 | a new pair lies at x = 600 and is 50 wide; the top starts at y = 0 and is as high as the draw; top height + 200 + bottom height = 800 |
| `Pipes.Scrolled` | src/flappy_bird.py:58-59 | every pipe's x decreases by exactly 1; y, width, height and list length are unchanged |
| `Pipes.MaybeSpawn` | src/flappy_bird.py:61-65 | the old list is kept as a prefix; exactly two rects are appended, and they are a spawned pair, iff the last pipe's x < 400; otherwise nothing changes |
| `Pipes.Prune` | src/flappy_bird.py:67 | the result is no longer than the input, and every kept pipe has x > -50 |
| `Pipes.PruneMembers` | src/flappy_bird.py:67 | a pipe is in the pruned list iff it was in the list and has x > -50 |
| `Pipes.PruneAppend` | src/flappy_bird.py:67 | pruning distributes over concatenation, so relative order is kept |
| `Pipes.PruneKeepsAll` | src/flappy_bird.py:67 | a list whose pipes all have x > -50 is unchanged by pruning |
| `Pipes.PruneKeepsLast` | src/flappy_bird.py:67 | if the newest pipe has x > -50 it remains the last element, so the pruned list is non-empty |
| `Pipes.PruneSortedIsSuffix` | src/flappy_bird.py:67 | on a list ordered by x, pruning removes a prefix (the oldest pipes) |
| `Pipes.PairedAppend` | src/flappy_bird.py:64-65 | appending whole pairs to a list of whole pairs gives a list of whole pairs |
| `Pipes.ScrolledPaired` | src/flappy_bird.py:58-59 | scrolling keeps the pair structure and each pair's geometry |
| `Pipes.ScrolledSorted` | src/flappy_bird.py:58-59 | scrolling every pipe by the same amount keeps the list ordered by x |
| `Pipes.ScrolledWithin` | src/flappy_bird.py:58-59 | scrolling moves the range of x values one unit to the left |
| `Pipes.PrunePaired` | src/flappy_bird.py:67 | pruning drops both halves of a pair or neither, because they share x |
| `Pipes.PairedWithinHeight` | src/flappy_bird.py:62-65 | every pipe of a paired list lies vertically within [0, 800] |
| `Pipes.InitialWellFormed` | src/flappy_bird.py:88-91 | the initial pair satisfies the list invariant (non-empty, ordered, paired, within bounds) |
| `Pipes.ScrollStep` | src/flappy_bird.py:58-59 | after scrolling, the list is non-empty, ordered and paired; its x values lie in (-51, 599]; the last x is at least 399 |
| `Pipes.SpawnStep` | src/flappy_bird.py:61-65 | after the spawn step the last pipe has x >= 400, and the list stays ordered and paired with x in (-51, 600] |
| `Pipes.PruneStep` | src/flappy_bird.py:67 | pruning the spawned list restores the full invariant, non-emptiness included |
| `Pipes.AdvanceKeepsWellFormed` | src/flappy_bird.py:58-67 | every tick of the pipe field keeps the invariant, so `pipes[-1]` is always defined |
| `Pipes.OffFieldNeverCollides` | src/flappy_bird.py:46-51 | a bird entirely above or below the field collides with no pipe |
| `Gesture.TrackHand` | src/flappy_bird.py:73-82 | None iff no hand was detected; Up iff the first hand's thumb tip is above its index tip; Down otherwise |
| `Gesture.OnlyFirstHandCounts` | src/flappy_bird.py:74-81 | hands after the first never change the gesture |
| `Physics.JumpForgetsSpeed` | src/flappy_bird.py:110-114 | a tick with a jump moves the bird up by exactly 10 and leaves velocity -9.5, whatever the earlier velocity |
| `Physics.FreeFall` | src/flappy_bird.py:55-56 | after n ticks without a jump, velocity = v0 + 0.5 n and position = y0 + n v0 + 0.5 n (n - 1) / 2 |
| `Physics.TenTicksFromRest` | src/flappy_bird.py:55-56 | ten ticks from rest give velocity 5 and a drop of 22.5 |
| `Game.Jumps` | src/flappy_bird.py:98-112 | a run of frames yields at most one tick per frame, and exactly one per frame when every frame has a camera image |
| `Game.Fields` | src/flappy_bird.py:98-115 | the pipe list after a run of frames, each frame with an image advancing it once with its draw, satisfies the pipe-field invariant |
| `Game.Game.constructor` | src/flappy_bird.py:86-91 | start: y = 400, velocity 5, one spawned pair at x = 600 whose heights plus the gap fill the field; the invariant holds |
| `Game.Game.Jump` | src/flappy_bird.py:34-36 | the velocity becomes -10 whatever it was |
| `Game.Game.ScrollPipes` | src/flappy_bird.py:58-59 | the in-place loop leaves the list equal to the scrolled list |
| `Game.Game.UpdateGame` | src/flappy_bird.py:53-71 | y' = y + v, then v' = v + 0.5; the pipes become scrolled, spawned and pruned; the invariant is kept; game over iff the bird collides with the pruned list |
| `Game.Game.Tick` | src/flappy_bird.py:98-115 | no frame: nothing changes and the game goes on; otherwise Up jumps first (y drops by 10, velocity ends at -9.5), then one update, and game over iff a collision |
| `Game.Game.Run` | src/flappy_bird.py:93-115 | the main loop keeps the invariant, stops only at a collision; the bird's motion is the composition of the ticks that ran, and the pipe list is the fold of their pipe updates |

## Left out

- Rendering and windowing are left out: `draw_game`, the display set-up, `flip` and the 60 ticks per second pacing. They draw the state and do not change it.
- Camera and landmark I/O is left out: capture, colour conversion, `hands.process`, drawing the landmarks, the preview window and the teardown. A tick receives only whether a frame arrived and the detected hands' thumb-tip and index-tip heights.
- The QUIT event loop is not modelled. When a QUIT event arrives, `running` becomes false and the current iteration still runs to its end. `Game.Game.Run` instead processes a given finite sequence of frames.
- `np.random.randint` is not modelled. Each draw is a parameter required to lie in [100, 499], the range the call guarantees.
- The `print("Game Over")` side effect is left out.
- Floating-point arithmetic is not modelled. Positions and velocities are exact reals. Every value the game produces is a multiple of 0.5, so no rounding occurs.
- Geometry.RectCoord: assumes that `pygame.Rect` converts a float coordinate by truncation toward zero, like a C integer cast. The library's conversion code is not part of this model.
- Geometry.Overlaps: this is the standard strict overlap rule. pygame's extra rule that rectangles of zero size never collide is not modelled, because every rectangle here has positive size.
- Pipe rectangles are values, not shared objects. The source mutates each `pygame.Rect` in place, but no rectangle is referenced from two places, so replacing an element has the same effect.
- Game.Game.UpdateGame: the draw is passed on every call but is used only when a pair is spawned. The source draws only then.
- Game.Game.Run: does not state that ticks before the last one had no collision. That follows from the loop stopping at the first collision, but it is not written as a postcondition.
