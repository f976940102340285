# Bouncing balls and the evil circle, modelled in Dafny

This project models the simulation state of a browser toy. Twenty-five
coloured balls bounce inside a canvas. When two balls overlap, both take
the same fresh random colour. A pointer-driven "evil circle" removes every
ball it touches, and a counter `ballCount` tracks how many balls are left.

The model has four modules:

- `Rng` (rng.dfy): `random(min, max)` and `randomRGB()`. Each uniform
  draw of `Math.random` is a real parameter `u` with `0 <= u < 1`.
- `Balls` (balls.dfy): a ball record. `Step` is `Ball.update`.
  It forces the velocity sign back inward at a wall, then moves the ball.
  `Scan`/`Infected` are `Ball.collisionDetect`, the recolouring of
  overlapping balls. `Live` is the live-ball count.
- `Evil` (evil.dfy): `Clamp` is one axis of `EvilCircle.checkBounds`.
  `Sweep`/`Killed` are `EvilCircle.collisionDetect`, which removes
  overlapping balls and counts the removals.
- `Simulation` (simulation.dfy): the `EvilCircle` class and the `World`
  class. `World` holds the canvas size, the ball collection (a `seq` of
  records that the methods reassign) and the counter. Its constructor runs
  the creation loop, and `Tick` is one call of `loop()`.

Every state-changing method is proved against a pure function of the old
state. The properties of those functions are proved as lemmas. The world
invariant `Valid()` says:

- the collection holds 25 balls;
- `ballCount` equals the number of live balls;
- each ball keeps the radius and speed bounds it was created with;
- each ball stays within one step of its band `[size, dim - size]`.

The constructor establishes `Valid()` and every operation preserves it. It
follows that `0 <= ballCount <= 25`. A flag goes only from alive to
removed, and a removed ball is never moved or recoloured.

Modelling choices:

- The source's `exists` flag is called `alive`, because `exists` is a
  Dafny keyword.
- Positions and velocities are integers. Every value the source gives a
  ball's position and velocity comes from `random`, which returns integers.
  The evil circle's position comes from pointer coordinates, which the model
  also takes as integers (see the pointer line under "## Left out").
- `Math.hypot(dx, dy) < r` is written `0 < r && dx*dx + dy*dy < r*r`.
  This is exactly the same test over the reals.
- `this !== ball` becomes "another index". The balls are distinct
  objects, each stored once in the collection.
- The colour that `randomRGB` returns when ball `i`'s scan infects ball `j`
  is `palettes[i][j]`, a parameter of `Tick`. The creation loop's colour is
  `RandomRGB` of three of the ball's draws.

Two overlapping balls need not end a tick with the same colour. A ball that
ball `i` infects keeps its own fresh colour, and ball `i` ends with the
colour of the last ball it infected (js/main.js:62-69). So a ball that
overlaps two others shares a colour with only the later one: see
`Balls.InfectedEffect` and `Balls.InfectionNotPairwise`.

## Model

| member | source | states |
|---|---|---|
| Rng.Random | js/main.js:16-18 | for a draw 0 <= u < 1 and min <= max, floor(u*(max-min+1)) + min lies in [min, max] |
| Rng.RandomReaches | js/main.js:16-18 | every integer of [min, max] is produced by some draw in [0, 1), so both bounds are reachable |
| Rng.RandomRGB | js/main.js:19-21 | each of the three channels lies in [0, 255] |
| Balls.Step | js/main.js:50-58 | a removed ball is unchanged; after reflection velX >= 0 at the left wall and velX <= 0 at the right wall when width > 2*size (same for velY); speeds, colour, size and flag are kept; the ball moves by exactly its new velocity; away from walls the velocity is kept; a ball within one step of its band stays so |
| Balls.Scan | js/main.js:62-71 | the first n iterations of the loop keep the collection's length; what they do to each ball is stated by Balls.ScanEffect |
| Balls.Infected | js/main.js:60-72 | `Ball.collisionDetect` keeps the collection's length; its effect on each ball is stated by Balls.InfectedEffect |
| Balls.InfectionNotPairwise | js/main.js:62-69 | when ball 0 infects balls 1 and 2 with different colours, ball 0 ends with ball 2's colour and differs from ball 1 |
| Balls.LastHit | js/main.js:62-69 | the index it returns is a live, other, overlapping ball, and no later index is one; -1 means none is |
| Balls.ScanEffect | js/main.js:62-71 | the first n loop iterations change colours only; a ball other than i takes its palette colour exactly when it is infected; ball i takes the colour of the last infected ball |
| Balls.InfectedEffect | js/main.js:60-72 | collisionDetect on a removed ball changes nothing; otherwise only colours change, overlapping live others are recoloured, non-overlapping and removed balls keep their colour, and ball i ends with, and shares, the last overlapping ball's colour |
| Balls.Live | js/main.js:147-148 | the live count never exceeds the number of balls |
| Balls.LiveSameFlags | js/main.js:68 | recolouring or moving balls leaves the live count unchanged |
| Balls.LiveRemoveOne | js/main.js:137-138 | clearing one live ball's flag lowers the live count by exactly one, matching `ballCount--` |
| Balls.LiveAppend | js/main.js:160-161 | pushing a live ball raises the live count by one, matching `ballCount++` |
| Evil.Clamp | js/main.js:123-128 | with dim >= 2*size the coordinate ends in [size, dim - size]; it is unchanged exactly when it was already inside that band; outside it lands on the nearer edge |
| Evil.ClampIdempotent | js/main.js:123-128 | clamping twice is the same as clamping once |
| Evil.Sweep | js/main.js:130-143 | `EvilCircle.collisionDetect` keeps the collection's length; its effect on each ball is stated by Evil.SweepEffect and Evil.SweepAll |
| Evil.Killed | js/main.js:136-138 | at most one removal is counted per ball visited |
| Evil.SweepEffect | js/main.js:131-142 | after n iterations each ball below n that was alive and overlapping is removed, and every other ball is exactly as before |
| Evil.LiveAfterSweep | js/main.js:136-138 | the sweep lowers the live count by exactly the number of balls it removes |
| Evil.SweepAll | js/main.js:130-143 | every live overlapping ball ends removed; all other balls are unchanged; no position changes; flags only go from alive to removed; the live count falls by the number removed |
| Simulation.NewBall | js/main.js:151-159 | a created ball is alive with size in [10, 20], x in [size, width - size], y in [size, height - size], velX and velY in [-7, 7], and the randomRGB colour of its draws, each channel in [0, 255] |
| Simulation.CreateBalls | js/main.js:150-163 | the loop builds exactly 25 live balls, ball k from the k-th draws, and ballCount ends 25, the live count |
| Simulation.RecolourKeeps | js/main.js:68 | a colour-only change keeps balls well formed and the live count unchanged |
| Simulation.SweepKeeps | js/main.js:137 | removing balls keeps every ball well formed |
| Simulation.Visit | js/main.js:174-178 | one ball's turn keeps the collection's length; its effect is stated by Simulation.VisitEffect |
| Simulation.BallPass | js/main.js:173-179 | the tick's ball loop keeps the collection's length; its effect is stated by Simulation.BallPassEffect |
| Simulation.TickBalls | js/main.js:169-183 | a whole tick keeps the collection's length; its effect is stated by Simulation.TickEffect |
| Simulation.VisitEffect | js/main.js:173-179 | one ball's turn keeps every flag and radius, leaves removed balls unchanged and keeps balls well formed |
| Simulation.BallPassEffect | js/main.js:173-179 | the tick's ball loop keeps every flag and radius, leaves removed balls unchanged and keeps balls well formed |
| Simulation.TickEffect | js/main.js:169-186 | over a tick a flag only goes from alive to removed, a removed ball is untouched, and the live count never grows |
| Simulation.EvilCircle.constructor | js/main.js:79-83 | the circle starts at the given position with radius 10 and step 20 |
| Simulation.EvilCircle.CheckBounds | js/main.js:123-128 | each coordinate becomes its clamp against the canvas |
| Simulation.EvilCircle.MoveTo | js/main.js:94-111 | a pointer move puts the circle at the clamped pointer position, inside [size, dim - size] |
| Simulation.EvilCircle.CollisionDetect | js/main.js:130-143 | the collection becomes the sweep of the old one, ballCount falls by the number removed, and the world invariant is kept |
| Simulation.World.constructor | js/main.js:146-166 | start-up stores the given canvas size and establishes the invariant, with 25 created balls, ballCount = 25 and the evil circle at (random(0, width), random(0, height)) |
| Simulation.World.UpdateBall | js/main.js:50-58 | ball i becomes its Step and nothing else changes; the invariant is kept |
| Simulation.World.BallCollisionDetect | js/main.js:60-72 | the collection becomes Infected(old, i, palette) and ballCount is unchanged; the invariant is kept |
| Simulation.World.Tick | js/main.js:169-186 | balls move and scan in order, then the circle clamps and sweeps; the invariant is kept; flags only go from alive to removed; removed balls are untouched; 0 <= ballCount <= old ballCount <= 25 |

## Left out

- Rendering is not modelled: both `draw` methods, the translucent overlay in `loop` and the `para.textContent` label "BALL COUNT: n". They only write to the canvas or the page.
- `Math.random` is not modelled. Each draw is a parameter in [0, 1).
- `randomRGB` is modelled on its three channels; the `rgb(...)` string formatting is not.
- Floating point is not modelled: coordinates are integers and `Math.hypot` is the squared-distance test. A pointer position with a fraction of a pixel is outside the model.
- Setting up the canvas, `window.innerWidth`/`innerHeight` and `getBoundingClientRect` are not modelled. The canvas size is a constructor parameter. The pointer position is passed already translated to canvas coordinates.
- The keyboard listener is not modelled. `CONTROL_MODE` is the constant `"mouse"`, so that branch never runs.
- Scheduling is not modelled. `requestAnimationFrame`, the endless loop and the interleaving of input events with frames are represented by one `Tick` and separate `MoveTo` calls.
- The `ball &&` guard in the evil circle's loop is not modelled. A collection element is never missing, so the guard is always true.
- test/test.js holds no logic of its own. It imports a function that does not exist and repeats `random` and `randomRGB`.
- Simulation.World.constructor: requires a canvas wider and taller than 40 pixels, the largest ball's diameter. The source runs on any viewport, but on a smaller one it draws positions from an empty range.
- Simulation.World.UpdateBall: requires the world invariant, while the source updates any ball. The tick only calls it on a valid world.
- Simulation.World.BallCollisionDetect: requires the world invariant, for the same reason as UpdateBall.
- Simulation.EvilCircle.CollisionDetect: requires the world invariant, while the source sweeps any collection. The tick only calls it on a valid world.
- Rng.Random: the bound is stated only for min <= max. The source leaves min > max unchecked. The only callers that can have min > max are the creation loop's position draws on a canvas under 40 pixels, which Simulation.World.constructor excludes.
- Simulation.World.Tick: the colours in `palettes` are not constrained to randomRGB outputs, so the [0, 255] channel bound is not carried through ball-ball infection.
