# Breakout rule engine in Dafny

This project models the rule engine of YABOG, a small breakout game written in
Rust on top of macroquad, and proves properties of it. The engine has six
parts, all in `src/main.rs`:

- the paddle tick: a direction from two keys, then clamping to the screen;
- the ball tick: integration, two wall snaps and the ceiling rule;
- the axis-aligned collision resolver with positional correction;
- blocks: their two lives, their colour and their removal;
- the board initialiser: a 6 by 6 grid plus three bonus re-tags;
- the per-frame sequence: an optional new ball, then the paddle tick and every
  ball's tick, then every ball against the paddle and each block in order,
  then the removal of blocks without lives.

Arithmetic is on exact reals (`real` in place of `f32`).

The modules follow the program's structure:

- `Geometry`: `Vec2`, `Rect`, the overlap rectangle and sign helpers.
- `Paddle`: the paddle constants, `PaddleStep` and class `Player`.
- `Balls`: the ball constants, `BallStep` and class `Ball`.
- `Collision`: `Resolve` and the resolver method `CollisionResolver`.
- `Blocks`: the block datatype, colour, `Alive` (the `retain`) and the board
  (`InitialBoard` and the method `InitBlocks`).
- `Game`: the frame as a function on values (`FrameStep`) and class `Session`
  holding the paddle, the ball objects and the block vector. Its `Frame`
  method is proved equal to `FrameStep` on the session's abstract state
  (`View`).

Objects whose fields the game updates in place (`Player`, `Ball`) are classes
whose methods are proved against a pure step function. `collision_resolver`
mutates its two `&mut` arguments, so it becomes a method with those values
going in and coming out. `init_blocks` and the frame step keep their loops.

The library helpers are given this meaning:

- `Rect::intersect` gives the overlap rectangle when
  `max(left) <= min(right)` and `max(top) <= min(bottom)`, so touching
  rectangles intersect.
- `signum` returns +1 for 0, as Rust's `f32::signum(+0.0)` does. The
  centre-to-centre difference of equal coordinates is +0.0.

Values the program reads from the host are parameters:

- the screen width and height;
- the three key states;
- the frame time;
- the velocity of a new ball;
- the three random indices of `init_blocks`, each below the vector's length,
  as `gen_range(0, len)` guarantees.

## Model

| member | source | states |
|---|---|---|
| Geometry.Sign | src/main.rs:150 | the sign is +1 or -1, +1 exactly for non-negative values (so sign(0) = +1), and sign times value is the absolute value |
| Geometry.Abs | src/main.rs:155 | the result is non-negative and is the value or its negation |
| Geometry.Center | src/main.rs:147-148 | the centre lies half the width and half the height from the corner |
| Geometry.Intersect | src/main.rs:143-146 | an intersection exists exactly when the rectangles overlap; it has non-negative size and lies inside both rectangles |
| Geometry.IntersectIsCommonPart | src/main.rs:143-146 | a point lies in both rectangles exactly when they intersect and the point lies in the intersection, so the intersection is the whole overlap |
| Paddle.Direction | src/main.rs:39-43 | -1 exactly for left alone, +1 exactly for right alone, 0 exactly when both keys or neither are held |
| Paddle.ClampX | src/main.rs:50-58 | in-range positions are kept; past the right edge gives the right limit; below 0 gives 0 when the paddle fits; in every case, a screen narrower than the paddle included, the result is min(max(x, 0), screen width - w) |
| Paddle.PaddleStep | src/main.rs:38-59 | y, width and height are unchanged; x ends in [0, screen width - w] whenever the screen is at least as wide as the paddle |
| Paddle.PaddleMoves | src/main.rs:39-46 | left alone moves by -delta*700 before clamping, right alone by +delta*700, both or neither only clamp |
| Paddle.PaddleRestsInside | src/main.rs:39-58 | a paddle inside the screen with no net direction stays exactly where it is |
| Paddle.Player.constructor | src/main.rs:23-32 | the paddle is 150 by 40, centred horizontally, 100 above the bottom edge |
| Paddle.Player.Tick | src/main.rs:38-59 | the new rectangle is `PaddleStep` of the old one, with y, w, h unchanged and x inside the screen when it fits |
| Balls.NewBall | src/main.rs:105-115 | a new ball is 50 by 50 at the given position with the given velocity |
| Balls.BallStep | src/main.rs:121-138 | velocity.x and the size never change; y is position plus velocity*delta*400; velocity.y becomes 1 exactly when the new y is negative and is kept otherwise; x is the moved x when in range, 1 after the left snap, and -1 when the right check fires (past the right edge, or after a left snap on a screen narrower than w + 1) |
| Balls.BallStepLeftBound | src/main.rs:126-132 | after a tick x is at least -1, and negative only when it is exactly -1 |
| Balls.RightWallIsNotABounce | src/main.rs:130-132 | crossing the right edge below the ceiling moves the ball to x = -1 with its velocity unchanged |
| Balls.Ball.constructor | src/main.rs:105-115 | the new object holds `NewBall` of its position and velocity |
| Balls.Ball.Tick | src/main.rs:121-138 | the new rectangle and velocity are `BallStep` of the old ones |
| Collision.Resolve | src/main.rs:142-164 | the moving rectangle keeps its width and height |
| Collision.ResolveMeaning | src/main.rs:142-164 | a hit exactly when the rectangles overlap, no change otherwise; a wider-than-tall overlap changes only y and velocity.y, any other overlap (a tie included) only x and velocity.x; the chosen coordinate moves by the overlap depth away from b's centre and the chosen velocity component keeps its magnitude and points away from b |
| Collision.CollisionResolver | src/main.rs:142-164 | the returned flag, rectangle and velocity are exactly `Resolve` of the inputs |
| Collision.TieResolvesOnX | src/main.rs:151-161 | with overlap width equal to height the bounce is on x: y and velocity.y are unchanged, velocity.x keeps its magnitude |
| Collision.PushOutLeavesTouching | src/main.rs:157-160 | an overlap of b's left edge resolved on x leaves the right edge of a exactly on b's left edge, moving left at the same speed |
| Blocks.NewBlock | src/main.rs:74-85 | a new block has 2 lives, the given type, and a 100 by 40 rectangle at the given position |
| Blocks.BlockColor | src/main.rs:88-94 | green exactly for SpawnBallOnDeath; red exactly for Regular with 2 lives; orange exactly for Regular with any other lives value |
| Blocks.Damage | src/main.rs:221-222 | one life fewer, rectangle and type unchanged |
| Blocks.Alive | src/main.rs:228 | a block is kept exactly when it was present with lives > 0 |
| Blocks.AliveAppend | src/main.rs:228 | the filter works piecewise, so survivors keep their relative order |
| Blocks.AliveKeepsLiving | src/main.rs:228 | a vector whose blocks all have lives is kept unchanged |
| Blocks.BlockLifecycle | src/main.rs:82-94 | a Regular block is red with 2 lives, orange and kept after one hit, and removed after the second |
| Blocks.GridPosition | src/main.rs:167-177 | grid cells start 50 below the top and lie within a band 606 wide centred on the screen |
| Blocks.GridCellsApart | src/main.rs:167-182 | two different grid blocks never overlap, not even at an edge, thanks to the one-unit padding |
| Blocks.Grid | src/main.rs:175-182 | the grid has 6*6 blocks |
| Blocks.Retag | src/main.rs:183-186 | retagging keeps the vector's length |
| Blocks.RetagAt | src/main.rs:183-186 | retagging changes only the type, to SpawnBallOnDeath exactly at picked indices |
| Blocks.InitialBoard | src/main.rs:166-187 | the board has the old blocks plus 36 |
| Blocks.InitBlocks | src/main.rs:166-187 | the two loops produce exactly `InitialBoard`: the grid appended, then the picks retagged |
| Blocks.InitialBoardAt | src/main.rs:166-186 | old blocks keep rectangle and lives; grid block i is `NewBlock` at column i%6, row i/6, of type SpawnBallOnDeath exactly when picked |
| Blocks.FreshBoard | src/main.rs:166-187 | on an empty vector: 36 blocks, block i at ((sw-606)/2 + (i%6)*101, 50 + (i/6)*41) sized 100 by 40 with 2 lives, Regular exactly when not picked, and between 1 and 3 SpawnBallOnDeath blocks, exactly the picked indices |
| Game.Bounce | src/main.rs:218 | a ball resolved against an obstacle keeps its size |
| Game.PassBlocks | src/main.rs:220-224 | the pass keeps the number of blocks and records one hit flag per tested block |
| Game.PassBlocksUntested | src/main.rs:220-224 | blocks not yet tested in the pass are as they were |
| Game.PassBlocksAt | src/main.rs:220-224 | a tested block loses exactly one life when hit and is unchanged otherwise |
| Game.PassBlocksHits | src/main.rs:220-222 | hit j is the resolver's answer for block j against the ball as the earlier block tests left it |
| Game.PassBlocksSize | src/main.rs:220-224 | the ball keeps its size through the pass |
| Game.CollideUpTo | src/main.rs:217-225 | the sweep keeps the number of balls and blocks and records one hit row per resolved ball |
| Game.CollideUpToPending | src/main.rs:217-225 | balls not yet resolved in the sweep are as they were |
| Game.CollideUpToAt | src/main.rs:217-225 | ball i ends, and records its hits, as its own pass left it: the paddle first, then every block as the earlier balls left them |
| Game.CollideUpToLives | src/main.rs:217-225 | each block loses exactly as many lives as there were hits against it, keeping its rectangle and type |
| Game.CollideUpToSize | src/main.rs:217-225 | balls keep their size through all collisions |
| Game.TickAll | src/main.rs:213-215 | ticking keeps the number of balls |
| Game.Spawn | src/main.rs:204-209 | a space press appends exactly one ball and keeps the old ones as a prefix |
| Game.Advance | src/main.rs:211-228 | ball count unchanged, no block without lives survives, and the block count never grows |
| Game.FrameStep | src/main.rs:204-228 | a frame adds one ball exactly when space is pressed, otherwise the count is kept; no surviving block is without lives; the number of blocks never grows |
| Game.FrameEffects | src/main.rs:211-228 | the paddle after a frame is only its tick, untouched by collisions; the blocks are the old ones each decremented by its hit count from the sweep, then filtered by `Alive` |
| Game.Session.constructor | src/main.rs:191-200 | the game starts with the paddle, one ball at the screen centre and the initial board |
| Game.Session.SpawnBall | src/main.rs:204-209 | the ball vector grows by one fresh ball exactly on a space press, keeping the old ones as a prefix; the ball states follow `Spawn` |
| Game.Session.TickBalls | src/main.rs:213-215 | every ball object holds its `BallStep` result |
| Game.Session.CollideBall | src/main.rs:218-224 | the ball and the blocks are exactly what `PassBlocks` gives after the paddle bounce |
| Game.Session.CollideNth | src/main.rs:217-224 | resolving ball i in its turn moves the ball objects and the blocks from the sweep state before ball i to the one after it |
| Game.Session.CollideBalls | src/main.rs:217-225 | the balls and the blocks are exactly what `CollideAll` gives |
| Game.Session.RemoveDead | src/main.rs:228 | the blocks become `Alive` of the old blocks |
| Game.Session.PlayBalls | src/main.rs:213-228 | after the ball ticks, the sweep against the given paddle and the clean-up, the ball states and the blocks are those of `CollideAll` over `TickAll` of the old states, the blocks filtered by `Alive` |
| Game.Session.Update | src/main.rs:211-228 | the session's state after the paddle tick, ball ticks, collisions and clean-up is `Advance` of the state before, with the same ball objects and paddle |
| Game.Session.Frame | src/main.rs:204-228 | a frame keeps the paddle object and the old balls as a prefix, adds one fresh ball exactly on a space press, and moves the session's state by `FrameStep` |

## Left out

- Rendering is not modelled: `Player::draw`, `Ball::draw`, the
  `draw_rectangle` of `Block::draw`, `clear_background` and `window_conf` are
  side effects only. The colour choice of `Block::draw` is modelled.
- Host input and timing are parameters: `is_key_down`, `is_key_pressed`,
  `get_frame_time`, `screen_width` and `screen_height`. The source calls
  `get_frame_time` once for the paddle and once per ball; these are modelled
  as one `delta` for the frame, because macroquad returns the same time
  within a frame.
- The `async` main loop and `next_frame().await` are host scheduling; one
  frame (`Frame`) is modelled.
- The `println!` calls in the paddle clamp are logging.
- Balls.NewBall: the random `gen_range(-1, 1)` and `normalize()` of the new
  ball's velocity are not modelled; the velocity is an input.
- Blocks.InitBlocks: the random indices are an input sequence of three
  indices within the vector, not a random draw.
- IEEE `f32` rounding, NaN and infinity are not modelled; the arithmetic is
  on exact reals.
- The `i32` width of `lives` is not modelled (`int`). A block loses at most
  one life per ball per frame, so wrap-around is out of reach in play.
- The code of `Rect::intersect` and `Vec2::signum` is not part of this model.
  Their behaviour is stated as `Geometry.Intersect` and `Geometry.Sign`
  (see above).
- SpawnBallOnDeath has no effect in the source beyond its colour: no code
  spawns a ball when such a block dies. The model keeps it that way.
- `Vec<Block>::retain` filters in place; the model reassigns the `blocks`
  field to the filtered sequence.
