/** The per-frame orchestration: an optional new ball, the paddle tick, every
    ball's tick, every ball against the paddle and then against each block
    in order, and finally the removal of the blocks without lives. */
module Game {
  import opened Geometry
  import opened Paddle
  import opened Balls
  import opened Collision
  import opened Blocks

  /** One ball's pass over the blocks: the ball afterwards, the blocks
      afterwards, and for each block tested so far whether the resolver
      reported a hit. */
  datatype BlockPass = BlockPass(ball: BallState, blocks: seq<Block>, hits: seq<bool>)

  /** A ball resolved against one obstacle. */
  function Bounce(s: BallState, obstacle: Rect): (t: BallState)
    ensures t.rect.w == s.rect.w && t.rect.h == s.rect.h
  {
    var r := Resolve(s.rect, s.velocity, obstacle);
    BallState(r.rect, r.velocity)
  }

  /** Ball `s` tested against the first `n` blocks in order; its rectangle
      and velocity carry over from one test to the next, and a block loses
      one life on each hit. Blocks from `n` on are not yet tested. */
  function PassBlocks(s: BallState, blocks: seq<Block>, n: nat): (p: BlockPass)
    requires n <= |blocks|
    ensures |p.blocks| == |blocks| && |p.hits| == n
  {
    if n == 0 then BlockPass(s, blocks, [])
    else
      var before := PassBlocks(s, blocks, n - 1);
      var block := blocks[n - 1];
      var hit := Resolve(before.ball.rect, before.ball.velocity, block.rect).hit;
      BlockPass(Bounce(before.ball, block.rect),
                before.blocks[n - 1 := if hit then Damage(block) else block],
                before.hits + [hit])
  }

  /** A pass over the first `n` blocks leaves the blocks from `n` on alone. */
  lemma {:induction false} PassBlocksUntested(s: BallState, blocks: seq<Block>, n: nat, j: nat)
    requires n <= j < |blocks|
    ensures PassBlocks(s, blocks, n).blocks[j] == blocks[j]
  {
    if n > 0 {
      PassBlocksUntested(s, blocks, n - 1, j);
    }
  }

  /** What one ball's pass does to a tested block `j`: one life fewer when
      hit, otherwise nothing. */
  lemma {:induction false} PassBlocksAt(s: BallState, blocks: seq<Block>, n: nat, j: nat)
    requires j < n <= |blocks|
    ensures PassBlocks(s, blocks, n).blocks[j] ==
      if PassBlocks(s, blocks, n).hits[j] then Damage(blocks[j]) else blocks[j]
  {
    if j < n - 1 {
      PassBlocksAt(s, blocks, n - 1, j);
    }
  }

  /** Hit `j` is the resolver's answer for block `j` against the ball as the
      first `j` tests left it. */
  lemma {:induction false} PassBlocksHits(s: BallState, blocks: seq<Block>, n: nat, j: nat)
    requires j < n <= |blocks|
    ensures var ball := PassBlocks(s, blocks, j).ball;
      PassBlocks(s, blocks, n).hits[j] == Resolve(ball.rect, ball.velocity, blocks[j].rect).hit
  {
    var before := PassBlocks(s, blocks, n - 1);
    PassBlocksStep(s, blocks, n);
    if j < n - 1 {
      PassBlocksHits(s, blocks, n - 1, j);
    }
    AppendAt(before.hits, Resolve(before.ball.rect, before.ball.velocity, blocks[n - 1].rect).hit,
             PassBlocks(s, blocks, n).hits, j);
  }

  /** One step of `PassBlocks`, unfolded: the recursive lemmas use this instead
      of the definition so that each of their proofs stays small. */
  lemma PassBlocksStep(s: BallState, blocks: seq<Block>, n: nat)
    requires 0 < n <= |blocks|
    ensures var before := PassBlocks(s, blocks, n - 1);
      var block := blocks[n - 1];
      var hit := Resolve(before.ball.rect, before.ball.velocity, block.rect).hit;
      PassBlocks(s, blocks, n) == BlockPass(Bounce(before.ball, block.rect),
        before.blocks[n - 1 := if hit then Damage(block) else block], before.hits + [hit])
  {
  }

  /** Appending keeps the earlier entries and puts the new one last. */
  lemma AppendAt(xs: seq<bool>, x: bool, ys: seq<bool>, j: nat)
    requires ys == xs + [x] && j <= |xs|
    ensures ys[j] == if j == |xs| then x else xs[j]
  {
  }

  /** The ball keeps its size through a pass. */
  lemma {:induction false} PassBlocksSize(s: BallState, blocks: seq<Block>, n: nat)
    requires n <= |blocks|
    ensures PassBlocks(s, blocks, n).ball.rect.w == s.rect.w
    ensures PassBlocks(s, blocks, n).ball.rect.h == s.rect.h
  {
    if n > 0 {
      PassBlocksSize(s, blocks, n - 1);
    }
  }

  /** All balls against the paddle and the blocks: the balls afterwards, the
      blocks afterwards, and `hits[i][j]` for ball `i` against block `j`. */
  datatype Sweep = Sweep(balls: seq<BallState>, blocks: seq<Block>, hits: seq<seq<bool>>)

  /** The first `n` balls in turn, each against the paddle and then every
      block; balls from `n` on are not yet resolved. */
  function CollideUpTo(bs: seq<BallState>, paddle: Rect, blocks: seq<Block>, n: nat): (w: Sweep)
    requires n <= |bs|
    ensures |w.balls| == |bs| && |w.blocks| == |blocks| && |w.hits| == n
  {
    if n == 0 then Sweep(bs, blocks, [])
    else
      var before := CollideUpTo(bs, paddle, blocks, n - 1);
      var p := PassBlocks(Bounce(bs[n - 1], paddle), before.blocks, |before.blocks|);
      Sweep(before.balls[n - 1 := p.ball], p.blocks, before.hits + [p.hits])
  }

  /** The balls from `n` on are not yet resolved. */
  lemma {:induction false} CollideUpToPending(bs: seq<BallState>, paddle: Rect, blocks: seq<Block>, n: nat, k: nat)
    requires n <= k < |bs|
    ensures CollideUpTo(bs, paddle, blocks, n).balls[k] == bs[k]
  {
    if n > 0 {
      CollideUpToPending(bs, paddle, blocks, n - 1, k);
    }
  }

  /** Ball `i` ends, and records its hits, exactly as its own pass left it:
      against the paddle first, then over the blocks as the balls before it
      left them. */
  lemma {:induction false} CollideUpToAt(bs: seq<BallState>, paddle: Rect, blocks: seq<Block>, n: nat, i: nat)
    requires i < n <= |bs|
    ensures var p := PassBlocks(Bounce(bs[i], paddle), CollideUpTo(bs, paddle, blocks, i).blocks, |blocks|);
      CollideUpTo(bs, paddle, blocks, n).balls[i] == p.ball &&
      CollideUpTo(bs, paddle, blocks, n).hits[i] == p.hits
  {
    var before := CollideUpTo(bs, paddle, blocks, n - 1);
    var last := PassBlocks(Bounce(bs[n - 1], paddle), before.blocks, |before.blocks|);
    CollideUpToStep(bs, paddle, blocks, n);
    if i < n - 1 {
      CollideUpToAt(bs, paddle, blocks, n - 1, i);
      SweepAt(before, last.ball, last.blocks, last.hits, CollideUpTo(bs, paddle, blocks, n), n - 1, i);
    } else {
      SweepAt(before, last.ball, last.blocks, last.hits, CollideUpTo(bs, paddle, blocks, n), n - 1, i);
    }
  }

  /** Resolving ball `k` as the next one records it at `k` and leaves the
      entries of the earlier balls alone. */
  lemma SweepAt(before: Sweep, ball: BallState, blocks: seq<Block>, row: seq<bool>, w: Sweep, k: nat, i: nat)
    requires i <= k < |before.balls| && |before.hits| == k
    requires w == Sweep(before.balls[k := ball], blocks, before.hits + [row])
    ensures i == k ==> w.balls[i] == ball && w.hits[i] == row
    ensures i < k ==> w.balls[i] == before.balls[i] && w.hits[i] == before.hits[i]
  {
  }

  /** One step of `CollideUpTo`, unfolded: the recursive lemmas use this instead
      of the definition so that each of their proofs stays small. */
  lemma CollideUpToStep(bs: seq<BallState>, paddle: Rect, blocks: seq<Block>, n: nat)
    requires 0 < n <= |bs|
    ensures var before := CollideUpTo(bs, paddle, blocks, n - 1);
      var p := PassBlocks(Bounce(bs[n - 1], paddle), before.blocks, |before.blocks|);
      CollideUpTo(bs, paddle, blocks, n) == Sweep(before.balls[n - 1 := p.ball], p.blocks, before.hits + [p.hits])
  {
  }

  /** How many of the balls hit block `j`. */
  function HitCount(hits: seq<seq<bool>>, j: nat): (n: nat)
    ensures n <= |hits|
  {
    if hits == [] then 0
    else
      var last := hits[|hits| - 1];
      HitCount(hits[..|hits| - 1], j) + (if j < |last| && last[j] then 1 else 0)
  }

  /** One more row adds its own hit on block `j`. */
  lemma HitCountAppend(hits: seq<seq<bool>>, row: seq<bool>, j: nat)
    ensures HitCount(hits + [row], j) == HitCount(hits, j) + (if j < |row| && row[j] then 1 else 0)
  {
    assert (hits + [row])[..|hits|] == hits;
  }

  lemma LivesStep(blocks: seq<Block>, before: Sweep, row: seq<bool>, w: Sweep, j: nat)
    requires j < |row| && j < |blocks|
    requires j < |before.blocks| && before.blocks[j] == blocks[j].(lives := blocks[j].lives - HitCount(before.hits, j))
    requires j < |w.blocks| && w.blocks[j] == if row[j] then Damage(before.blocks[j]) else before.blocks[j]
    requires w.hits == before.hits + [row]
    ensures w.blocks[j] == blocks[j].(lives := blocks[j].lives - HitCount(w.hits, j))
  {
    HitCountAppend(before.hits, row, j);
  }

  /** Over the sweep each block loses exactly as many lives as there were
      hits against it, and keeps its rectangle and type. */
  lemma {:induction false} CollideUpToLives(bs: seq<BallState>, paddle: Rect, blocks: seq<Block>, n: nat, j: nat)
    requires n <= |bs| && j < |blocks|
    ensures CollideUpTo(bs, paddle, blocks, n).blocks[j] ==
      blocks[j].(lives := blocks[j].lives - HitCount(CollideUpTo(bs, paddle, blocks, n).hits, j))
  {
    if n > 0 {
      var before := CollideUpTo(bs, paddle, blocks, n - 1);
      var p := PassBlocks(Bounce(bs[n - 1], paddle), before.blocks, |before.blocks|);
      CollideUpToStep(bs, paddle, blocks, n);
      CollideUpToLives(bs, paddle, blocks, n - 1, j);
      PassBlocksAt(Bounce(bs[n - 1], paddle), before.blocks, |before.blocks|, j);
      LivesStep(blocks, before, p.hits, CollideUpTo(bs, paddle, blocks, n), j);
    }
  }

  /** Balls keep their size through the collisions of a frame. */
  lemma {:induction false} CollideUpToSize(bs: seq<BallState>, paddle: Rect, blocks: seq<Block>, n: nat, i: nat)
    requires n <= |bs| && i < |bs|
    ensures CollideUpTo(bs, paddle, blocks, n).balls[i].rect.w == bs[i].rect.w
    ensures CollideUpTo(bs, paddle, blocks, n).balls[i].rect.h == bs[i].rect.h
  {
    if n > 0 {
      var before := CollideUpTo(bs, paddle, blocks, n - 1);
      CollideUpToSize(bs, paddle, blocks, n - 1, i);
      PassBlocksSize(Bounce(bs[n - 1], paddle), before.blocks, |before.blocks|);
    }
  }

  /** Every ball against the paddle and all blocks. */
  function CollideAll(bs: seq<BallState>, paddle: Rect, blocks: seq<Block>): Sweep
  {
    CollideUpTo(bs, paddle, blocks, |bs|)
  }

  /** What the host supplies for one frame: the key states, the elapsed
      time, the current screen size, and the velocity a new ball would get. */
  datatype Input = Input(spacePressed: bool, left: bool, right: bool, delta: real,
                         screenWidth: real, screenHeight: real, spawnVelocity: Vec2)

  /** The observable state of the game between frames. */
  datatype Scene = Scene(paddle: Rect, balls: seq<BallState>, blocks: seq<Block>)

  function TickAll(bs: seq<BallState>, delta: real, screenWidth: real): (ts: seq<BallState>)
    ensures |ts| == |bs|
  {
    seq(|bs|, i requires 0 <= i < |bs| => BallStep(bs[i], delta, screenWidth))
  }

  /** The balls after the optional spawn at the centre of the screen. */
  function Spawn(bs: seq<BallState>, ins: Input): (r: seq<BallState>)
    ensures |r| == |bs| + (if ins.spacePressed then 1 else 0)
    ensures r[..|bs|] == bs
  {
    if ins.spacePressed then bs + [NewBall(Vec2(ins.screenWidth * 0.5, ins.screenHeight * 0.5), ins.spawnVelocity)]
    else bs
  }

  /** Everything in a frame after the spawn: the paddle tick, the ball
      ticks, the collisions, and the removal of the dead blocks. */
  function Advance(s: Scene, ins: Input): (r: Scene)
    ensures |r.balls| == |s.balls|
    ensures forall b :: b in r.blocks ==> b.lives > 0
    ensures |r.blocks| <= |s.blocks|
  {
    var paddle := PaddleStep(s.paddle, ins.left, ins.right, ins.delta, ins.screenWidth);
    var ticked := TickAll(s.balls, ins.delta, ins.screenWidth);
    var sweep := CollideAll(ticked, paddle, s.blocks);
    Scene(paddle, sweep.balls, Alive(sweep.blocks))
  }

  /** One frame of the game. */
  function FrameStep(s: Scene, ins: Input): (r: Scene)
    ensures |r.balls| == |s.balls| + (if ins.spacePressed then 1 else 0)
    ensures forall b :: b in r.blocks ==> b.lives > 0
    ensures |r.blocks| <= |s.blocks|
  {
    Advance(s.(balls := Spawn(s.balls, ins)), ins)
  }

  /** Each block decremented by its hit count, nothing else changed. */
  function Damaged(blocks: seq<Block>, hits: seq<seq<bool>>): (r: seq<Block>)
    ensures |r| == |blocks|
  {
    seq(|blocks|, j requires 0 <= j < |blocks| => blocks[j].(lives := blocks[j].lives - HitCount(hits, j)))
  }

  /** The frame's effect on the paddle and the blocks: the paddle moves only
      by its own tick (collisions never touch it), and the blocks are the old
      ones, each down by its number of hits in the frame's sweep, with the
      dead ones removed in order. */
  lemma FrameEffects(s: Scene, ins: Input)
    ensures FrameStep(s, ins).paddle == PaddleStep(s.paddle, ins.left, ins.right, ins.delta, ins.screenWidth)
    ensures var paddle := PaddleStep(s.paddle, ins.left, ins.right, ins.delta, ins.screenWidth);
      var sweep := CollideAll(TickAll(Spawn(s.balls, ins), ins.delta, ins.screenWidth), paddle, s.blocks);
      FrameStep(s, ins).blocks == Alive(Damaged(s.blocks, sweep.hits))
  {
    var paddle := PaddleStep(s.paddle, ins.left, ins.right, ins.delta, ins.screenWidth);
    var ticked := TickAll(Spawn(s.balls, ins), ins.delta, ins.screenWidth);
    var sweep := CollideAll(ticked, paddle, s.blocks);
    forall j | 0 <= j < |s.blocks|
      ensures sweep.blocks[j] == Damaged(s.blocks, sweep.hits)[j]
    {
      CollideUpToLives(ticked, paddle, s.blocks, |ticked|, j);
    }
    assert sweep.blocks == Damaged(s.blocks, sweep.hits);
  }

  /** The stages of `Advance` one after the other. */
  lemma AdvanceStages(s: Scene, ins: Input, paddle: Rect, balls: seq<BallState>, blocks: seq<Block>)
    requires paddle == PaddleStep(s.paddle, ins.left, ins.right, ins.delta, ins.screenWidth)
    requires var w := CollideAll(TickAll(s.balls, ins.delta, ins.screenWidth), paddle, s.blocks);
      balls == w.balls && blocks == Alive(w.blocks)
    ensures Scene(paddle, balls, blocks) == Advance(s, ins)
  {
  }

  /** The game's owned state: one paddle, the blocks, and the balls, each
      ball a separate object; `states` is what the balls hold. */
  class Session {
    var player: Player
    var balls: seq<Ball>
    var blocks: seq<Block>
    ghost var states: seq<BallState>

    /** No ball object appears twice. */
    ghost predicate Distinct()
      reads this
    {
      forall i, j :: 0 <= i < j < |balls| ==> balls[i] != balls[j]
    }

    /** The balls are distinct objects and `states` is their contents. */
    ghost predicate Valid()
      reads this, balls
    {
      |states| == |balls| && Distinct() &&
      (forall i :: 0 <= i < |balls| ==> balls[i].State() == states[i])
    }

    ghost function View(): Scene
      reads this, player
    {
      Scene(player.rect, states, blocks)
    }

    /** The start of the game: the paddle, one ball in the centre, and the board. */
    constructor (screenWidth: real, screenHeight: real, velocity: Vec2, picks: seq<nat>)
      requires |picks| == BONUS_PICKS && PicksWithin(picks, GRID_W * GRID_H)
      ensures Valid() && fresh(player) && |balls| == 1 && fresh(balls[0])
      ensures View() == Scene(Rect(screenWidth / 2.0 - PLAYER_W * 0.5, screenHeight - 100.0, PLAYER_W, PLAYER_H),
                              [NewBall(Vec2(screenWidth * 0.5, screenHeight * 0.5), velocity)],
                              InitialBoard([], screenWidth, picks))
    {
      var p := new Player(screenWidth, screenHeight);
      var b := new Ball(Vec2(screenWidth * 0.5, screenHeight * 0.5), velocity);
      var board := InitBlocks([], screenWidth, picks);
      player := p;
      balls := [b];
      blocks := board;
      states := [b.State()];
    }

    /** The optional new ball, at the centre of the screen, appended last. */
    method SpawnBall(ins: Input)
      requires Valid()
      modifies this`balls, this`states
      ensures Valid() && player == old(player) && blocks == old(blocks)
      ensures |balls| == |old(balls)| + (if ins.spacePressed then 1 else 0)
      ensures balls[..|old(balls)|] == old(balls)
      ensures ins.spacePressed ==> fresh(balls[|balls| - 1])
      ensures states == Spawn(old(states), ins)
    {
      if ins.spacePressed {
        var b := new Ball(Vec2(ins.screenWidth * 0.5, ins.screenHeight * 0.5), ins.spawnVelocity);
        balls := balls + [b];
        states := states + [b.State()];
      }
    }

    /** Every ball ticks once. */
    method TickBalls(delta: real, screenWidth: real)
      requires Valid()
      modifies balls, this`states
      ensures Valid()
      ensures states == TickAll(old(states), delta, screenWidth)
    {
      for i := 0 to |balls|
        modifies balls
        invariant forall k :: 0 <= k < |balls| ==>
          balls[k].State() == if k < i then BallStep(states[k], delta, screenWidth) else states[k]
      {
        balls[i].Tick(delta, screenWidth);
      }
      states := TickAll(states, delta, screenWidth);
    }

    /** One ball against the paddle, then against every block in order. */
    method CollideBall(ball: Ball, paddle: Rect)
      modifies ball, this`blocks
      ensures var p := PassBlocks(Bounce(old(ball.State()), paddle), old(blocks), |old(blocks)|);
        ball.State() == p.ball && blocks == p.blocks
    {
      var hit, r, v := CollisionResolver(ball.rect, ball.velocity, paddle);
      ghost var start := BallState(r, v);
      ghost var initial := blocks;
      var bs := blocks;
      for j := 0 to |bs|
        modifies {}
        invariant BallState(r, v) == PassBlocks(start, initial, j).ball
        invariant bs == PassBlocks(start, initial, j).blocks
      {
        PassBlocksUntested(start, initial, j, j);
        hit, r, v := CollisionResolver(r, v, bs[j].rect);
        if hit {
          bs := bs[j := bs[j].(lives := bs[j].lives - 1)];
        }
      }
      ball.rect, ball.velocity := r, v;
      blocks := bs;
    }

    /** Ball `i` in its turn, the balls before it already resolved and the
        blocks as they left them. */
    method CollideNth(i: nat, paddle: Rect, ghost before: seq<BallState>, ghost initial: seq<Block>)
      requires Distinct() && i < |balls| == |before|
      requires forall k :: 0 <= k < |balls| ==>
        balls[k].State() == CollideUpTo(before, paddle, initial, i).balls[k]
      requires blocks == CollideUpTo(before, paddle, initial, i).blocks
      modifies balls, this`blocks
      ensures forall k :: 0 <= k < |balls| ==>
        balls[k].State() == CollideUpTo(before, paddle, initial, i + 1).balls[k]
      ensures blocks == CollideUpTo(before, paddle, initial, i + 1).blocks
    {
      CollideUpToPending(before, paddle, initial, i, i);
      CollideBall(balls[i], paddle);
    }

    /** Every ball in turn against the paddle and the blocks. */
    method CollideBalls(paddle: Rect)
      requires Valid()
      modifies balls, this`blocks, this`states
      ensures Valid()
      ensures var w := CollideAll(old(states), paddle, old(blocks));
        states == w.balls && blocks == w.blocks
    {
      ghost var before, initial := states, blocks;
      for i := 0 to |balls|
        modifies balls, this`blocks
        invariant forall k :: 0 <= k < |balls| ==>
          balls[k].State() == CollideUpTo(before, paddle, initial, i).balls[k]
        invariant blocks == CollideUpTo(before, paddle, initial, i).blocks
      {
        CollideNth(i, paddle, before, initial);
      }
      states := CollideAll(before, paddle, initial).balls;
    }

    /** Removes the blocks without lives, keeping the order of the rest. */
    method RemoveDead()
      requires Valid()
      modifies this`blocks
      ensures Valid()
      ensures blocks == Alive(old(blocks))
    {
      blocks := Alive(blocks);
    }

    /** Every ball ticks, then every ball against `paddle` and the blocks,
        then the clean-up. */
    method PlayBalls(delta: real, screenWidth: real, paddle: Rect)
      requires Valid()
      modifies balls, this`blocks, this`states
      ensures Valid()
      ensures var w := CollideAll(TickAll(old(states), delta, screenWidth), paddle, old(blocks));
        states == w.balls && blocks == Alive(w.blocks)
    {
      TickBalls(delta, screenWidth);
      CollideBalls(paddle);
      RemoveDead();
    }

    /** The rest of the frame after the spawn. */
    method Update(ins: Input)
      requires Valid()
      modifies player, balls, this`blocks, this`states
      ensures Valid() && balls == old(balls) && player == old(player)
      ensures View() == Advance(old(View()), ins)
    {
      ghost var start := View();
      player.Tick(ins.left, ins.right, ins.delta, ins.screenWidth);
      PlayBalls(ins.delta, ins.screenWidth, player.rect);
      AdvanceStages(start, ins, player.rect, states, blocks);
    }

    /** One frame: spawn, paddle tick, ball ticks, collisions, clean-up. */
    method Frame(ins: Input)
      requires Valid()
      modifies this, player, balls
      ensures Valid() && player == old(player)
      ensures |balls| == |old(balls)| + (if ins.spacePressed then 1 else 0)
      ensures balls[..|old(balls)|] == old(balls)
      ensures ins.spacePressed ==> fresh(balls[|balls| - 1])
      ensures View() == FrameStep(old(View()), ins)
    {
      SpawnBall(ins);
      Update(ins);
    }
  }
}
