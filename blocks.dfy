/** Blocks: their lives, their colour, their removal, and the initial board. */
module Blocks {
  import opened Geometry

  const BLOCK_W: real := 100.0
  const BLOCK_H: real := 40.0
  const GRID_W: nat := 6
  const GRID_H: nat := 6
  const BONUS_PICKS: nat := 3

  datatype BlockType = Regular | SpawnBallOnDeath

  /** `lives` is a signed counter: it may drop below zero within a frame. */
  datatype Block = Block(rect: Rect, lives: int, blockType: BlockType)

  datatype Color = Red | Orange | Green

  /** A new block at `pos`, of the standard size, with two lives. */
  function NewBlock(pos: Vec2, blockType: BlockType): (b: Block)
    ensures b.lives == 2 && b.blockType == blockType
    ensures b.rect.x == pos.x && b.rect.y == pos.y && b.rect.w == BLOCK_W && b.rect.h == BLOCK_H
  {
    Block(Rect(pos.x, pos.y, BLOCK_W, BLOCK_H), 2, blockType)
  }

  /** The colour a block is drawn in, decided by its type and its lives alone. */
  function BlockColor(b: Block): (c: Color)
    ensures c == Green <==> b.blockType == SpawnBallOnDeath
    ensures c == Red <==> b.blockType == Regular && b.lives == 2
    ensures c == Orange <==> b.blockType == Regular && b.lives != 2
  {
    match b.blockType
    case Regular => (match b.lives case 2 => Red case _ => Orange)
    case SpawnBallOnDeath => Green
  }

  /** A block after one collision: one life fewer, nothing else changed. */
  function Damage(b: Block): (d: Block)
    ensures d.lives == b.lives - 1 && d.rect == b.rect && d.blockType == b.blockType
  {
    b.(lives := b.lives - 1)
  }

  /** The blocks that survive the clean-up: those with lives left, in order. */
  function Alive(bs: seq<Block>): (r: seq<Block>)
    ensures |r| <= |bs|
    ensures forall b :: b in r <==> b in bs && b.lives > 0
  {
    if bs == [] then []
    else (if bs[0].lives > 0 then [bs[0]] else []) + Alive(bs[1..])
  }

  /** The clean-up works block by block, left to right: it keeps the
      relative order of the survivors. */
  lemma {:induction false} AliveAppend(xs: seq<Block>, ys: seq<Block>)
    ensures Alive(xs + ys) == Alive(xs) + Alive(ys)
  {
    if xs == [] {
      assert xs + ys == ys;
    } else {
      assert (xs + ys)[0] == xs[0];
      assert (xs + ys)[1..] == xs[1..] + ys;
      AliveAppend(xs[1..], ys);
    }
  }

  /** A board where every block still has lives is left as it is. */
  lemma {:induction false} AliveKeepsLiving(bs: seq<Block>)
    requires forall i :: 0 <= i < |bs| ==> bs[i].lives > 0
    ensures Alive(bs) == bs
  {
    if bs != [] {
      AliveKeepsLiving(bs[1..]);
    }
  }

  /** A Regular block is red when new, orange and kept after one hit, and
      removed by the clean-up after the second. */
  lemma BlockLifecycle(pos: Vec2)
    ensures var b := NewBlock(pos, Regular);
      BlockColor(b) == Red && Alive([b]) == [b] &&
      BlockColor(Damage(b)) == Orange && Alive([Damage(b)]) == [Damage(b)] &&
      Alive([Damage(Damage(b))]) == []
  {
    var b := NewBlock(pos, Regular);
    assert Alive([b]) == [b] + Alive([]);
    assert Alive([Damage(b)]) == [Damage(b)] + Alive([]);
    assert Alive([Damage(Damage(b))]) == Alive([]);
  }

  /** Where block `i` of the grid goes: column `i % 6`, row `i / 6`, cells of
      101 by 41 units, the grid centred horizontally and 50 units from the top. */
  function GridPosition(screenWidth: real, i: nat): (p: Vec2)
    // the rows start 50 below the top edge
    ensures p.y >= 50.0
    // the grid's six columns sit inside a band 606 wide centred on the screen
    ensures (screenWidth - 606.0) / 2.0 <= p.x && p.x + BLOCK_W < (screenWidth + 606.0) / 2.0
  {
    Vec2((screenWidth - 606.0) / 2.0 + (i % 6) as real * 101.0, 50.0 + (i / 6) as real * 41.0)
  }

  /** The one-unit padding keeps the grid cells apart: two different cells
      of the grid never overlap, not even at an edge. */
  lemma GridCellsApart(screenWidth: real, i: nat, k: nat)
    requires i < GRID_W * GRID_H && k < GRID_W * GRID_H && i != k
    ensures !Overlaps(NewBlock(GridPosition(screenWidth, i), Regular).rect,
                      NewBlock(GridPosition(screenWidth, k), Regular).rect)
  {
    if i % 6 == k % 6 {
      assert i / 6 != k / 6;
    }
  }

  /** The 6 by 6 grid of Regular blocks, row by row. */
  function Grid(screenWidth: real): (g: seq<Block>)
    ensures |g| == GRID_W * GRID_H
  {
    seq(GRID_W * GRID_H, i requires 0 <= i < GRID_W * GRID_H => NewBlock(GridPosition(screenWidth, i), Regular))
  }

  predicate PicksWithin(picks: seq<nat>, n: nat)
  {
    forall k :: 0 <= k < |picks| ==> picks[k] < n
  }

  /** The blocks after turning the block at each index of `picks` in turn
      into a SpawnBallOnDeath block. */
  function Retag(bs: seq<Block>, picks: seq<nat>): (r: seq<Block>)
    requires PicksWithin(picks, |bs|)
    ensures |r| == |bs|
    decreases |picks|
  {
    if picks == [] then bs
    else
      var r := Retag(bs, picks[..|picks| - 1]);
      var p := picks[|picks| - 1];
      r[p := r[p].(blockType := SpawnBallOnDeath)]
  }

  /** Retagging changes only the type, and only of the picked blocks; an index
      picked twice is simply tagged again. */
  lemma {:induction false} RetagAt(bs: seq<Block>, picks: seq<nat>, k: nat)
    requires PicksWithin(picks, |bs|) && k < |bs|
    ensures Retag(bs, picks)[k].rect == bs[k].rect && Retag(bs, picks)[k].lives == bs[k].lives
    ensures Retag(bs, picks)[k].blockType == if k in picks then SpawnBallOnDeath else bs[k].blockType
    decreases |picks|
  {
    if picks != [] {
      var init := picks[..|picks| - 1];
      assert picks == init + [picks[|picks| - 1]];
      RetagAt(bs, init, k);
    }
  }

  /** The board produced from `blocks`: the grid appended, then the picks retagged. */
  function InitialBoard(blocks: seq<Block>, screenWidth: real, picks: seq<nat>): (r: seq<Block>)
    requires PicksWithin(picks, |blocks| + GRID_W * GRID_H)
    ensures |r| == |blocks| + GRID_W * GRID_H
  {
    Retag(blocks + Grid(screenWidth), picks)
  }

  /** Lays the grid out after the given blocks, then tags three random
      indices (repeats allowed); the random draws are `picks`, each within
      the length of the vector at the time it is drawn. */
  method InitBlocks(blocks: seq<Block>, screenWidth: real, picks: seq<nat>) returns (r: seq<Block>)
    requires |picks| == BONUS_PICKS
    requires PicksWithin(picks, |blocks| + GRID_W * GRID_H)
    ensures r == InitialBoard(blocks, screenWidth, picks)
  {
    var width, height := GRID_W, GRID_H;
    var padding := 1.0;
    var totalBlockSize := Vec2(BLOCK_W + padding, BLOCK_H + padding);
    var boardStart := Vec2((screenWidth - totalBlockSize.x * width as real) * 0.5, 50.0);
    r := blocks;
    for i := 0 to width * height
      invariant r == blocks + Grid(screenWidth)[..i]
    {
      var blockX := (i % width) as real * totalBlockSize.x;
      var blockY := (i / width) as real * totalBlockSize.y;
      var b := NewBlock(Vec2(boardStart.x + blockX, boardStart.y + blockY), Regular);
      assert b == Grid(screenWidth)[i];
      assert Grid(screenWidth)[..i + 1] == Grid(screenWidth)[..i] + [b];
      r := r + [b];
    }
    assert Grid(screenWidth)[..width * height] == Grid(screenWidth);
    for n := 0 to BONUS_PICKS
      invariant r == Retag(blocks + Grid(screenWidth), picks[..n])
    {
      var randIndex := picks[n];
      assert picks[..n + 1][..n] == picks[..n];
      r := r[randIndex := r[randIndex].(blockType := SpawnBallOnDeath)];
    }
    assert picks[..BONUS_PICKS] == picks;
  }

  /** Everything `InitBlocks` does, index by index: blocks that were there
      keep their rectangle and lives, grid block `i` sits at its grid position
      with two lives, and a block is SpawnBallOnDeath exactly when picked
      (or when it already was). */
  lemma InitialBoardAt(blocks: seq<Block>, screenWidth: real, picks: seq<nat>, k: nat)
    requires PicksWithin(picks, |blocks| + GRID_W * GRID_H)
    requires k < |blocks| + GRID_W * GRID_H
    ensures var r := InitialBoard(blocks, screenWidth, picks);
      (k < |blocks| ==> r[k] == blocks[k].(blockType := if k in picks then SpawnBallOnDeath else blocks[k].blockType)) &&
      (k >= |blocks| ==> r[k] == NewBlock(GridPosition(screenWidth, k - |blocks|), if k in picks then SpawnBallOnDeath else Regular))
  {
    RetagAt(blocks + Grid(screenWidth), picks, k);
  }

  function SpawnIndices(bs: seq<Block>): set<nat>
  {
    set i: nat | i < |bs| && bs[i].blockType == SpawnBallOnDeath
  }

  /** On an empty vector: 36 blocks, block `i` of size 100 by 40 at grid
      position `i` with two lives, and between one and three bonus blocks,
      exactly the picked ones. */
  lemma FreshBoard(screenWidth: real, picks: seq<nat>)
    requires |picks| == BONUS_PICKS && PicksWithin(picks, GRID_W * GRID_H)
    ensures var r := InitialBoard([], screenWidth, picks);
      |r| == 36 &&
      (forall i :: 0 <= i < 36 ==>
        r[i].rect == Rect(GridPosition(screenWidth, i).x, GridPosition(screenWidth, i).y, 100.0, 40.0) &&
        r[i].lives == 2 &&
        (r[i].blockType == Regular <==> i !in picks)) &&
      SpawnIndices(r) == (set k | k in picks) &&
      1 <= |SpawnIndices(r)| <= 3
  {
    var r := InitialBoard([], screenWidth, picks);
    forall i | 0 <= i < 36
      ensures r[i].rect == Rect(GridPosition(screenWidth, i).x, GridPosition(screenWidth, i).y, 100.0, 40.0)
      ensures r[i].lives == 2 && (r[i].blockType == Regular <==> i !in picks)
    {
      InitialBoardAt([], screenWidth, picks, i);
    }
    forall i: nat | i < |r|
      ensures i in SpawnIndices(r) <==> i in picks
    {
      InitialBoardAt([], screenWidth, picks, i);
    }
    var s := set k | k in picks;
    assert s == {picks[0], picks[1], picks[2]};
    assert SpawnIndices(r) == s;
    assert picks[0] in s;
    CardinalityOfThree(picks[0], picks[1], picks[2]);
  }

  lemma CardinalityOfThree(a: nat, b: nat, c: nat)
    ensures 1 <= |{a, b, c}| <= 3
  {
    assert {a, b, c} == {a} + {b} + {c};
    assert |{a} + {b}| <= 2;
  }
}
