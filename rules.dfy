/**
 * One frame of the game as a function on values: the state machine
 * (Menu, Game, LevelCompleted, Dead), the physics tick that runs in Game
 * (paddle and ball movement, collisions, scoring, the deferred spawn queue,
 * pruning of fallen balls and destroyed blocks, life loss), and the reset.
 * The mutable game context is proved against these functions.
 */
module Rules {
  import opened Geometry
  import opened Entities
  import opened Level

  datatype GameState = Menu | Game | LevelCompleted | Dead

  /** Everything the frame loop keeps between frames. */
  datatype World = World(state: GameState, score: int, lives: int, player: Rect,
                         blocks: seq<BlockState>, balls: seq<BallState>)

  /**
   * What the host supplies for one frame: frame time, held arrow keys, whether
   * space was pressed this frame, the screen size, the random block indices
   * the level builder would draw, and the velocity of the k-th ball created
   * during this frame (`draws(k)`, standing for a normalised random direction).
   */
  datatype Input = Input(dt: real, left: bool, right: bool, space: bool,
                         width: real, height: real, rolls: seq<nat>, draws: nat -> Vec2)

  const ScorePerBlock: int := 10
  const StartingLives: int := 3

  /** Where a served ball appears: above the paddle, right of its centre. */
  function ServePoint(player: Rect): Vec2
  {
    Vec2(player.x + player.w * 0.5 + BallSize * 0.5, player.y - 50.0)
  }

  /** The world at program start and after every reset. */
  function FreshGame(width: real, height: real, rolls: seq<nat>): World
    requires RollsFor(rolls, BlockCount)
  {
    World(Menu, 0, StartingLives, NewPlayer(width, height), LevelBlocks([], width, rolls), [])
  }

  function MoveBalls(bs: seq<BallState>, dt: real, width: real): (r: seq<BallState>)
  {
    seq(|bs|, k requires 0 <= k < |bs| => BallStep(bs[k], dt, width))
  }

  /** One ball against one block: the ball and block after it, points won, spawn points queued. */
  datatype Outcome = Outcome(ball: BallState, block: BlockState, points: int, spawns: seq<Vec2>)

  /**
   * A hit costs the block one life; a hit that leaves it with none (also on
   * a block that was already dead) scores, and queues a ball at the ball's
   * corrected position when the block is a spawner.
   */
  function HitOne(ball: BallState, block: BlockState): Outcome
  {
    var c := Collide(ball.rect, ball.vel, block.rect);
    var ball' := BallState(c.rect, c.vel);
    if !c.hit then Outcome(ball', block, 0, [])
    else
      var hurt := block.(lives := block.lives - 1);
      if hurt.lives > 0 then Outcome(ball', hurt, 0, [])
      else Outcome(ball', hurt, ScorePerBlock, if block.kind == SpawnBallOnDeath then [Point(c.rect)] else [])
  }

  /** One ball's pass over the blocks: the ball, the blocks, points won, spawn points queued. */
  datatype Hits = Hits(ball: BallState, blocks: seq<BlockState>, points: int, spawns: seq<Vec2>)

  /** The ball is resolved against every block in list order. */
  function HitBlocks(ball: BallState, bs: seq<BlockState>): (h: Hits)
    ensures |h.blocks| == |bs|
    decreases |bs|
  {
    if bs == [] then Hits(ball, [], 0, [])
    else
      var h := HitBlocks(ball, bs[..|bs| - 1]);
      var o := HitOne(h.ball, bs[|bs| - 1]);
      Hits(o.ball, h.blocks + [o.block], h.points + o.points, h.spawns + o.spawns)
  }

  /** A block that lost a life in one pass and has none left. */
  predicate Killed(before: BlockState, after: BlockState)
  {
    after.lives == before.lives - 1 && after.lives <= 0
  }

  /** How many blocks one pass killed. */
  function Kills(before: seq<BlockState>, after: seq<BlockState>): nat
    requires |before| == |after|
    decreases |before|
  {
    if before == [] then 0
    else
      var n := |before| - 1;
      Kills(before[..n], after[..n]) + if Killed(before[n], after[n]) then 1 else 0
  }

  /** How many spawner blocks one pass killed. */
  function SpawnerKills(before: seq<BlockState>, after: seq<BlockState>): nat
    requires |before| == |after|
    decreases |before|
  {
    if before == [] then 0
    else
      var n := |before| - 1;
      SpawnerKills(before[..n], after[..n]) +
        if Killed(before[n], after[n]) && before[n].kind == SpawnBallOnDeath then 1 else 0
  }

  /**
   * A pass only ever takes single lives from blocks and moves nothing; it
   * scores 10 per kill and queues one ball per killed spawner.
   */
  lemma {:induction false} HitBlocksAccounting(ball: BallState, bs: seq<BlockState>)
    ensures var h := HitBlocks(ball, bs);
            && |h.blocks| == |bs|
            && (forall k :: 0 <= k < |bs| ==>
                  && h.blocks[k].rect == bs[k].rect && h.blocks[k].kind == bs[k].kind
                  && (h.blocks[k].lives == bs[k].lives || h.blocks[k].lives == bs[k].lives - 1))
            && h.points == ScorePerBlock * Kills(bs, h.blocks)
            && |h.spawns| == SpawnerKills(bs, h.blocks)
  {
    if bs != [] {
      var n := |bs| - 1;
      var init := bs[..n];
      var h0 := HitBlocks(ball, init);
      assert h0.points == ScorePerBlock * Kills(init, h0.blocks) && |h0.spawns| == SpawnerKills(init, h0.blocks) by {
        HitBlocksAccounting(ball, init);
      }
      var o := HitOne(h0.ball, bs[n]);
      assert && o.points == (if Killed(bs[n], o.block) then ScorePerBlock else 0)
             && |o.spawns| == (if Killed(bs[n], o.block) && bs[n].kind == SpawnBallOnDeath then 1 else 0)
      by {
        HitOneAccounting(h0.ball, bs[n]);
      }
      var h := HitBlocks(ball, bs);
      LastHit(ball, bs);
      assert Kills(bs, h.blocks) == Kills(init, h0.blocks) + if Killed(bs[n], o.block) then 1 else 0;
      assert SpawnerKills(bs, h.blocks) ==
        SpawnerKills(init, h0.blocks) + if Killed(bs[n], o.block) && bs[n].kind == SpawnBallOnDeath then 1 else 0;
    }
    HitBlocksPerBlock(ball, bs);
    forall k | 0 <= k < |bs|
      ensures var h := HitBlocks(ball, bs);
              && h.blocks[k].rect == bs[k].rect && h.blocks[k].kind == bs[k].kind
              && (h.blocks[k].lives == bs[k].lives || h.blocks[k].lives == bs[k].lives - 1)
    {
      HitOneAccounting(BallAt(ball, bs, k), bs[k]);
    }
  }

  /** A pass over a non-empty list is the pass over all but the last block, then the last block. */
  lemma LastHit(ball: BallState, bs: seq<BlockState>)
    requires bs != []
    ensures var n := |bs| - 1;
            var h0 := HitBlocks(ball, bs[..n]);
            var o := HitOne(h0.ball, bs[n]);
            var h := HitBlocks(ball, bs);
            && h == Hits(o.ball, h0.blocks + [o.block], h0.points + o.points, h0.spawns + o.spawns)
            && h.blocks[..n] == h0.blocks && h.blocks[n] == o.block
  {
  }

  /**
   * One ball against one block: the ball leaves with the rectangle and
   * velocity of the collision step; the block keeps its place and type and
   * loses one life exactly when the ball hits it; the ball scores exactly
   * when it kills the block, and queues a ball at its own corrected corner
   * exactly when that block is a spawner.
   */
  lemma HitOneAccounting(ball: BallState, block: BlockState)
    ensures var c, o := Collide(ball.rect, ball.vel, block.rect), HitOne(ball, block);
            && o.ball == BallState(c.rect, c.vel)
            && o.block.rect == block.rect && o.block.kind == block.kind
            && o.block.lives == (if c.hit then block.lives - 1 else block.lives)
            && o.points == (if Killed(block, o.block) then ScorePerBlock else 0)
            && o.spawns == (if Killed(block, o.block) && block.kind == SpawnBallOnDeath then [Point(c.rect)] else [])
  {
  }

  /** The ball as it reaches block `k` of a pass, after the blocks before it. */
  function BallAt(ball: BallState, bs: seq<BlockState>, k: nat): BallState
    requires k <= |bs|
  {
    HitBlocks(ball, bs[..k]).ball
  }

  /**
   * Every block ends a pass as the ball reaching it leaves it: it loses a
   * life exactly when that ball hits it, and no other block of the pass
   * affects it.
   */
  lemma {:induction false} HitBlocksPerBlock(ball: BallState, bs: seq<BlockState>)
    ensures forall k :: 0 <= k < |bs| ==> HitBlocks(ball, bs).blocks[k] == HitOne(BallAt(ball, bs, k), bs[k]).block
    ensures forall k :: 0 <= k < |bs| ==>
              var b := BallAt(ball, bs, k);
              HitBlocks(ball, bs).blocks[k].lives == bs[k].lives - (if Collide(b.rect, b.vel, bs[k].rect).hit then 1 else 0)
  {
    if bs != [] {
      var n := |bs| - 1;
      var init := bs[..n];
      HitBlocksPerBlock(ball, init);
      var h0, h := HitBlocks(ball, init), HitBlocks(ball, bs);
      assert h.blocks == h0.blocks + [HitOne(h0.ball, bs[n]).block];
      forall k | 0 <= k < |bs|
        ensures h.blocks[k] == HitOne(BallAt(ball, bs, k), bs[k]).block
      {
        if k < n {
          assert bs[..k] == init[..k];
          assert h.blocks[k] == h0.blocks[k];
        }
      }
    }
    forall k | 0 <= k < |bs|
      ensures var b := BallAt(ball, bs, k);
              HitBlocks(ball, bs).blocks[k].lives == bs[k].lives - (if Collide(b.rect, b.vel, bs[k].rect).hit then 1 else 0)
    {
      HitOneAccounting(BallAt(ball, bs, k), bs[k]);
    }
  }

  /**
   * A pass threads the ball through the blocks: the ball goes on to the
   * next block as this one sent it, this block's points and queued balls
   * are added after the earlier ones, and the pass ends with the ball that
   * left the last block.
   */
  lemma HitBlocksThreads(ball: BallState, bs: seq<BlockState>)
    ensures forall k :: 0 <= k < |bs| ==>
              var o, before, after := HitOne(BallAt(ball, bs, k), bs[k]), HitBlocks(ball, bs[..k]), HitBlocks(ball, bs[..k + 1]);
              && BallAt(ball, bs, k + 1) == o.ball
              && after.points == before.points + o.points
              && after.spawns == before.spawns + o.spawns
    ensures HitBlocks(ball, bs).ball == BallAt(ball, bs, |bs|)
  {
    forall k | 0 <= k < |bs|
      ensures var o, before, after := HitOne(BallAt(ball, bs, k), bs[k]), HitBlocks(ball, bs[..k]), HitBlocks(ball, bs[..k + 1]);
              && BallAt(ball, bs, k + 1) == o.ball
              && after.points == before.points + o.points
              && after.spawns == before.spawns + o.spawns
    {
      assert bs[..k + 1][..k] == bs[..k];
      assert bs[..k + 1][k] == bs[k];
    }
    assert bs[..|bs|] == bs;
  }

  /** One ball's turn: it bounces off the paddle, which only bends it, and then passes over the blocks. */
  function BallPass(paddle: Rect, b: BallState, blocks: seq<BlockState>): (h: Hits)
    ensures |h.blocks| == |blocks|
  {
    var p := Collide(b.rect, b.vel, paddle);
    HitBlocks(BallState(p.rect, p.vel), blocks)
  }

  /** Every ball's turn, in list order. */
  datatype Sweep = Sweep(balls: seq<BallState>, blocks: seq<BlockState>, points: int, spawns: seq<Vec2>)

  function SweepBalls(paddle: Rect, balls: seq<BallState>, blocks: seq<BlockState>): (s: Sweep)
    ensures |s.balls| == |balls| && |s.blocks| == |blocks|
    decreases |balls|
  {
    if balls == [] then Sweep([], blocks, 0, [])
    else
      var s := SweepBalls(paddle, balls[..|balls| - 1], blocks);
      var h := BallPass(paddle, balls[|balls| - 1], s.blocks);
      Sweep(s.balls + [h.ball], h.blocks, s.points + h.points, s.spawns + h.spawns)
  }

  /**
   * The balls share one block list: ball k takes its turn against the blocks
   * as the balls before it left them, and its ball, points and queued balls
   * are added after theirs.
   */
  lemma SweepThreads(paddle: Rect, balls: seq<BallState>, blocks: seq<BlockState>)
    ensures forall k :: 0 <= k < |balls| ==>
              var before, after := SweepBalls(paddle, balls[..k], blocks), SweepBalls(paddle, balls[..k + 1], blocks);
              var h := BallPass(paddle, balls[k], before.blocks);
              && after.blocks == h.blocks
              && after.balls == before.balls + [h.ball]
              && after.points == before.points + h.points
              && after.spawns == before.spawns + h.spawns
  {
    forall k | 0 <= k < |balls|
      ensures var before, after := SweepBalls(paddle, balls[..k], blocks), SweepBalls(paddle, balls[..k + 1], blocks);
              var h := BallPass(paddle, balls[k], before.blocks);
              && after.blocks == h.blocks
              && after.balls == before.balls + [h.ball]
              && after.points == before.points + h.points
              && after.spawns == before.spawns + h.spawns
    {
      assert balls[..k + 1][..k] == balls[..k];
      assert balls[..k + 1][k] == balls[k];
    }
  }

  /**
   * The sweep keeps every ball and every block (blocks neither move nor
   * change type), and each block loses at most one life per ball.
   */
  lemma {:induction false} SweepKeepsBlocks(paddle: Rect, balls: seq<BallState>, blocks: seq<BlockState>)
    ensures var s := SweepBalls(paddle, balls, blocks);
            && |s.balls| == |balls| && |s.blocks| == |blocks|
            && (forall k :: 0 <= k < |blocks| ==>
                  && s.blocks[k].rect == blocks[k].rect && s.blocks[k].kind == blocks[k].kind
                  && blocks[k].lives - |balls| <= s.blocks[k].lives <= blocks[k].lives)
  {
    if balls != [] {
      var n := |balls| - 1;
      SweepKeepsBlocks(paddle, balls[..n], blocks);
      var s0 := SweepBalls(paddle, balls[..n], blocks);
      var b := balls[n];
      var p := Collide(b.rect, b.vel, paddle);
      var h := BallPass(paddle, b, s0.blocks);
      HitBlocksAccounting(BallState(p.rect, p.vel), s0.blocks);
      var s := SweepBalls(paddle, balls, blocks);
      assert s.balls == s0.balls + [h.ball] && s.blocks == h.blocks;
      forall k | 0 <= k < |blocks|
        ensures blocks[k].lives - |balls| <= s.blocks[k].lives <= blocks[k].lives
      {
        assert blocks[k].lives - n <= s0.blocks[k].lives <= blocks[k].lives;
        assert s0.blocks[k].lives - 1 <= h.blocks[k].lives <= s0.blocks[k].lives;
      }
    }
  }

  /** The score a sweep earns is a non-negative multiple of 10 that pays for every queued ball. */
  lemma {:induction false} SweepScores(paddle: Rect, balls: seq<BallState>, blocks: seq<BlockState>)
    ensures var s := SweepBalls(paddle, balls, blocks);
            && 0 <= s.points && s.points % ScorePerBlock == 0
            && ScorePerBlock * |s.spawns| <= s.points
  {
    if balls != [] {
      var n := |balls| - 1;
      SweepScores(paddle, balls[..n], blocks);
      var s0 := SweepBalls(paddle, balls[..n], blocks);
      var b := balls[n];
      var p := Collide(b.rect, b.vel, paddle);
      var h := BallPass(paddle, b, s0.blocks);
      HitBlocksAccounting(BallState(p.rect, p.vel), s0.blocks);
      KillsBound(s0.blocks, h.blocks);
      var s := SweepBalls(paddle, balls, blocks);
      assert s.points == s0.points + h.points && s.spawns == s0.spawns + h.spawns;
      Tenfold(Kills(s0.blocks, h.blocks));
      TenfoldSum(s0.points, h.points);
    }
  }

  lemma Tenfold(n: int)
    ensures (ScorePerBlock * n) % ScorePerBlock == 0
  {
  }

  lemma TenfoldSum(a: int, b: int)
    requires a % ScorePerBlock == 0 && b % ScorePerBlock == 0
    ensures (a + b) % ScorePerBlock == 0
  {
  }

  /** Killed spawners are among the killed blocks. */
  lemma {:induction false} KillsBound(before: seq<BlockState>, after: seq<BlockState>)
    requires |before| == |after|
    ensures SpawnerKills(before, after) <= Kills(before, after)
  {
    if before != [] {
      var n := |before| - 1;
      KillsBound(before[..n], after[..n]);
    }
  }

  /** The balls still above the bottom edge, in order (the `retain` on balls). */
  function OnField(bs: seq<BallState>, height: real): (r: seq<BallState>)
    ensures |r| <= |bs|
    ensures forall k :: 0 <= k < |r| ==> r[k].rect.y < height
    decreases |bs|
  {
    if bs == [] then []
    else
      var rest := OnField(bs[..|bs| - 1], height);
      var b := bs[|bs| - 1];
      if b.rect.y < height then rest + [b] else rest
  }

  /**
   * The ball filter keeps only balls of its input, keeps all of them exactly
   * when none is below the edge, and keeps none exactly when all are.
   */
  lemma {:induction false} OnFieldKeepsOrDrops(bs: seq<BallState>, height: real)
    ensures var r := OnField(bs, height);
            && (forall k :: 0 <= k < |r| ==> r[k] in bs)
            && (|r| == |bs| <==> forall k :: 0 <= k < |bs| ==> bs[k].rect.y < height)
            && (r == [] <==> forall k :: 0 <= k < |bs| ==> bs[k].rect.y >= height)
  {
    if bs != [] {
      var n := |bs| - 1;
      var init, b := bs[..n], bs[n];
      OnFieldKeepsOrDrops(init, height);
      var rest, r := OnField(init, height), OnField(bs, height);
      assert (forall k :: 0 <= k < |bs| ==> bs[k].rect.y < height) <==>
             (forall k :: 0 <= k < n ==> init[k].rect.y < height) && b.rect.y < height;
      assert (forall k :: 0 <= k < |bs| ==> bs[k].rect.y >= height) <==>
             (forall k :: 0 <= k < n ==> init[k].rect.y >= height) && b.rect.y >= height;
      if b.rect.y < height {
        assert r == rest + [b];
        forall k | 0 <= k < |r| ensures r[k] in bs {
          if k < |rest| {
            assert r[k] == rest[k] && rest[k] in init;
          }
        }
      } else {
        assert r == rest;
        forall k | 0 <= k < |r| ensures r[k] in bs {
          assert rest[k] in init;
        }
      }
    }
  }

  /**
   * The ball filter keeps every ball above the edge and drops every other
   * one, each as often as it occurs in its input.
   */
  lemma {:induction false} OnFieldCounts(bs: seq<BallState>, height: real)
    ensures forall x :: multiset(OnField(bs, height))[x] == if x.rect.y < height then multiset(bs)[x] else 0
    ensures forall k :: 0 <= k < |bs| && bs[k].rect.y < height ==> bs[k] in OnField(bs, height)
  {
    if bs != [] {
      var n := |bs| - 1;
      var init, b := bs[..n], bs[n];
      OnFieldCounts(init, height);
      SplitLast(bs);
      assert multiset(bs) == multiset(init) + multiset{b};
      var rest, r := OnField(init, height), OnField(bs, height);
      if b.rect.y < height {
        assert r == rest + [b];
        assert multiset(r) == multiset(rest) + multiset{b};
      } else {
        assert r == rest;
      }
    }
    forall k | 0 <= k < |bs| && bs[k].rect.y < height
      ensures bs[k] in OnField(bs, height)
    {
      assert bs[k] in multiset(bs);
      assert bs[k] in multiset(OnField(bs, height));
    }
  }

  /**
   * The ball filter keeps its survivors in input order: filtering a list
   * split in two is filtering each part and joining the results.
   */
  lemma {:induction false} OnFieldConcat(s: seq<BallState>, t: seq<BallState>, height: real)
    ensures OnField(s + t, height) == OnField(s, height) + OnField(t, height)
    decreases |t|
  {
    if t == [] {
      assert s + t == s;
    } else {
      var n := |t| - 1;
      OnFieldConcat(s, t[..n], height);
      assert (s + t)[..|s + t| - 1] == s + t[..n];
      assert (s + t)[|s + t| - 1] == t[n];
    }
  }

  /** The blocks with lives left, in order (the `retain` on blocks). */
  function Standing(bs: seq<BlockState>): (r: seq<BlockState>)
    ensures |r| <= |bs|
    ensures forall k :: 0 <= k < |r| ==> r[k].lives > 0
    decreases |bs|
  {
    if bs == [] then []
    else
      var rest := Standing(bs[..|bs| - 1]);
      var b := bs[|bs| - 1];
      if b.lives > 0 then rest + [b] else rest
  }

  /**
   * The block filter keeps only blocks of its input, keeps none exactly when
   * every block is out of lives, and changes nothing when all have lives.
   */
  lemma {:induction false} StandingKeepsOrDrops(bs: seq<BlockState>)
    ensures var r := Standing(bs);
            && (forall k :: 0 <= k < |r| ==> r[k] in bs)
            && (r == [] <==> forall k :: 0 <= k < |bs| ==> bs[k].lives <= 0)
            && ((forall k :: 0 <= k < |bs| ==> bs[k].lives > 0) ==> r == bs)
  {
    if bs != [] {
      var n := |bs| - 1;
      var init, b := bs[..n], bs[n];
      StandingKeepsOrDrops(init);
      var rest, r := Standing(init), Standing(bs);
      assert (forall k :: 0 <= k < |bs| ==> bs[k].lives <= 0) <==>
             (forall k :: 0 <= k < n ==> init[k].lives <= 0) && b.lives <= 0;
      if b.lives > 0 {
        assert r == rest + [b];
        forall k | 0 <= k < |r| ensures r[k] in bs {
          if k < |rest| {
            assert r[k] == rest[k] && rest[k] in init;
          }
        }
        if forall k :: 0 <= k < |bs| ==> bs[k].lives > 0 {
          assert forall k :: 0 <= k < n ==> init[k].lives > 0;
          SplitLast(bs);
        }
      } else {
        assert r == rest;
        forall k | 0 <= k < |r| ensures r[k] in bs {
          assert rest[k] in init;
        }
      }
    }
  }

  /**
   * The block filter keeps every block with lives left and drops every other
   * one, each as often as it occurs in its input.
   */
  lemma {:induction false} StandingCounts(bs: seq<BlockState>)
    ensures forall x :: multiset(Standing(bs))[x] == if x.lives > 0 then multiset(bs)[x] else 0
    ensures forall k :: 0 <= k < |bs| && bs[k].lives > 0 ==> bs[k] in Standing(bs)
  {
    if bs != [] {
      var n := |bs| - 1;
      var init, b := bs[..n], bs[n];
      StandingCounts(init);
      SplitLast(bs);
      assert multiset(bs) == multiset(init) + multiset{b};
      var rest, r := Standing(init), Standing(bs);
      if b.lives > 0 {
        assert r == rest + [b];
        assert multiset(r) == multiset(rest) + multiset{b};
      } else {
        assert r == rest;
      }
    }
    forall k | 0 <= k < |bs| && bs[k].lives > 0
      ensures bs[k] in Standing(bs)
    {
      assert bs[k] in multiset(bs);
      assert bs[k] in multiset(Standing(bs));
    }
  }

  /**
   * The block filter keeps its survivors in input order: filtering a list
   * split in two is filtering each part and joining the results.
   */
  lemma {:induction false} StandingConcat(s: seq<BlockState>, t: seq<BlockState>)
    ensures Standing(s + t) == Standing(s) + Standing(t)
    decreases |t|
  {
    if t == [] {
      assert s + t == s;
    } else {
      var n := |t| - 1;
      StandingConcat(s, t[..n]);
      assert (s + t)[..|s + t| - 1] == s + t[..n];
      assert (s + t)[|s + t| - 1] == t[n];
    }
  }

  /** A non-empty sequence is its prefix followed by its last element. */
  lemma SplitLast<T>(s: seq<T>)
    requires s != []
    ensures s == s[..|s| - 1] + [s[|s| - 1]]
  {
  }

  /** Whether every ball fell below the bottom edge (and there was one). */
  predicate AllFell(bs: seq<BallState>, height: real)
  {
    bs != [] && forall k :: 0 <= k < |bs| ==> bs[k].rect.y >= height
  }

  /**
   * Fallen balls are removed. If that removed at least one and none is
   * left, a life is lost; with lives remaining a ball is served, with none
   * the game is over.
   */
  function AfterFall(w: World, height: real, vel: Vec2): World
  {
    var kept := OnField(w.balls, height);
    if |kept| < |w.balls| && kept == [] then
      var lives := w.lives - 1;
      w.(lives := lives,
         balls := if lives >= 1 then [NewBall(ServePoint(w.player), vel)] else [],
         state := if lives <= 0 then Dead else w.state)
    else
      w.(balls := kept)
  }

  /** Dead blocks are removed; an empty board completes the level. */
  function AfterClear(w: World): World
  {
    var blocks := Standing(w.blocks);
    w.(blocks := blocks, state := if blocks == [] then LevelCompleted else w.state)
  }

  /** The world after the paddle and the balls moved. */
  function Moved(w: World, inp: Input): World
  {
    w.(player := PlayerStep(w.player, inp.dt, inp.left, inp.right, inp.width),
       balls := MoveBalls(w.balls, inp.dt, inp.width))
  }

  /**
   * The movement phase touches only the paddle and the balls: it keeps
   * state, score, lives and blocks, removes no ball, steps each ball in
   * place in the list, and leaves the paddle on a field wide enough for it.
   */
  lemma MovedAccounting(w: World, inp: Input)
    ensures var m := Moved(w, inp);
            && m.state == w.state && m.score == w.score && m.lives == w.lives && m.blocks == w.blocks
            && |m.balls| == |w.balls|
            && (forall k :: 0 <= k < |w.balls| ==> m.balls[k] == BallStep(w.balls[k], inp.dt, inp.width))
            && m.player.y == w.player.y && m.player.w == w.player.w && m.player.h == w.player.h
            && (w.player.w <= inp.width ==> 0.0 <= m.player.x <= inp.width - m.player.w)
  {
  }

  function SweepOf(w: World, inp: Input): Sweep
  {
    var m := Moved(w, inp);
    SweepBalls(m.player, m.balls, m.blocks)
  }

  /** The collisions on a moved world, with the queued balls appended. */
  function Struck(m: World, draws: nat -> Vec2): World
  {
    var s := SweepBalls(m.player, m.balls, m.blocks);
    m.(score := m.score + s.points, blocks := s.blocks, balls := s.balls + Spawned(s.spawns, draws, 0))
  }

  /** The world after movement, collisions and the queued spawns, before pruning. */
  function Swept(w: World, inp: Input): World
  {
    Struck(Moved(w, inp), inp.draws)
  }

  /** The queued balls, the k-th taking velocity `draws(base + k)`. */
  function Spawned(spawns: seq<Vec2>, draws: nat -> Vec2, base: nat): (r: seq<BallState>)
    ensures |r| == |spawns|
  {
    seq(|spawns|, k requires 0 <= k < |spawns| => NewBall(spawns[k], draws(base + k)))
  }

  /** One physics tick. The served ball takes the draw after the queued ones. */
  function GameTick(w: World, inp: Input): World
  {
    AfterClear(AfterFall(Swept(w, inp), inp.height, inp.draws(|SweepOf(w, inp).spawns|)))
  }

  /** One frame: physics only in Game; Space starts a game or resets after one. */
  function Step(w: World, inp: Input): World
    requires RollsFor(inp.rolls, BlockCount)
  {
    match w.state
    case Menu =>
      if inp.space then w.(state := Game, balls := w.balls + [NewBall(ServePoint(w.player), inp.draws(0))])
      else w
    case Game => GameTick(w, inp)
    case LevelCompleted =>
      if inp.space then FreshGame(inp.width, inp.height, inp.rolls) else w
    case Dead =>
      if inp.space then FreshGame(inp.width, inp.height, inp.rolls) else w
  }

  predicate AllStanding(bs: seq<BlockState>)
  {
    forall k :: 0 <= k < |bs| ==> bs[k].lives > 0
  }

  /**
   * What holds between frames: the score is a non-negative multiple of 10,
   * lives stay within 0..3, no dead block survives a frame outside the
   * terminal states, Game always has a ball in play and a life left, Dead
   * means no lives, LevelCompleted means no blocks, and Menu waits with
   * score 0, three lives, no balls and a full board of 36 standing blocks.
   */
  ghost predicate Inv(w: World)
  {
    && 0 <= w.score && w.score % ScorePerBlock == 0
    && 0 <= w.lives <= StartingLives
    && (w.state == Menu ==> w.score == 0 && w.lives == StartingLives && w.balls == [] && |w.blocks| == BlockCount)
    && (w.state == Menu || w.state == Game ==> w.blocks != [] && AllStanding(w.blocks))
    && (w.state == Game ==> w.lives >= 1 && w.balls != [])
    && (w.state == Dead ==> w.lives == 0)
    && (w.state == LevelCompleted ==> w.blocks == [])
  }

  lemma FreshGameInv(width: real, height: real, rolls: seq<nat>)
    requires RollsFor(rolls, BlockCount)
    ensures Inv(FreshGame(width, height, rolls))
  {
  }

  /** Sizes and score after the sweep part of a tick. */
  lemma SweptAccounting(w: World, inp: Input)
    ensures var sw := Swept(w, inp);
            && |sw.balls| >= |w.balls| && |sw.blocks| == |w.blocks|
            && sw.score >= w.score && (sw.score - w.score) % ScorePerBlock == 0
            && sw.lives == w.lives && sw.state == w.state
  {
    var m := Moved(w, inp);
    SweepKeepsBlocks(m.player, m.balls, m.blocks);
    SweepScores(m.player, m.balls, m.blocks);
  }

  /** The invariant holds after every frame. */
  lemma StepKeepsInv(w: World, inp: Input)
    requires RollsFor(inp.rolls, BlockCount)
    requires Inv(w)
    ensures Inv(Step(w, inp))
  {
    match w.state
    case Menu =>
    case Game =>
      GameTickKeepsInv(w, inp);
    case LevelCompleted =>
      if inp.space {
        FreshGameInv(inp.width, inp.height, inp.rolls);
      }
    case Dead =>
      if inp.space {
        FreshGameInv(inp.width, inp.height, inp.rolls);
      }
  }

  lemma GameTickKeepsInv(w: World, inp: Input)
    requires RollsFor(inp.rolls, BlockCount)
    requires Inv(w) && w.state == Game
    ensures Inv(Step(w, inp))
  {
    var w' := Step(w, inp);
    GameTickOutcome(w, inp);
    TenfoldSum(w.score, w'.score - w.score);
    assert w'.score == w.score + (w'.score - w.score);
  }

  /**
   * Reset forgets history: from LevelCompleted or Dead, Space yields the
   * same fresh game whatever came before (score 0, 3 lives, no balls, a new
   * paddle, a fresh 36-block board, back in Menu).
   */
  lemma ResetForgetsHistory(w1: World, w2: World, inp: Input)
    requires RollsFor(inp.rolls, BlockCount)
    requires w1.state in {LevelCompleted, Dead} && w2.state in {LevelCompleted, Dead} && inp.space
    ensures Step(w1, inp) == Step(w2, inp)
    ensures var w := Step(w1, inp);
            && w.state == Menu && w.score == 0 && w.lives == StartingLives && w.balls == []
            && w.player == NewPlayer(inp.width, inp.height)
            && |w.blocks| == BlockCount && AllStanding(w.blocks)
  {
    FreshGameInv(inp.width, inp.height, inp.rolls);
  }

  /**
   * Outside Game nothing moves: without Space every such frame is idle,
   * and from Menu, Space starts the game with exactly one more ball, served
   * above the paddle, and nothing else changed.
   */
  lemma OnlyGameRunsPhysics(w: World, inp: Input)
    requires RollsFor(inp.rolls, BlockCount)
    requires w.state != Game
    ensures !inp.space ==> Step(w, inp) == w
    ensures w.state == Menu && inp.space ==>
              var w' := Step(w, inp);
              && w'.state == Game
              && w'.balls == w.balls + [NewBall(ServePoint(w.player), inp.draws(0))]
              && w' == w.(state := Game, balls := w'.balls)
  {
  }

  /**
   * Losing the last ball: when every ball in play is below the bottom edge,
   * exactly one life is lost; with lives left exactly one ball is served
   * above the paddle and play goes on, otherwise no ball is left and the
   * game is over.
   */
  lemma LastBallLost(w: World, height: real, vel: Vec2)
    requires AllFell(w.balls, height)
    ensures var w' := AfterFall(w, height, vel);
            && w'.lives == w.lives - 1
            && (w'.lives >= 1 ==> w'.balls == [NewBall(ServePoint(w.player), vel)] && w'.state == w.state)
            && (w'.lives <= 0 ==> w'.balls == [] && w'.state == Dead)
            && w'.score == w.score && w'.blocks == w.blocks
  {
    OnFieldKeepsOrDrops(w.balls, height);
  }

  /** While some ball is still above the bottom edge no life is lost and the fallen balls are dropped. */
  lemma BallStillInPlay(w: World, height: real, vel: Vec2)
    requires exists k :: 0 <= k < |w.balls| && w.balls[k].rect.y < height
    ensures var w' := AfterFall(w, height, vel);
            w' == w.(balls := OnField(w.balls, height)) && w'.balls != []
  {
    OnFieldKeepsOrDrops(w.balls, height);
  }

  /** The pruning that ends a tick, on any swept world in Game. */
  lemma PruneOutcome(sw: World, height: real, vel: Vec2)
    requires sw.state == Game
    ensures var w' := AfterClear(AfterFall(sw, height, vel));
            && w'.lives == (if AllFell(sw.balls, height) then sw.lives - 1 else sw.lives)
            && w'.score == sw.score
            && (w'.state == LevelCompleted <==> forall k :: 0 <= k < |sw.blocks| ==> sw.blocks[k].lives <= 0)
            && (w'.state == Dead <==> AllFell(sw.balls, height) && sw.lives <= 1 && Standing(sw.blocks) != [])
            && w'.state in {Game, LevelCompleted, Dead}
            && AllStanding(w'.blocks) && |w'.blocks| <= |sw.blocks|
            && (w'.state == LevelCompleted <==> w'.blocks == [])
            && (sw.balls != [] ==> (w'.balls == [] <==> AllFell(sw.balls, height) && sw.lives <= 1))
  {
    var fell := AfterFall(sw, height, vel);
    if AllFell(sw.balls, height) {
      LastBallLost(sw, height, vel);
    } else if sw.balls != [] {
      assert exists k :: 0 <= k < |sw.balls| && sw.balls[k].rect.y < height;
      BallStillInPlay(sw, height, vel);
    } else {
      assert fell == sw;
    }
    assert fell.blocks == sw.blocks && fell.score == sw.score;
    StandingKeepsOrDrops(sw.blocks);
  }

  /**
   * Within a tick, a life is lost exactly when all balls (including those
   * queued this frame) fell; the level completes exactly when the sweep left
   * no block alive, and that wins over a game over in the same frame.
   */
  lemma GameTickOutcome(w: World, inp: Input)
    requires RollsFor(inp.rolls, BlockCount)
    requires w.state == Game
    ensures var w' := Step(w, inp);
            var sw := Swept(w, inp);
            && w'.lives == (if AllFell(sw.balls, inp.height) then w.lives - 1 else w.lives)
            && w'.score == sw.score >= w.score && (w'.score - w.score) % ScorePerBlock == 0
            && (w'.state == LevelCompleted <==> forall k :: 0 <= k < |sw.blocks| ==> sw.blocks[k].lives <= 0)
            && (w'.state == Dead <==>
                  AllFell(sw.balls, inp.height) && w.lives <= 1 && Standing(sw.blocks) != [])
            && w'.state in {Game, LevelCompleted, Dead}
            && AllStanding(w'.blocks) && |w'.blocks| <= |w.blocks|
            && (w'.state == LevelCompleted <==> w'.blocks == [])
            && (w.balls != [] ==> (w'.balls == [] <==> AllFell(sw.balls, inp.height) && w.lives <= 1))
  {
    SweptAccounting(w, inp);
    var sw := Swept(w, inp);
    PruneOutcome(sw, inp.height, inp.draws(|SweepOf(w, inp).spawns|));
    assert Step(w, inp) == AfterClear(AfterFall(sw, inp.height, inp.draws(|SweepOf(w, inp).spawns|)));
  }

  /**
   * A single block with one life left, hit by a ball: the pass kills it
   * and scores, so the board is empty after pruning (and the level is
   * completed, by `GameTickOutcome`).
   */
  lemma LastBlockFalls(ball: BallState, block: BlockState)
    requires block.lives == 1 && Collide(ball.rect, ball.vel, block.rect).hit
    ensures var h := HitBlocks(ball, [block]);
            && h.points == ScorePerBlock && h.blocks[0].lives == 0
            && Standing(h.blocks) == []
  {
    var bs := [block];
    assert bs[..0] == [];
  }

  /** A dead block that is hit again (it stays in the list until the frame's end) scores again. */
  lemma DeadBlockScoresAgain(ball: BallState, block: BlockState)
    requires block.lives <= 0 && Collide(ball.rect, ball.vel, block.rect).hit
    ensures HitBlocks(ball, [block]).points == ScorePerBlock
    ensures HitBlocks(ball, [block]).blocks[0].lives == block.lives - 1
  {
    var bs := [block];
    assert bs[..0] == [];
  }

  /** A new block survives its first hit, unscored and without spawning. */
  lemma NewBlockSurvivesFirstHit(ball: BallState, pos: Vec2, kind: BlockType)
    requires Collide(ball.rect, ball.vel, NewBlock(pos, kind).rect).hit
    ensures var once := HitBlocks(ball, [NewBlock(pos, kind)]);
            && once.blocks[0].lives == 1 && once.points == 0 && once.spawns == []
            && Standing(once.blocks) == once.blocks
  {
    var bs := [NewBlock(pos, kind)];
    assert bs[..0] == [];
  }

  /**
   * A new block falls to its second hit: after a first ball hits it, a
   * second ball that hits the survivor kills it, scores 10 and clears it.
   */
  lemma TwoHitsDestroyNewBlock(first: BallState, second: BallState, pos: Vec2, kind: BlockType)
    requires Collide(first.rect, first.vel, NewBlock(pos, kind).rect).hit
    requires Collide(second.rect, second.vel, HitBlocks(first, [NewBlock(pos, kind)]).blocks[0].rect).hit
    ensures var once := HitBlocks(first, [NewBlock(pos, kind)]);
            var twice := HitBlocks(second, once.blocks);
            && once.points == 0 && twice.points == ScorePerBlock
            && twice.blocks[0].lives == 0 && Standing(twice.blocks) == []
  {
    NewBlockSurvivesFirstHit(first, pos, kind);
    var once := HitBlocks(first, [NewBlock(pos, kind)]);
    assert once.blocks == [once.blocks[0]];
    LastBlockFalls(second, once.blocks[0]);
  }

  /**
   * Two balls of one frame against a block with one life: the first kills
   * it, the second still meets it in the shared list, hits it again and
   * scores a second time, so the frame scores 20 and leaves it at -1 lives.
   */
  lemma SameFrameKillScoresTwice(paddle: Rect, first: BallState, second: BallState, block: BlockState)
    requires block.lives == 1
    requires var p := Collide(first.rect, first.vel, paddle); Collide(p.rect, p.vel, block.rect).hit
    requires var p := Collide(second.rect, second.vel, paddle); Collide(p.rect, p.vel, block.rect).hit
    ensures var s := SweepBalls(paddle, [first, second], [block]);
            && s.points == 2 * ScorePerBlock && s.blocks[0].lives == -1
            && Standing(s.blocks) == []
  {
    TwoBallSweep(paddle, first, second, [block]);
    var p1, p2 := Collide(first.rect, first.vel, paddle), Collide(second.rect, second.vel, paddle);
    var b1, b2 := BallState(p1.rect, p1.vel), BallState(p2.rect, p2.vel);
    var h1 := BallPass(paddle, first, [block]);
    assert h1 == HitBlocks(b1, [block]);
    SingleBlockPass(b1, block);
    HitOneAccounting(b1, block);
    var dead := HitOne(b1, block).block;
    assert h1.blocks == [dead] && h1.points == ScorePerBlock;
    var h2 := BallPass(paddle, second, [dead]);
    assert h2 == HitBlocks(b2, [dead]);
    SingleBlockPass(b2, dead);
    HitOneAccounting(b2, dead);
    assert [HitOne(b2, dead).block][..0] == [];
  }

  /** A pass over a single block is that block's `HitOne`. */
  lemma SingleBlockPass(ball: BallState, block: BlockState)
    ensures var o := HitOne(ball, block);
            HitBlocks(ball, [block]) == Hits(o.ball, [o.block], o.points, o.spawns)
  {
    assert [block][..0] == [];
  }

  /** A sweep of two balls: the second takes its turn against the blocks the first left. */
  lemma TwoBallSweep(paddle: Rect, first: BallState, second: BallState, blocks: seq<BlockState>)
    ensures var h1 := BallPass(paddle, first, blocks);
            var h2 := BallPass(paddle, second, h1.blocks);
            SweepBalls(paddle, [first, second], blocks) ==
              Sweep([h1.ball, h2.ball], h2.blocks, h1.points + h2.points, h1.spawns + h2.spawns)
  {
    var balls := [first, second];
    assert balls[..1] == [first] && [first][..0] == [];
    var h1 := BallPass(paddle, first, blocks);
    var s0 := SweepBalls(paddle, [], blocks);
    assert s0 == Sweep([], blocks, 0, []);
    var s1 := SweepBalls(paddle, [first], blocks);
    assert s1 == Sweep(s0.balls + [h1.ball], h1.blocks, s0.points + h1.points, s0.spawns + h1.spawns);
    assert [] + [h1.ball] == [h1.ball] && [] + h1.spawns == h1.spawns;
    assert [h1.ball] + [BallPass(paddle, second, h1.blocks).ball] == [h1.ball, BallPass(paddle, second, h1.blocks).ball];
  }
}
