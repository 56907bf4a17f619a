/**
 * The game as the frame loop runs it: a context object holding the state
 * machine, score, lives, the paddle and the mutable lists of blocks and
 * balls. Every phase of a frame updates the objects in place and is proved
 * to do what the value-level rules say.
 */
module Game {
  import opened Geometry
  import opened Entities
  import opened Level
  import opened Rules

  /** Entries `i` and `j` of the list, when both exist and differ, are different objects. */
  ghost predicate Apart<T>(s: seq<T>, i: int, j: int)
  {
    0 <= i < |s| && 0 <= j < |s| && i != j ==> s[i] != s[j]
  }

  /**
   * No object occurs twice in the list. The trigger keeps the solver from
   * pairing up every two entries it sees; `DistinctOthers` states the
   * consequence for one entry.
   */
  ghost predicate Distinct<T>(s: seq<T>)
  {
    forall i, j {:trigger Apart(s, i, j)} :: Apart(s, i, j)
  }

  lemma DistinctOthers<T>(s: seq<T>, j: int)
    requires Distinct(s) && 0 <= j < |s|
    ensures forall k :: 0 <= k < |s| && k != j ==> s[k] != s[j]
  {
    forall k | 0 <= k < |s| && k != j
      ensures s[k] != s[j]
    {
      assert Apart(s, k, j);
    }
  }

  lemma DistinctAppend<T>(s: seq<T>, x: T)
    requires Distinct(s) && x !in s
    ensures Distinct(s + [x])
  {
    forall i, j
      ensures Apart(s + [x], i, j)
    {
      if 0 <= i < |s| && 0 <= j < |s| {
        assert Apart(s, i, j);
      }
    }
  }

  lemma NotInPrefix<T>(s: seq<T>, i: int)
    requires Distinct(s) && 0 <= i < |s|
    ensures s[i] !in s[..i]
  {
    forall k | 0 <= k < i
      ensures s[..i][k] != s[i]
    {
      assert Apart(s, k, i);
    }
  }

  /** The current values of a list of ball objects. */
  ghost function BallStates(bs: seq<Ball>): seq<BallState>
    reads bs
  {
    seq(|bs|, k requires 0 <= k < |bs| reads bs => bs[k].State())
  }

  /** The current values of a list of block objects. */
  ghost function BlockStates(bs: seq<Block>): seq<BlockState>
    reads bs
  {
    seq(|bs|, k requires 0 <= k < |bs| reads bs => bs[k].State())
  }

  /** Ball objects whose values are, entry by entry, those of `x`. */
  lemma BallStatesAre(bs: seq<Ball>, x: seq<BallState>)
    requires |bs| == |x| && forall k :: 0 <= k < |bs| ==> bs[k].State() == x[k]
    ensures BallStates(bs) == x
  {
  }

  /** Ball objects whose first `|x|` values are `x` and whose remaining values are `y`. */
  lemma AppendedStates(bs: seq<Ball>, x: seq<BallState>, y: seq<BallState>)
    requires |bs| == |x| + |y|
    requires forall k :: 0 <= k < |x| ==> bs[k].State() == x[k]
    requires forall k :: |x| <= k < |bs| ==> bs[k].State() == y[k - |x|]
    ensures BallStates(bs) == x + y
  {
  }

  /** Block objects whose values are, entry by entry, those of `x`. */
  lemma BlockStatesAre(bs: seq<Block>, x: seq<BlockState>)
    requires |bs| == |x| && forall k :: 0 <= k < |bs| ==> bs[k].State() == x[k]
    ensures BlockStates(bs) == x
  {
  }

  /**
   * Builds the level on `blocks`: appends the 36 grid blocks, then draws the
   * spawner picks from `rolls` (indices into the whole list) and retags them.
   */
  method InitBlocks(blocks: seq<Block>, width: real, rolls: seq<nat>) returns (r: seq<Block>)
    requires Distinct(blocks) && RollsFor(rolls, |blocks| + BlockCount)
    modifies blocks
    ensures Distinct(r) && |r| == |blocks| + BlockCount && r[..|blocks|] == blocks
    ensures forall k :: |blocks| <= k < |r| ==> fresh(r[k])
    ensures BlockStates(r) == LevelBlocks(old(BlockStates(blocks)), width, rolls)
  {
    ghost var prev := BlockStates(blocks);
    r := PushGrid(blocks, width);
    ghost var all := prev + Grid(width);
    forall k | 0 <= k < |blocks|
      ensures r[k].State() == all[k]
    {
      assert r[k] == r[..|blocks|][k];
    }
    MarkSpecials(r, rolls, all);
    BlockStatesAre(r, Mark(all, Picks(rolls, SpecialPicks).chosen));
  }

  /** The builder's first loop: the 6 x 6 grid, row by row, each block new and Regular. */
  method PushGrid(blocks: seq<Block>, width: real) returns (r: seq<Block>)
    requires Distinct(blocks)
    ensures Distinct(r) && |r| == |blocks| + BlockCount && r[..|blocks|] == blocks
    ensures forall k :: |blocks| <= k < |r| ==> fresh(r[k]) && r[k].State() == Grid(width)[k - |blocks|]
  {
    r := blocks;
    var padding := Padding;
    var cell := Vec2(BlockWidth + padding, BlockHeight + padding);
    var start := Vec2((width - cell.x * (Columns as real)) * 0.5, 50.0);
    for i := 0 to Columns * Rows
      invariant |r| == |blocks| + i && r[..|blocks|] == blocks && Distinct(r)
      invariant forall k :: |blocks| <= k < |r| ==> fresh(r[k]) && r[k].State() == Grid(width)[k - |blocks|]
    {
      var blockX := ((i % Columns) as real) * cell.x;
      var blockY := ((i / Columns) as real) * cell.y;
      var b := new Block(Vec2(start.x + blockX, start.y + blockY), Regular);
      DistinctAppend(r, b);
      assert (r + [b])[..|blocks|] == r[..|blocks|];
      r := r + [b];
    }
  }

  /**
   * The builder's second loop: three picks from `rolls`, each rerolled once
   * when it repeats the previous pick, retagging the picked blocks in place.
   */
  method MarkSpecials(r: seq<Block>, rolls: seq<nat>, ghost all: seq<BlockState>)
    requires Distinct(r) && RollsFor(rolls, |r|) && |all| == |r|
    requires forall k :: 0 <= k < |r| ==> r[k].State() == all[k]
    modifies r
    ensures forall k :: 0 <= k < |r| ==> r[k].State() == Mark(all, Picks(rolls, SpecialPicks).chosen)[k]
  {
    var lastNum: nat := BlockCount;
    var next: nat := 0;
    ghost var chosen: seq<nat> := [];
    for t := 0 to SpecialPicks
      invariant Picks(rolls, t) == Draw(chosen, next, lastNum)
      invariant forall k :: 0 <= k < |chosen| ==> chosen[k] < |all|
      invariant forall k :: 0 <= k < |r| ==> r[k].State() == Mark(all, chosen)[k]
    {
      next, lastNum, chosen := MarkOne(r, rolls, next, lastNum, all, chosen);
    }
  }

  /**
   * One pick: draw an index, draw again when it repeats the previous pick,
   * and make that block a spawner.
   */
  method MarkOne(r: seq<Block>, rolls: seq<nat>, next: nat, lastNum: nat, ghost all: seq<BlockState>, ghost chosen: seq<nat>)
    returns (next': nat, lastNum': nat, ghost chosen': seq<nat>)
    requires Distinct(r) && RollsFor(rolls, |r|) && |all| == |r| && next + 2 <= |rolls|
    requires forall k :: 0 <= k < |chosen| ==> chosen[k] < |all|
    requires forall k :: 0 <= k < |r| ==> r[k].State() == Mark(all, chosen)[k]
    modifies r
    ensures Draw(chosen', next', lastNum') == NextPick(rolls, Draw(chosen, next, lastNum))
    ensures forall k :: 0 <= k < |chosen'| ==> chosen'[k] < |all|
    ensures forall k :: 0 <= k < |r| ==> r[k].State() == Mark(all, chosen')[k]
  {
    var randIndex := rolls[next];
    next' := next + 1;
    if randIndex == lastNum {
      var reroll := rolls[next'];
      next' := next' + 1;
      lastNum' := reroll;
    } else {
      lastNum' := randIndex;
    }
    assert lastNum' in rolls;
    Retag(r, lastNum', Mark(all, chosen));
    MarkAppend(all, chosen, lastNum');
    chosen' := chosen + [lastNum'];
  }

  /** Block `x` of `r` becomes a spawner; every block keeps the rest of its state `cur`. */
  method Retag(r: seq<Block>, x: nat, ghost cur: seq<BlockState>)
    requires Distinct(r) && x < |r| && |cur| == |r|
    requires forall k :: 0 <= k < |r| ==> r[k].State() == cur[k]
    modifies r[x]
    ensures forall k :: 0 <= k < |r| ==> r[k].State() == cur[x := cur[x].(kind := SpawnBallOnDeath)][k]
  {
    DistinctOthers(r, x);
    r[x].kind := SpawnBallOnDeath;
  }

  /** `retain` on the balls: keeps, in order, those above the bottom edge. */
  method RetainOnField(bs: seq<Ball>, height: real) returns (kept: seq<Ball>)
    requires Distinct(bs)
    ensures Distinct(kept) && forall b :: b in kept ==> b in bs
    ensures BallStates(kept) == OnField(BallStates(bs), height)
  {
    ghost var states := BallStates(bs);
    kept := [];
    for i := 0 to |bs|
      invariant BallStates(kept) == OnField(states[..i], height)
      invariant Distinct(kept) && forall b :: b in kept ==> b in bs[..i]
    {
      assert states[..i + 1][..i] == states[..i];
      if bs[i].rect.y < height {
        NotInPrefix(bs, i);
        DistinctAppend(kept, bs[i]);
        assert (kept + [bs[i]])[..|kept|] == kept;
        kept := kept + [bs[i]];
      }
    }
    assert states[..|bs|] == states;
  }

  /** `retain` on the blocks: keeps, in order, those with lives left. */
  method RetainStanding(bs: seq<Block>) returns (kept: seq<Block>)
    requires Distinct(bs)
    ensures Distinct(kept) && forall b :: b in kept ==> b in bs
    ensures BlockStates(kept) == Standing(BlockStates(bs))
  {
    ghost var states := BlockStates(bs);
    kept := [];
    for i := 0 to |bs|
      invariant BlockStates(kept) == Standing(states[..i])
      invariant Distinct(kept) && forall b :: b in kept ==> b in bs[..i]
    {
      assert states[..i + 1][..i] == states[..i];
      if bs[i].lives > 0 {
        NotInPrefix(bs, i);
        DistinctAppend(kept, bs[i]);
        assert (kept + [bs[i]])[..|kept|] == kept;
        kept := kept + [bs[i]];
      }
    }
    assert states[..|bs|] == states;
  }

  /** The state kept across frames, updated in place by each frame. */
  class GameContext {
    var gameState: GameState
    var score: int
    var playerLives: int
    var player: Player
    var blocks: seq<Block>
    var balls: seq<Ball>

    ghost predicate Valid()
      reads this
    {
      Distinct(blocks) && Distinct(balls)
    }

    ghost function View(): World
      reads this, player, blocks, balls
    {
      World(gameState, score, playerLives, player.rect, BlockStates(blocks), BallStates(balls))
    }

    /** The state at program start: a fresh game in the menu. */
    constructor(width: real, height: real, rolls: seq<nat>)
      requires RollsFor(rolls, BlockCount)
      ensures Valid() && View() == FreshGame(width, height, rolls)
    {
      gameState := Menu;
      score := 0;
      playerLives := StartingLives;
      player := new Player(width, height);
      balls := [];
      var built := InitBlocks([], width, rolls);
      blocks := built;
    }

    /** Puts back the paddle, score, lives, balls and blocks of a fresh game; the state is the caller's. */
    method Reset(width: real, height: real, rolls: seq<nat>)
      requires RollsFor(rolls, BlockCount)
      modifies this
      ensures Valid() && View() == FreshGame(width, height, rolls).(state := old(gameState))
    {
      player := new Player(width, height);
      score := 0;
      playerLives := StartingLives;
      balls := [];
      blocks := [];
      blocks := InitBlocks(blocks, width, rolls);
    }

    /** One frame. */
    method Frame(inp: Input)
      requires Valid() && RollsFor(inp.rolls, BlockCount)
      modifies this, player, blocks, balls
      ensures Valid() && View() == Step(old(View()), inp)
    {
      match gameState
      case Menu =>
        if inp.space {
          gameState := Game;
          var ball := new Ball(ServePoint(player.rect), inp.draws(0));
          DistinctAppend(balls, ball);
          balls := balls + [ball];
        }
      case Game =>
        Play(inp);
      case LevelCompleted =>
        if inp.space {
          gameState := Menu;
          Reset(inp.width, inp.height, inp.rolls);
        }
      case Dead =>
        if inp.space {
          gameState := Menu;
          Reset(inp.width, inp.height, inp.rolls);
        }
    }

    /** The Game arm of a frame. */
    method Play(inp: Input)
      requires Valid()
      modifies this, player, blocks, balls
      ensures Valid() && View() == GameTick(old(View()), inp)
    {
      ghost var w := View();
      MoveAll(inp);
      var queued := Strike(inp.draws);
      DropFallenBalls(inp.height, inp.draws(queued));
      ClearDeadBlocks();
    }

    /** The paddle follows the arrow keys; every ball moves and bounces off the side and top edges. */
    method MoveAll(inp: Input)
      requires Valid()
      modifies player, balls
      ensures Valid() && View() == Moved(old(View()), inp)
    {
      player.Update(inp.dt, inp.left, inp.right, inp.width);
      UpdateBalls(inp.dt, inp.width);
    }

    /** The collisions of the frame, then the collected balls join the others. */
    method Strike(draws: nat -> Vec2) returns (queued: nat)
      requires Valid()
      modifies this, balls, blocks
      ensures Valid() && View() == Struck(old(View()), draws)
      ensures queued == |SweepBalls(old(View()).player, old(View()).balls, old(View()).blocks).spawns|
    {
      ghost var w := View();
      ghost var s := SweepBalls(w.player, w.balls, w.blocks);
      var spawnAt := Collisions(w);
      BallStatesAre(balls, s.balls);
      BlockStatesAre(blocks, s.blocks);
      QueueSpawns(spawnAt, draws);
      queued := |spawnAt|;
      assert View() == World(w.state, w.score + s.points, w.lives, w.player, s.blocks, s.balls + Spawned(s.spawns, draws, 0));
    }

    /** Every ball moves and bounces off the side and top edges. */
    method UpdateBalls(dt: real, width: real)
      requires Valid()
      modifies balls
      ensures Valid() && View() == old(View()).(balls := MoveBalls(old(View()).balls, dt, width))
    {
      ghost var before := BallStates(balls);
      for i := 0 to |balls|
        invariant forall k :: 0 <= k < i ==> balls[k].State() == BallStep(before[k], dt, width)
        invariant forall k :: i <= k < |balls| ==> balls[k].State() == before[k]
      {
        DistinctOthers(balls, i);
        balls[i].Update(dt, width);
      }
    }

    /**
     * Each ball in turn is bounced off the paddle and then resolved against
     * every block; the positions of the killed spawners are collected, in order.
     */
    method Collisions(ghost w: World) returns (spawnAt: seq<Vec2>)
      requires Valid() && player.rect == w.player && score == w.score
      requires |w.balls| == |balls| && forall k :: 0 <= k < |balls| ==> balls[k].State() == w.balls[k]
      requires |w.blocks| == |blocks| && forall k :: 0 <= k < |blocks| ==> blocks[k].State() == w.blocks[k]
      modifies this`score, balls, blocks
      ensures var s := SweepBalls(w.player, w.balls, w.blocks);
              && score == w.score + s.points && spawnAt == s.spawns
              && (forall k :: 0 <= k < |balls| ==> balls[k].State() == s.balls[k])
              && (forall k :: 0 <= k < |blocks| ==> blocks[k].State() == s.blocks[k])
    {
      var bs, ks, paddle := balls, blocks, player.rect;
      ghost var s := SweepBalls(w.player, [], w.blocks);
      spawnAt := [];
      for i := 0 to |bs|
        invariant s == SweepBalls(w.player, w.balls[..i], w.blocks)
        invariant forall k :: 0 <= k < |bs| ==> bs[k].State() == if k < i then s.balls[k] else w.balls[k]
        invariant forall k :: 0 <= k < |ks| ==> ks[k].State() == s.blocks[k]
        invariant score == w.score + s.points && spawnAt == s.spawns
      {
        spawnAt, s := SweepStep(bs, ks, paddle, i, w, s, spawnAt);
      }
      assert w.balls[..|bs|] == w.balls;
    }

    /**
     * The body of the collision loop: ball `i` takes its turn, which
     * extends the sweep of the balls before it by that ball.
     */
    method SweepStep(bs: seq<Ball>, ks: seq<Block>, paddle: Rect, i: nat, ghost w: World, ghost s: Sweep, spawnAt: seq<Vec2>)
      returns (spawnAt': seq<Vec2>, ghost s': Sweep)
      requires Distinct(bs) && Distinct(ks) && i < |bs| == |w.balls| && |ks| == |w.blocks| && paddle == w.player
      requires s == SweepBalls(paddle, w.balls[..i], w.blocks)
      requires forall k :: 0 <= k < |bs| ==> bs[k].State() == if k < i then s.balls[k] else w.balls[k]
      requires forall k :: 0 <= k < |ks| ==> ks[k].State() == s.blocks[k]
      requires score == w.score + s.points && spawnAt == s.spawns
      modifies this`score, bs[i], ks
      ensures s' == SweepBalls(paddle, w.balls[..i + 1], w.blocks)
      ensures forall k :: 0 <= k < |bs| ==> bs[k].State() == if k < i + 1 then s'.balls[k] else w.balls[k]
      ensures forall k :: 0 <= k < |ks| ==> ks[k].State() == s'.blocks[k]
      ensures score == w.score + s'.points && spawnAt' == s'.spawns
    {
      assert w.balls[..i + 1][..i] == w.balls[..i];
      DistinctOthers(bs, i);
      var more := BounceBall(bs[i], ks, paddle, w.balls[i], s.blocks);
      spawnAt' := spawnAt + more;
      s' := SweepBalls(paddle, w.balls[..i + 1], w.blocks);
    }

    /**
     * One ball's turn, from state `b` with the blocks `ks` in states `before`:
     * the paddle at `paddle`, then every block in list order.
     */
    method BounceBall(ball: Ball, ks: seq<Block>, paddle: Rect, ghost b: BallState, ghost before: seq<BlockState>)
      returns (spawnAt: seq<Vec2>)
      requires Distinct(ks) && ball.State() == b
      requires |before| == |ks| && forall k :: 0 <= k < |ks| ==> ks[k].State() == before[k]
      modifies this`score, ball, ks
      ensures var h := BallPass(paddle, b, before);
              && ball.State() == h.ball && score == old(score) + h.points && spawnAt == h.spawns
              && forall k :: 0 <= k < |ks| ==> ks[k].State() == h.blocks[k]
    {
      var hitPaddle, r, v := ResolveCollision(ball.rect, ball.vel, paddle);
      ball.rect, ball.vel := r, v;
      spawnAt := HitAll(ball, ks, BallState(r, v), before);
    }

    /** One ball, whose state is `b0`, against every block of `ks` in order: lives, score and spawner kills as it goes. */
    method HitAll(ball: Ball, ks: seq<Block>, ghost b0: BallState, ghost before: seq<BlockState>) returns (spawnAt: seq<Vec2>)
      requires Distinct(ks) && ball.State() == b0
      requires |before| == |ks| && forall k :: 0 <= k < |ks| ==> ks[k].State() == before[k]
      modifies this`score, ball, ks
      ensures var h := HitBlocks(b0, before);
              && ball.State() == h.ball && score == old(score) + h.points && spawnAt == h.spawns
              && forall k :: 0 <= k < |ks| ==> ks[k].State() == h.blocks[k]
    {
      ghost var h := HitBlocks(b0, []);
      spawnAt := [];
      for j := 0 to |ks|
        invariant h == HitBlocks(b0, before[..j])
        invariant ball.State() == h.ball && score == old(score) + h.points && spawnAt == h.spawns
        invariant forall k :: 0 <= k < |ks| ==> ks[k].State() == if k < j then h.blocks[k] else before[k]
      {
        assert before[..j + 1][..j] == before[..j];
        DistinctOthers(ks, j);
        var more := HitBlock(ball, ks[j], h.ball, before[j]);
        spawnAt := spawnAt + more;
        h := HitBlocks(b0, before[..j + 1]);
      }
      assert before[..|ks|] == before;
    }

    /** One ball against one block, in states `b0` and `k0`; a killed spawner's position is returned for later. */
    method HitBlock(ball: Ball, block: Block, ghost b0: BallState, ghost k0: BlockState) returns (spawnAt: seq<Vec2>)
      requires ball.State() == b0 && block.State() == k0
      modifies this`score, ball, block
      ensures var o := HitOne(b0, k0);
              && ball.State() == o.ball && block.State() == o.block
              && score == old(score) + o.points && spawnAt == o.spawns
    {
      spawnAt := [];
      var hit, r, v := ResolveCollision(ball.rect, ball.vel, block.rect);
      ball.rect, ball.vel := r, v;
      if hit {
        block.lives := block.lives - 1;
        if block.lives <= 0 {
          score := score + ScorePerBlock;
          if block.kind == SpawnBallOnDeath {
            spawnAt := [Point(ball.rect)];
          }
        }
      }
    }

    /** The collected balls join the list in order, the k-th created with draw k. */
    method QueueSpawns(spawnAt: seq<Vec2>, draws: nat -> Vec2)
      requires Valid()
      modifies this`balls
      ensures Valid() && |balls| == |old(balls)| + |spawnAt| && balls[..|old(balls)|] == old(balls)
      ensures forall k :: |old(balls)| <= k < |balls| ==>
                fresh(balls[k]) && balls[k].State() == NewBall(spawnAt[k - |old(balls)|], draws(k - |old(balls)|))
      ensures BallStates(balls) == old(BallStates(balls)) + Spawned(spawnAt, draws, 0)
    {
      ghost var n := |balls|;
      ghost var before := BallStates(balls);
      for k := 0 to |spawnAt|
        invariant Valid() && |balls| == n + k && balls[..n] == old(balls)
        invariant forall i :: n <= i < |balls| ==> fresh(balls[i]) && balls[i].State() == NewBall(spawnAt[i - n], draws(i - n))
      {
        var ball := new Ball(spawnAt[k], draws(k));
        DistinctAppend(balls, ball);
        assert (balls + [ball])[..n] == balls[..n];
        balls := balls + [ball];
      }
      forall k | 0 <= k < n
        ensures balls[k].State() == before[k]
      {
        assert balls[k] == balls[..n][k];
      }
      AppendedStates(balls, before, Spawned(spawnAt, draws, 0));
    }

    /** Drops the balls below the bottom edge; losing the last one costs a life. */
    method DropFallenBalls(height: real, vel: Vec2)
      requires Valid()
      modifies this
      ensures Valid() && View() == AfterFall(old(View()), height, vel)
    {
      var ballsLen := |balls|;
      balls := RetainOnField(balls, height);
      var removed := ballsLen - |balls|;
      if removed > 0 && |balls| == 0 {
        playerLives := playerLives - 1;
        if playerLives >= 1 {
          var ball := new Ball(ServePoint(player.rect), vel);
          balls := balls + [ball];
        }
        if playerLives <= 0 {
          gameState := Dead;
        }
      }
    }

    /** Drops the blocks without lives; an empty board completes the level. */
    method ClearDeadBlocks()
      requires Valid()
      modifies this
      ensures Valid() && View() == AfterClear(old(View()))
    {
      ghost var w := View();
      blocks := RetainStanding(blocks);
      assert BallStates(balls) == w.balls;
      assert BlockStates(blocks) == Standing(w.blocks);
      if |blocks| == 0 {
        gameState := LevelCompleted;
      }
    }
  }
}
