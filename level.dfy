/**
 * The level builder as values: the fixed 6 x 6 grid of blocks and the
 * choice of the blocks that spawn a ball when destroyed. The random block
 * indices are a parameter `rolls`, consumed front to back.
 */
module Level {
  import opened Geometry
  import opened Entities

  const Columns: nat := 6
  const Rows: nat := 6
  const BlockCount: nat := 36
  const Padding: real := 5.0
  const CellWidth: real := BlockWidth + Padding
  const CellHeight: real := BlockHeight + Padding
  const SpecialPicks: nat := 3

  /** Top-left corner of the grid: centred on the field by its cell width, 50 units down. */
  function BoardStart(width: real): Vec2
  {
    Vec2((width - CellWidth * (Columns as real)) * 0.5, 50.0)
  }

  /** Position of block `i` of the grid: column `i % 6`, row `i / 6`. */
  function Slot(width: real, i: nat): Vec2
  {
    var start := BoardStart(width);
    Vec2(start.x + ((i % Columns) as real) * CellWidth, start.y + ((i / Columns) as real) * CellHeight)
  }

  /** The 36 freshly built blocks, all Regular with two lives. */
  function Grid(width: real): (g: seq<BlockState>)
    ensures |g| == BlockCount
  {
    seq(BlockCount, i requires 0 <= i < BlockCount => NewBlock(Slot(width, i), Regular))
  }

  /**
   * Two different blocks of the grid never overlap, not even along an edge:
   * neighbours in a row are 5 units apart, neighbours in a column 5 units.
   */
  lemma GridCellsApart(width: real, i: nat, j: nat)
    requires i < j < BlockCount
    ensures Intersect(Grid(width)[i].rect, Grid(width)[j].rect).None?
  {
    SlotsApart(width, i, j);
    assert Grid(width)[i].rect == Rect(Slot(width, i).x, Slot(width, i).y, BlockWidth, BlockHeight);
    assert Grid(width)[j].rect == Rect(Slot(width, j).x, Slot(width, j).y, BlockWidth, BlockHeight);
  }

  /**
   * Two different slots lie a whole cell apart: along the row when their
   * columns differ, down the column otherwise.
   */
  lemma SlotsApart(width: real, i: nat, j: nat)
    requires i < j < BlockCount
    ensures || Slot(width, j).x >= Slot(width, i).x + CellWidth
            || Slot(width, i).x >= Slot(width, j).x + CellWidth
            || Slot(width, j).y >= Slot(width, i).y + CellHeight
  {
    var ci, cj, ri, rj := i % Columns, j % Columns, i / Columns, j / Columns;
    if ci < cj {
      ScaledGap(ci, cj, CellWidth);
    } else if cj < ci {
      ScaledGap(cj, ci, CellWidth);
    } else {
      assert i == ri * 6 + ci && j == rj * 6 + cj;
      ScaledGap(ri, rj, CellHeight);
    }
  }

  /** Positions `p` and `q > p` steps of size `c` from a start are at least one step apart. */
  lemma ScaledGap(p: nat, q: nat, c: real)
    requires p < q && c >= 0.0
    ensures (q as real) * c >= (p as real) * c + c
  {
    assert (q as real) * c == (p as real) * c + ((q - p) as real) * c;
    assert ((q - p) as real) * c == c + ((q - p - 1) as real) * c;
  }

  /**
   * The grid's left margin is half of what the six cells leave free; the
   * right margin is larger by one padding, because the last cell's padding
   * lies outside its block.
   */
  lemma GridMargins(width: real)
    ensures Grid(width)[0].rect.x == (width - 630.0) / 2.0
    ensures width - (Grid(width)[Columns - 1].rect.x + BlockWidth) == Grid(width)[0].rect.x + Padding
    ensures Grid(width)[BlockCount - 1].rect.y + BlockHeight == 50.0 + 5.0 * CellHeight + BlockHeight
  {
  }

  /** The special-block draws so far: picks made, draws consumed, last pick. */
  datatype Draw = Draw(chosen: seq<nat>, used: nat, last: nat)

  /**
   * One pick after the picks `p`: take the next draw; when it equals the
   * previous pick it is replaced by the draw after it, once, without
   * checking that one again.
   */
  function NextPick(rolls: seq<nat>, p: Draw): Draw
    requires p.used + 2 <= |rolls|
  {
    var r := rolls[p.used];
    if r == p.last then
      var r' := rolls[p.used + 1];
      Draw(p.chosen + [r'], p.used + 2, r')
    else
      Draw(p.chosen + [r], p.used + 1, r)
  }

  /**
   * The first `n` special-block picks, the previous-pick register starting
   * at 36, no index of a fresh grid.
   */
  function Picks(rolls: seq<nat>, n: nat): (d: Draw)
    requires 2 * n <= |rolls|
    ensures |d.chosen| == n && n <= d.used <= 2 * n
    ensures forall k :: 0 <= k < n ==> d.chosen[k] in rolls
    ensures n == 0 ==> d.last == BlockCount
    ensures n > 0 ==> d.last == d.chosen[n - 1]
  {
    if n == 0 then Draw([], 0, BlockCount)
    else NextPick(rolls, Picks(rolls, n - 1))
  }

  /**
   * The one-shot reroll: a pick takes two draws exactly when its first draw
   * repeats the previous pick, and then it is the second draw, unchecked;
   * otherwise it is the first draw. So a pick repeats the previous one only
   * when two draws in a row both equal it. Earlier picks are kept.
   */
  lemma RepeatOnlyByReroll(rolls: seq<nat>, n: nat)
    requires 2 * n <= |rolls| && n > 0
    ensures var p, d := Picks(rolls, n - 1), Picks(rolls, n);
            d.used == p.used + 2 <==> rolls[p.used] == p.last
    ensures var p, d := Picks(rolls, n - 1), Picks(rolls, n);
            d.chosen[n - 1] == (if d.used == p.used + 2 then rolls[p.used + 1] else rolls[p.used])
    ensures var p, d := Picks(rolls, n - 1), Picks(rolls, n);
            d.chosen[n - 1] == p.last ==> d.used == p.used + 2 && rolls[p.used] == p.last && rolls[p.used + 1] == p.last
    ensures var p, d := Picks(rolls, n - 1), Picks(rolls, n);
            d.chosen == p.chosen + [d.chosen[n - 1]]
  {
  }

  /**
   * Draws that come in equal pairs are absorbed by the reroll: a,a,b,b,c,c
   * picks a, b and c, where taking every draw as a pick would give a, a, b.
   */
  lemma RerollSkipsPairs(a: nat, b: nat, c: nat)
    requires a < BlockCount
    ensures Picks([a, a, b, b, c, c], 3).chosen == [a, b, c]
  {
    var rolls := [a, a, b, b, c, c];
    assert Picks(rolls, 1) == Draw([a], 1, a);
    assert Picks(rolls, 2) == Draw([a, b], 3, b);
  }

  /** Retags the blocks at the chosen indices as SpawnBallOnDeath. */
  function Mark(bs: seq<BlockState>, chosen: seq<nat>): (r: seq<BlockState>)
    requires forall k :: 0 <= k < |chosen| ==> chosen[k] < |bs|
    ensures |r| == |bs|
    decreases |chosen|
  {
    if chosen == [] then bs
    else
      var i := chosen[|chosen| - 1];
      var m := Mark(bs, chosen[..|chosen| - 1]);
      m[i := m[i].(kind := SpawnBallOnDeath)]
  }

  /**
   * Retagging changes only types: a block is a spawner afterwards exactly
   * when it was one before or its index was chosen.
   */
  lemma {:induction false} MarkFacts(bs: seq<BlockState>, chosen: seq<nat>)
    requires forall k :: 0 <= k < |chosen| ==> chosen[k] < |bs|
    ensures var r := Mark(bs, chosen);
            && (forall k :: 0 <= k < |bs| ==> r[k].rect == bs[k].rect && r[k].lives == bs[k].lives)
            && (forall k :: 0 <= k < |bs| ==>
                  (r[k].kind == SpawnBallOnDeath <==> bs[k].kind == SpawnBallOnDeath || k in chosen))
    decreases |chosen|
  {
    if chosen != [] {
      var init := chosen[..|chosen| - 1];
      MarkFacts(bs, init);
      assert chosen == init + [chosen[|chosen| - 1]];
    }
  }

  /** One more pick retags one more block. */
  lemma MarkAppend(bs: seq<BlockState>, chosen: seq<nat>, i: nat)
    requires forall k :: 0 <= k < |chosen| ==> chosen[k] < |bs|
    requires i < |bs|
    ensures Mark(bs, chosen + [i]) == Mark(bs, chosen)[i := Mark(bs, chosen)[i].(kind := SpawnBallOnDeath)]
  {
    assert (chosen + [i])[..|chosen|] == chosen;
  }

  /** Whether `rolls` can serve the level builder on a list of `n` blocks: six draws, each an index. */
  ghost predicate RollsFor(rolls: seq<nat>, n: nat)
  {
    |rolls| >= 2 * SpecialPicks && forall r :: r in rolls ==> r < n
  }

  /**
   * The block list after the builder ran on `prev`: `prev`, then the 36 grid
   * blocks (block `i` at `Slot(width, i)`, two lives), with the three picks
   * (indices into the whole list) retagged SpawnBallOnDeath.
   */
  function LevelBlocks(prev: seq<BlockState>, width: real, rolls: seq<nat>): (r: seq<BlockState>)
    requires RollsFor(rolls, |prev| + BlockCount)
    ensures |r| == |prev| + BlockCount
    ensures forall k :: 0 <= k < |prev| ==> r[k].rect == prev[k].rect && r[k].lives == prev[k].lives
    ensures forall k :: 0 <= k < BlockCount ==>
              r[|prev| + k].rect == Rect(Slot(width, k).x, Slot(width, k).y, BlockWidth, BlockHeight)
    ensures forall k :: |prev| <= k < |r| ==> r[k].lives == 2
    ensures forall k :: 0 <= k < |r| ==>
              (r[k].kind == SpawnBallOnDeath <==>
                 (k < |prev| && prev[k].kind == SpawnBallOnDeath) || k in Picks(rolls, SpecialPicks).chosen)
  {
    var all := prev + Grid(width);
    var chosen := Picks(rolls, SpecialPicks).chosen;
    assert forall k :: 0 <= k < |chosen| ==> chosen[k] < |all|;
    MarkFacts(all, chosen);
    Mark(all, chosen)
  }

  /** Indices of the blocks that spawn a ball when destroyed. */
  function SpawnSet(bs: seq<BlockState>): set<nat>
  {
    set k: nat | k < |bs| && bs[k].kind == SpawnBallOnDeath
  }

  /** The indices a sequence of picks names. */
  function Elems(s: seq<nat>): set<nat>
  {
    set x | x in s
  }

  lemma {:induction false} ElemsAtMostLength(s: seq<nat>)
    ensures |Elems(s)| <= |s|
  {
    if s != [] {
      var init := s[..|s| - 1];
      var last := s[|s| - 1];
      ElemsAtMostLength(init);
      assert s == init + [last];
      assert Elems(s) == Elems(init) + {last};
      if last in Elems(init) {
        assert Elems(s) == Elems(init);
      } else {
        assert Elems(init) * {last} == {};
      }
    }
  }

  /**
   * On a fresh board between one and three blocks spawn balls: exactly the
   * picked indices. Picks may repeat, so "three" is not guaranteed.
   */
  lemma SpecialBlockCount(width: real, rolls: seq<nat>)
    requires RollsFor(rolls, BlockCount)
    ensures var chosen := Picks(rolls, SpecialPicks).chosen;
            SpawnSet(LevelBlocks([], width, rolls)) == Elems(chosen)
    ensures 1 <= |SpawnSet(LevelBlocks([], width, rolls))| <= SpecialPicks
  {
    var bs := LevelBlocks([], width, rolls);
    var chosen := Picks(rolls, SpecialPicks).chosen;
    forall x: nat | x in chosen
      ensures x in SpawnSet(bs)
    {
      assert x < BlockCount;
    }
    assert SpawnSet(bs) == Elems(chosen);
    ElemsAtMostLength(chosen);
    assert chosen[0] in SpawnSet(bs);
  }

  /**
   * On a fresh board the first pick is never rerolled: the previous pick
   * starts at 36, which no draw in 0..36 equals.
   */
  lemma FirstPickKept(rolls: seq<nat>)
    requires RollsFor(rolls, BlockCount)
    ensures Picks(rolls, SpecialPicks).chosen[0] == rolls[0]
  {
    var p1 := Picks(rolls, 1);
    assert rolls[0] in rolls;
    assert p1.chosen == [rolls[0]];
    var p2 := Picks(rolls, 2);
    assert p2.chosen[0] == rolls[0];
  }

  lemma ThreeDistinct(a: nat, b: nat, c: nat)
    requires a != b && b != c && a != c
    ensures |Elems([a, b, c])| == 3
  {
    assert Elems([a, b, c]) == {a, b, c};
  }

  /** With three different first draws nothing is rerolled: the picks are those draws. */
  lemma DistinctDrawsPicked(rolls: seq<nat>)
    requires RollsFor(rolls, BlockCount)
    requires rolls[0] != rolls[1] && rolls[1] != rolls[2] && rolls[0] != rolls[2]
    ensures Picks(rolls, SpecialPicks).chosen == [rolls[0], rolls[1], rolls[2]]
  {
    var p1 := Picks(rolls, 1);
    assert rolls[0] in rolls;
    assert p1.chosen == [rolls[0]] && p1.used == 1 && p1.last == rolls[0];
    var p2 := Picks(rolls, 2);
    assert p2.chosen == [rolls[0], rolls[1]] && p2.used == 2 && p2.last == rolls[1];
    var p3 := Picks(rolls, 3);
    assert p3.chosen == [rolls[0], rolls[1], rolls[2]];
  }

  /** Three different first draws give three different special blocks. */
  lemma DistinctDrawsGiveThree(width: real, rolls: seq<nat>)
    requires RollsFor(rolls, BlockCount)
    requires rolls[0] != rolls[1] && rolls[1] != rolls[2] && rolls[0] != rolls[2]
    ensures |SpawnSet(LevelBlocks([], width, rolls))| == 3
  {
    DistinctDrawsPicked(rolls);
    SpecialBlockCount(width, rolls);
    ThreeDistinct(rolls[0], rolls[1], rolls[2]);
  }

  /** When every draw repeats one index, every pick is that index. */
  lemma RepeatedDrawsPicked(rolls: seq<nat>)
    requires RollsFor(rolls, BlockCount)
    requires forall k :: 0 <= k < |rolls| ==> rolls[k] == rolls[0]
    ensures Picks(rolls, SpecialPicks).chosen == [rolls[0], rolls[0], rolls[0]]
  {
    var r := rolls[0];
    var p1 := Picks(rolls, 1);
    assert r in rolls;
    assert p1.chosen == [r] && p1.used == 1 && p1.last == r;
    var p2 := Picks(rolls, 2);
    assert rolls[1] == r && rolls[2] == r;
    assert p2.chosen == [r, r] && p2.used == 3 && p2.last == r;
    assert rolls[3] == r && rolls[4] == r;
  }

  /** Draws that keep repeating one index leave a single special block. */
  lemma RepeatedDrawsGiveOne(width: real, rolls: seq<nat>)
    requires RollsFor(rolls, BlockCount)
    requires forall k :: 0 <= k < |rolls| ==> rolls[k] == rolls[0]
    ensures |SpawnSet(LevelBlocks([], width, rolls))| == 1
  {
    RepeatedDrawsPicked(rolls);
    SpecialBlockCount(width, rolls);
    var r := rolls[0];
    assert Elems([r, r, r]) == {r};
  }
}
