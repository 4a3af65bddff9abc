/** `GeneticSearch::generate_random_sequence` of src/genetic_algorithm.rs:
    the random initial chromosome, a walk from the robot's position that only
    ever advances onto tiles the robot may stand on. The draws of
    `random_input_dir` are supplied by the caller. */
module Generator {
  import opened World
  import opened Actions
  import opened Population
  import Helpers
  import opened Genetic

  /** The retry loop of one gene: the chosen action, where the cursor goes,
      and the draws left; or an index outside the map, or no draws left. */
  datatype Retried = Retried(dir: InputDir, x: int, y: int, rest: seq<Draw5>) | RetryPanic | RetryOutOfPicks

  /** What generating produced: the genes, the final cursor and the draws
      left; or an index outside the map, or no draws left. */
  datatype Generated = Generated(genes: seq<InputDir>, x: int, y: int, rest: seq<Draw5>) | IndexPanic | OutOfPicks

  // ---------------------------------------------------------------------
  // As written

  /** The retry loop as written: while the candidate (sx, sy) is not a good
      tile, a new action is drawn and the candidate becomes the cursor plus
      its step, with no guard. The bounds test then looks at the cursor
      (x, y) instead of the candidate, so a candidate outside the map is
      indexed by the next loop test. */
  function RetryAsWritten(g: Grid, x: int, y: int, sx: int, sy: int, dir: InputDir, draws: seq<Draw5>): (r: Retried)
    requires IsWorldGrid(g)
    ensures r.Retried? ==> |r.rest| <= |draws|
    decreases |draws|
  {
    if !InWorld(sx, sy) then RetryPanic
    else if IsGoodTile(CellAt(g, sx, sy)) then Retried(dir, sx, sy, draws)
    else if draws == [] then RetryOutOfPicks
    else
      var d := RandomInputDir(draws[0]);
      var nx, ny := x + ConvertToInt(d).0, y + ConvertToInt(d).1;
      if Helpers.IsNotVisualize(x, y) then Retried(None, nx, ny, draws[1..])
      else RetryAsWritten(g, x, y, nx, ny, d, draws[1..])
  }

  /** `generate_random_sequence` as written, with the helpers' bounds test:
      n rounds, each pushing one gene onto `genes`. */
  function GenerateAsWritten(g: Grid, n: nat, x: int, y: int, genes: seq<InputDir>, draws: seq<Draw5>): (r: Generated)
    requires IsWorldGrid(g)
    decreases n
  {
    if n == 0 then Generated(genes, x, y, draws)
    else if draws == [] then OutOfPicks
    else
      var dir := RandomInputDir(draws[0]);
      var sx, sy := Clamp(x + ConvertToInt(dir).0), Clamp(y + ConvertToInt(dir).1);
      if Helpers.IsNotVisualize(sx, sy) then GenerateAsWritten(g, n - 1, x, y, genes + [None], draws[1..])
      else if !InWorld(sx, sy) then IndexPanic
      else if CellAt(g, sx, sy).Unseen? then GenerateAsWritten(g, n - 1, x, y, genes + [None], draws[1..])
      else
        var r := RetryAsWritten(g, x, y, sx, sy, dir, draws[1..]);
        if r.RetryPanic? then IndexPanic
        else if r.RetryOutOfPicks? then OutOfPicks
        else GenerateAsWritten(g, n - 1, r.x, r.y, genes + [r.dir], r.rest)
  }

  /** A robot map observed everywhere: Lava except one Grass cell at (0, 5). */
  function LavaField(): (g: Grid)
    ensures IsWorldGrid(g)
  {
    seq(WORLD_SIZE, i =>
      seq(WORLD_SIZE, j =>
        if i == 0 && j == 5 then Seen(Tile(Grass, 0, NoContent)) else Seen(Tile(Lava, 0, NoContent))))
  }

  /** From (0, 5), the draw Bottom aims at Lava; the redraw Top makes the
      candidate (-1, 5), which the cursor-based test lets through to the
      index. The corrected loop turns it into a null gene instead. */
  lemma RetryIndexesAboveTheMap()
    ensures GenerateAsWritten(LavaField(), 1, 0, 5, [], [0, 4]) == IndexPanic
    ensures Generate(LavaField(), 1, 0, 5, [], [0, 4]) == Generated([None], 0, 5, [])
  {
    var g := LavaField();
    assert CellAt(g, 1, 5) == Seen(Tile(Lava, 0, NoContent));
    assert RetryAsWritten(g, 0, 5, 1, 5, Bottom(false, false), [4]) == RetryPanic by {
      assert [4][1..] == [];
    }
    assert Retry(g, 0, 5, 1, 5, Bottom(false, false), [4]) == Retried(None, 0, 5, []) by {
      assert [4][1..] == [];
    }
    assert [0, 4][1..] == [4];
  }

  /** From the last row, the draw Bottom aims at row WORLD_SIZE, which the
      helpers' bounds test admits and the map does not have. */
  lemma BottomRowIndexesBelowTheMap()
    ensures GenerateAsWritten(LavaField(), 1, WORLD_SIZE - 1, 5, [], [0]) == IndexPanic
    ensures Generate(LavaField(), 1, WORLD_SIZE - 1, 5, [], [0]) == Generated([None], WORLD_SIZE - 1, 5, [])
  {
    assert [0][1..] == [];
  }

  // ---------------------------------------------------------------------
  // Corrected

  /** The retry loop as intended: the bounds test looks at the candidate
      (with the crate root's test), and a candidate outside the world ends
      the loop with the null move and the cursor where it is. */
  function Retry(g: Grid, x: int, y: int, sx: int, sy: int, dir: InputDir, draws: seq<Draw5>): (r: Retried)
    requires IsWorldGrid(g) && InWorld(x, y) && InWorld(sx, sy)
    requires (sx, sy) == Target(x, y, dir) && Cleared(dir) == dir
    ensures r != RetryPanic
    ensures r.Retried? ==> |r.rest| <= |draws| && Cleared(r.dir) == r.dir
    ensures r.Retried? ==> (r.x, r.y) == Target(x, y, r.dir) && InWorld(r.x, r.y)
    ensures r.Retried? ==> IsGoodTile(CellAt(g, r.x, r.y)) || (r.dir.None? && (r.x, r.y) == (x, y))
    decreases |draws|
  {
    if IsGoodTile(CellAt(g, sx, sy)) then Retried(dir, sx, sy, draws)
    else if draws == [] then RetryOutOfPicks
    else
      var d := RandomInputDir(draws[0]);
      var nx, ny := x + ConvertToInt(d).0, y + ConvertToInt(d).1;
      if IsNotVisualize(nx, ny) then Retried(None, x, y, draws[1..])
      else Retry(g, x, y, nx, ny, d, draws[1..])
  }

  /** One round of the corrected generator from the cursor (x, y). */
  function GenerateStep(g: Grid, x: int, y: int, draws: seq<Draw5>): (r: Retried)
    requires IsWorldGrid(g) && InWorld(x, y) && draws != []
    ensures r != RetryPanic
    ensures r.Retried? ==> |r.rest| < |draws| && Cleared(r.dir) == r.dir
    ensures r.Retried? ==> (r.x, r.y) == Target(x, y, r.dir) && InWorld(r.x, r.y)
    ensures r.Retried? ==> IsGoodTile(CellAt(g, r.x, r.y)) || (r.dir.None? && (r.x, r.y) == (x, y))
  {
    var dir := RandomInputDir(draws[0]);
    var sx, sy := Clamp(x + ConvertToInt(dir).0), Clamp(y + ConvertToInt(dir).1);
    if IsNotVisualize(sx, sy) || CellAt(g, sx, sy).Unseen? then Retried(None, x, y, draws[1..])
    else Retry(g, x, y, sx, sy, dir, draws[1..])
  }

  /** `generate_random_sequence`, corrected: n rounds from the cursor (x, y),
      each pushing one gene onto `genes`. */
  function Generate(g: Grid, n: nat, x: int, y: int, genes: seq<InputDir>, draws: seq<Draw5>): (r: Generated)
    requires IsWorldGrid(g) && InWorld(x, y)
    ensures r != IndexPanic
    ensures r.Generated? ==> |r.genes| == |genes| + n && r.genes[..|genes|] == genes && InWorld(r.x, r.y)
    decreases n
  {
    if n == 0 then Generated(genes, x, y, draws)
    else if draws == [] then OutOfPicks
    else
      var r := GenerateStep(g, x, y, draws);
      if r.RetryOutOfPicks? then OutOfPicks
      else Generate(g, n - 1, r.x, r.y, genes + [r.dir], r.rest)
  }

  /** Where the cursor of the generator goes along `vs`: each gene moves it to
      its guarded target. */
  function Follow(x: int, y: int, vs: seq<InputDir>): (int, int)
    decreases |vs|
  {
    if vs == [] then (x, y)
    else Follow(Target(x, y, vs[0]).0, Target(x, y, vs[0]).1, vs[1..])
  }

  /** A sequence of genes the robot can walk from (x, y): every target is in
      the world, and a move that does not stay lands on a good tile. */
  ghost predicate Walkable(g: Grid, x: int, y: int, vs: seq<InputDir>)
    requires IsWorldGrid(g)
    decreases |vs|
  {
    vs == []
    || (var tx, ty := Target(x, y, vs[0]).0, Target(x, y, vs[0]).1;
        InWorld(tx, ty)
        && (IsGoodTile(CellAt(g, tx, ty)) || (vs[0].None? && tx == x && ty == y))
        && Walkable(g, tx, ty, vs[1..]))
  }

  /** A walkable step followed by a path walkable from its target. */
  lemma WalkableCons(g: Grid, x: int, y: int, d: InputDir, tx: int, ty: int, tail: seq<InputDir>)
    requires IsWorldGrid(g) && tx == Target(x, y, d).0 && ty == Target(x, y, d).1 && InWorld(tx, ty)
    requires IsGoodTile(CellAt(g, tx, ty)) || (d.None? && tx == x && ty == y)
    requires Walkable(g, tx, ty, tail)
    ensures Walkable(g, x, y, [d] + tail) && Follow(x, y, [d] + tail) == Follow(tx, ty, tail)
  {
    assert ([d] + tail)[0] == d && ([d] + tail)[1..] == tail;
  }

  /** One round of the generator, seen from the genes it adds: the first new
      gene is the round's, the rest come from the later rounds. */
  lemma GenerateUnfolds(g: Grid, n: nat, x: int, y: int, genes: seq<InputDir>, draws: seq<Draw5>)
    requires IsWorldGrid(g) && InWorld(x, y) && n > 0
    requires Generate(g, n, x, y, genes, draws).Generated?
    ensures draws != [] && GenerateStep(g, x, y, draws).Retried?
    ensures var s := GenerateStep(g, x, y, draws);
      var r := Generate(g, n, x, y, genes, draws);
      r == Generate(g, n - 1, s.x, s.y, genes + [s.dir], s.rest)
      && r.genes[|genes|..] == [s.dir] + r.genes[|genes| + 1..]
  {
    var s := GenerateStep(g, x, y, draws);
    var more := genes + [s.dir];
    var r := Generate(g, n - 1, s.x, s.y, more, s.rest);
    assert r.genes[..|more|] == more;
    assert r.genes[|genes|] == more[|genes|];
    assert r.genes[|genes|..] == [s.dir] + r.genes[|genes| + 1..];
  }

  /** The generated genes form a walkable path from the start, and the final
      cursor is where that path ends. */
  lemma {:induction false} GenerateWalks(g: Grid, n: nat, x: int, y: int, genes: seq<InputDir>, draws: seq<Draw5>)
    requires IsWorldGrid(g) && InWorld(x, y)
    requires Generate(g, n, x, y, genes, draws).Generated?
    ensures var r := Generate(g, n, x, y, genes, draws);
      Walkable(g, x, y, r.genes[|genes|..]) && (r.x, r.y) == Follow(x, y, r.genes[|genes|..])
    decreases n
  {
    var r := Generate(g, n, x, y, genes, draws);
    if n == 0 {
      assert r.genes[|genes|..] == [];
    } else {
      GenerateUnfolds(g, n, x, y, genes, draws);
      var s := GenerateStep(g, x, y, draws);
      GenerateWalks(g, n - 1, s.x, s.y, genes + [s.dir], s.rest);
      WalkableCons(g, x, y, s.dir, s.x, s.y, r.genes[|genes| + 1..]);
    }
  }

  /** The generated genes carry no flags. */
  lemma {:induction false} GenerateClears(g: Grid, n: nat, x: int, y: int, genes: seq<InputDir>, draws: seq<Draw5>)
    requires IsWorldGrid(g) && InWorld(x, y)
    requires Generate(g, n, x, y, genes, draws).Generated?
    ensures var r := Generate(g, n, x, y, genes, draws);
      forall k :: |genes| <= k < |r.genes| ==> Cleared(r.genes[k]) == r.genes[k]
    decreases n
  {
    if n > 0 {
      GenerateUnfolds(g, n, x, y, genes, draws);
      var s := GenerateStep(g, x, y, draws);
      GenerateClears(g, n - 1, s.x, s.y, genes + [s.dir], s.rest);
    }
  }

  /** The generator, corrected, on the candidate `gs`: pushes n genes onto its
      vector, starting from the cursor (x0, y0). */
  method GenerateRandomSequence(gs: GeneticSearch<InputDir>, g: Grid, n: nat, x0: int, y0: int, draws: seq<Draw5>)
    returns (ok: bool)
    requires IsWorldGrid(g) && InWorld(x0, y0)
    modifies gs
    ensures var r := Generate(g, n, x0, y0, old(gs.vector), draws);
      (ok <==> r.Generated?) && (ok ==> gs.vector == r.genes)
    ensures gs.cost == old(gs.cost) && gs.distanceFromDest == old(gs.distanceFromDest) && gs.weight == old(gs.weight)
    ensures gs.startX == old(gs.startX) && gs.startY == old(gs.startY)
  {
    var x, y := x0, y0;
    var d := draws;
    for i := 0 to n
      invariant InWorld(x, y)
      invariant Generate(g, n - i, x, y, gs.vector, d) == Generate(g, n, x0, y0, old(gs.vector), draws)
      invariant gs.cost == old(gs.cost) && gs.distanceFromDest == old(gs.distanceFromDest) && gs.weight == old(gs.weight)
      invariant gs.startX == old(gs.startX) && gs.startY == old(gs.startY)
    {
      if d == [] {
        ok := false;
        return;
      }
      ghost var step := GenerateStep(g, x, y, d);
      var dir, sx, sy, left, drawn := GenerateGene(g, x, y, d);
      if !drawn {
        ok := false;
        return;
      }
      x, y := sx, sy;
      d := left;
      gs.vector := gs.vector + [dir];
    }
    ok := true;
  }

  /** The body of one round: the first draw, the guards, and the bounds and
      observation test before the retry loop. */
  method GenerateGene(g: Grid, x: int, y: int, draws: seq<Draw5>)
    returns (dir: InputDir, sx: int, sy: int, rest: seq<Draw5>, ok: bool)
    requires IsWorldGrid(g) && InWorld(x, y) && draws != []
    ensures ok <==> GenerateStep(g, x, y, draws).Retried?
    ensures ok ==> GenerateStep(g, x, y, draws) == Retried(dir, sx, sy, rest)
  {
    dir := RandomInputDir(draws[0]);
    var step := ConvertToInt(dir);
    sx, sy := x + step.0, y + step.1;
    if sx < 0 {
      sx := 0;
    }
    if sy < 0 {
      sy := 0;
    }
    if IsNotVisualize(sx, sy) || CellAt(g, sx, sy).Unseen? {
      dir, sx, sy, rest, ok := None, x, y, draws[1..], true;
      return;
    }
    dir, sx, sy, rest, ok := RetryGene(g, x, y, sx, sy, dir, draws[1..]);
  }

  /** One more round of the corrected retry loop. */
  lemma RetryAgain(g: Grid, x: int, y: int, sx: int, sy: int, dir: InputDir, draws: seq<Draw5>)
    requires IsWorldGrid(g) && InWorld(x, y) && InWorld(sx, sy)
    requires (sx, sy) == Target(x, y, dir) && Cleared(dir) == dir
    requires !IsGoodTile(CellAt(g, sx, sy)) && draws != []
    ensures var d := RandomInputDir(draws[0]);
      var nx, ny := x + ConvertToInt(d).0, y + ConvertToInt(d).1;
      Cleared(d) == d
      && (IsNotVisualize(nx, ny) ==> Retry(g, x, y, sx, sy, dir, draws) == Retried(None, x, y, draws[1..]))
      && (!IsNotVisualize(nx, ny) ==>
            InWorld(nx, ny) && nx == Target(x, y, d).0 && ny == Target(x, y, d).1
            && Retry(g, x, y, sx, sy, dir, draws) == Retry(g, x, y, nx, ny, d, draws[1..]))
  {
  }

  /** The retry loop of one round, corrected. */
  method RetryGene(g: Grid, x: int, y: int, sx0: int, sy0: int, dir0: InputDir, draws: seq<Draw5>)
    returns (dir: InputDir, sx: int, sy: int, rest: seq<Draw5>, ok: bool)
    requires IsWorldGrid(g) && InWorld(x, y) && InWorld(sx0, sy0)
    requires (sx0, sy0) == Target(x, y, dir0) && Cleared(dir0) == dir0
    ensures ok <==> Retry(g, x, y, sx0, sy0, dir0, draws).Retried?
    ensures ok ==> Retry(g, x, y, sx0, sy0, dir0, draws) == Retried(dir, sx, sy, rest)
  {
    dir, sx, sy, rest := dir0, sx0, sy0, draws;
    while !IsGoodTile(CellAt(g, sx, sy))
      invariant InWorld(sx, sy) && sx == Target(x, y, dir).0 && sy == Target(x, y, dir).1 && Cleared(dir) == dir
      invariant Retry(g, x, y, sx, sy, dir, rest) == Retry(g, x, y, sx0, sy0, dir0, draws)
      decreases |rest|
    {
      if rest == [] {
        ok := false;
        return;
      }
      RetryAgain(g, x, y, sx, sy, dir, rest);
      dir := RandomInputDir(rest[0]);
      rest := rest[1..];
      var step := ConvertToInt(dir);
      sx, sy := x + step.0, y + step.1;
      if IsNotVisualize(sx, sy) {
        dir, sx, sy := None, x, y;
        ok := true;
        return;
      }
    }
    ok := true;
  }

  /** `GeneticSearch::new`: a fresh, not yet evaluated candidate starting at
      (x, y) whose n genes come from the generator. */
  method NewSearch(n: nat, x: int, y: int, g: Grid, draws: seq<Draw5>) returns (gs: GeneticSearch<InputDir>, ok: bool)
    requires IsWorldGrid(g) && InWorld(x, y)
    ensures fresh(gs)
    ensures gs.startX == x && gs.startY == y && gs.cost == INFINITE && gs.distanceFromDest == 100 && gs.weight == 1000
    ensures var r := Generate(g, n, x, y, [], draws);
      (ok <==> r.Generated?) && (ok ==> gs.vector == r.genes && |gs.vector| == n)
  {
    gs := new GeneticSearch.NewWithVector(x, y, []);
    ok := GenerateRandomSequence(gs, g, n, x, y, draws);
  }
}
