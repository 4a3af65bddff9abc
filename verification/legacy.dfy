/** The older engine of src/main.rs: actions carry a single flag, and the
    evaluator redraws a refused gene with one plain draw instead of the
    repair loop. Selection, crossover, mutation and the backtracking count
    are the generic ones of `Population`, used at this gene type. */
module Legacy {
  import opened World
  import opened Population
  import Interface
  import Actions

  datatype InputDir =
    | Right(destroy: bool)
    | Left(destroy: bool)
    | Top(destroy: bool)
    | Bottom(destroy: bool)
    | None

  /** `direction_value` of the crate root: the (row, column) step. */
  function DirectionValue(v: InputDir): (r: (int, int))
    ensures v.None? <==> r == (0, 0)
    ensures r.0 == 0 || r.1 == 0
    ensures -1 <= r.0 <= 1 && -1 <= r.1 <= 1
    ensures v.Top? ==> r == (-1, 0)
    ensures v.Bottom? ==> r == (1, 0)
    ensures v.Left? ==> r == (0, -1)
    ensures v.Right? ==> r == (0, 1)
  {
    match v
    case None => (0, 0)
    case Top(_) => (-1, 0)
    case Right(_) => (0, 1)
    case Left(_) => (0, -1)
    case Bottom(_) => (1, 0)
  }

  /** `is_reverse`: `a` is a move and its step cancels the step of `other`,
      whatever the flags. */
  function IsReverse(a: InputDir, other: InputDir): (r: bool)
    ensures r <==> !a.None? && DirectionValue(a).0 == -DirectionValue(other).0
                           && DirectionValue(a).1 == -DirectionValue(other).1
  {
    match a
    case Top(_) => other.Bottom?
    case Left(_) => other.Right?
    case Bottom(_) => other.Top?
    case Right(_) => other.Left?
    case None => false
  }

  /** The action of the newer vocabulary with the same kind and destroy flag
      and no deposit flag. */
  function Upgrade(d: InputDir): (r: Actions.InputDir)
    ensures Actions.ConvertToInt(r) == DirectionValue(d)
    ensures !r.None? ==> r.destroy == d.destroy && !r.deposit
  {
    match d
    case Right(f) => Actions.Right(f, false)
    case Left(f) => Actions.Left(f, false)
    case Top(f) => Actions.Top(f, false)
    case Bottom(f) => Actions.Bottom(f, false)
    case None => Actions.None
  }

  /** The newer vocabulary keeps the older reversal and movement primitive. */
  lemma UpgradeAgrees(a: InputDir, b: InputDir)
    ensures IsReverse(a, b) == Actions.IsReverse(Upgrade(a), Upgrade(b))
    ensures Property(a) == Actions.Property(Upgrade(a))
  {
  }

  /** `property`: the movement primitive; the null move is handed over as
      Down. */
  function Property(d: InputDir): (r: Interface.Direction)
    ensures !d.None? ==> Interface.Offset(r) == DirectionValue(d)
    ensures d.None? ==> r == Interface.Down
  {
    match d
    case Right(_) => Interface.Right
    case Left(_) => Interface.Left
    case Top(_) => Interface.Up
    case Bottom(_) => Interface.Down
    case None => Interface.Down
  }

  /** `random_input_dir`, given the draw `gen_range(0..5)`: never flagged. */
  function RandomInputDir(t: Draw5): (r: InputDir)
    ensures !r.None? ==> !r.destroy
    ensures r.None? <==> t == 2
  {
    match t
    case 0 => Bottom(false)
    case 1 => Left(false)
    case 2 => None
    case 3 => Right(false)
    case _ => Top(false)
  }

  /** Each kind of action is drawn by exactly one of the five draws. */
  lemma RandomInputDirOnto(d: InputDir)
    ensures d.None? ==> RandomInputDir(2) == d
    ensures !d.None? ==> exists t: Draw5 :: RandomInputDir(t) == d.(destroy := false)
    ensures forall t: Draw5, u: Draw5 :: RandomInputDir(t) == RandomInputDir(u) ==> t == u
  {
    match d
    case Bottom(_) => assert RandomInputDir(0) == d.(destroy := false);
    case Left(_) => assert RandomInputDir(1) == d.(destroy := false);
    case None =>
    case Right(_) => assert RandomInputDir(3) == d.(destroy := false);
    case Top(_) => assert RandomInputDir(4) == d.(destroy := false);
  }

  // ---------------------------------------------------------------------
  // Generation

  /** `generate_random_sequence`: pushes one drawn action per draw (`n` is
      the number of draws). */
  method GenerateRandomSequence(gs: GeneticSearch<InputDir>, draws: seq<Draw5>)
    modifies gs
    ensures |gs.vector| == |old(gs.vector)| + |draws| && gs.vector[..|old(gs.vector)|] == old(gs.vector)
    ensures forall k :: 0 <= k < |draws| ==> gs.vector[|old(gs.vector)| + k] == RandomInputDir(draws[k])
    ensures gs.cost == old(gs.cost) && gs.distanceFromDest == old(gs.distanceFromDest)
    ensures gs.startX == old(gs.startX) && gs.startY == old(gs.startY) && gs.weight == old(gs.weight)
  {
    for i := 0 to |draws|
      invariant |gs.vector| == |old(gs.vector)| + i && gs.vector[..|old(gs.vector)|] == old(gs.vector)
      invariant forall k :: 0 <= k < i ==> gs.vector[|old(gs.vector)| + k] == RandomInputDir(draws[k])
      invariant gs.cost == old(gs.cost) && gs.distanceFromDest == old(gs.distanceFromDest)
      invariant gs.startX == old(gs.startX) && gs.startY == old(gs.startY) && gs.weight == old(gs.weight)
    {
      gs.vector := gs.vector + [RandomInputDir(draws[i])];
    }
  }

  /** `GeneticSearch::new(n, x, y)`: a fresh candidate at (x, y) with `n`
      drawn actions and the placeholder scores. */
  method NewSearch(x: int, y: int, draws: seq<Draw5>) returns (gs: GeneticSearch<InputDir>)
    ensures fresh(gs)
    ensures |gs.vector| == |draws| && forall k :: 0 <= k < |draws| ==> gs.vector[k] == RandomInputDir(draws[k])
    ensures gs.cost == INFINITE && gs.distanceFromDest == 100 && gs.weight == 1000
    ensures gs.startX == x && gs.startY == y
  {
    gs := new GeneticSearch.NewWithVector(x, y, []);
    GenerateRandomSequence(gs, draws);
  }

  // ---------------------------------------------------------------------
  // Evaluation (`GeneticSearch::genetic_cost` of the crate root)

  /** The state of an evaluation: the cursor and the counters. */
  datatype Walk = Walk(x: int, y: int, cost: nat, nullBlock: nat)

  /** The outcome of one round: the new state, the gene written back and the
      draws left; or a redraw was needed and no draw was left. */
  datatype Stepped = Stepped(w: Walk, gene: InputDir, draws: seq<Draw5>) | Stuck

  /** One round for the gene `ele`. A target outside the world makes the
      gene null; a target the robot may not stand on (unobserved included)
      redraws the gene; both count a null block and leave the cursor. A good
      target is entered, at the step cost unless the gene is null. */
  function Step(g: Grid, m: CostModel, w: Walk, ele: InputDir, draws: seq<Draw5>): (r: Stepped)
    requires OnMap(g, w.x, w.y)
    ensures r.Stepped? ==> OnMap(g, r.w.x, r.w.y)
  {
    var nx, ny := w.x + DirectionValue(ele).0, w.y + DirectionValue(ele).1;
    if IsNotVisualize(nx, ny) then
      Stepped(w.(nullBlock := w.nullBlock + 1), None, draws)
    else if !IsGoodTile(CellAt(g, nx, ny)) then
      if draws == [] then Stuck
      else Stepped(w.(nullBlock := w.nullBlock + 1), RandomInputDir(draws[0]), draws[1..])
    else
      var cost := if ele != None then w.cost + StepCost(m, CellAt(g, w.x, w.y).tile, CellAt(g, nx, ny).tile) else w.cost;
      Stepped(Walk(nx, ny, cost, w.nullBlock), ele, draws)
  }

  datatype Evaluation = Evaluated(w: Walk, out: seq<InputDir>, draws: seq<Draw5>) | OutOfRedraws

  /** The evaluation loop over `vs` from `w`, appending the genes written
      back to `out`. */
  function Run(g: Grid, m: CostModel, vs: seq<InputDir>, w: Walk, out: seq<InputDir>, draws: seq<Draw5>): (r: Evaluation)
    requires OnMap(g, w.x, w.y)
    ensures r.Evaluated? ==> OnMap(g, r.w.x, r.w.y)
    decreases |vs|
  {
    if vs == [] then Evaluated(w, out, draws)
    else
      var s := Step(g, m, w, vs[0], draws);
      if s.Stuck? then OutOfRedraws else Run(g, m, vs[1..], s.w, out + [s.gene], s.draws)
  }

  function Start(x: int, y: int): Walk
  {
    Walk(x, y, 0, 0)
  }

  function IsNull(d: InputDir): bool
  {
    d.None?
  }

  /** Where a sequence of actions leads from (x, y). */
  function Follow(x: int, y: int, vs: seq<InputDir>): (int, int)
    decreases |vs|
  {
    if vs == [] then (x, y)
    else Follow(x + DirectionValue(vs[0]).0, y + DirectionValue(vs[0]).1, vs[1..])
  }

  lemma FollowUnfolds(x: int, y: int, vs: seq<InputDir>)
    requires vs != []
    ensures Follow(x, y, vs) == Follow(x + DirectionValue(vs[0]).0, y + DirectionValue(vs[0]).1, vs[1..])
  {
  }

  /** The counters the weight is computed from; the older engine counts no
      destroyed content and no shallow water. */
  function CountersOf(w: Walk, out: seq<InputDir>): Counters
  {
    Counters(w.cost, Backtracking(out, IsNull, IsReverse), w.nullBlock, 0, 0)
  }

  // Properties of the evaluation.

  /** A move out of the world becomes the null move and counts a null
      block; the robot stays and no draw is spent. */
  lemma OffMapBecomesNull(g: Grid, m: CostModel, w: Walk, ele: InputDir, draws: seq<Draw5>)
    requires OnMap(g, w.x, w.y)
    requires !InWorld(w.x + DirectionValue(ele).0, w.y + DirectionValue(ele).1)
    ensures Step(g, m, w, ele, draws) == Stepped(w.(nullBlock := w.nullBlock + 1), None, draws)
  {
  }

  /** A move onto a cell of the world the robot may not stand on, or has not
      observed, is replaced by the next draw and counts a null block; the
      robot stays and no cost is added. */
  lemma BadTargetIsRedrawn(g: Grid, m: CostModel, w: Walk, ele: InputDir, draws: seq<Draw5>)
    requires OnMap(g, w.x, w.y) && draws != []
    requires var (nx, ny) := (w.x + DirectionValue(ele).0, w.y + DirectionValue(ele).1);
      InWorld(nx, ny) && !IsGoodTile(CellAt(g, nx, ny))
    ensures Step(g, m, w, ele, draws) == Stepped(w.(nullBlock := w.nullBlock + 1), RandomInputDir(draws[0]), draws[1..])
  {
  }

  /** A move onto a good tile is kept, the robot enters the tile and pays
      the step cost. */
  lemma GoodMoveIsPaid(g: Grid, m: CostModel, w: Walk, ele: InputDir, draws: seq<Draw5>)
    requires OnMap(g, w.x, w.y) && !ele.None?
    requires var (nx, ny) := (w.x + DirectionValue(ele).0, w.y + DirectionValue(ele).1);
      InWorld(nx, ny) && IsGoodTile(CellAt(g, nx, ny))
    ensures var (nx, ny) := (w.x + DirectionValue(ele).0, w.y + DirectionValue(ele).1);
      Step(g, m, w, ele, draws) ==
        Stepped(Walk(nx, ny, w.cost + StepCost(m, CellAt(g, w.x, w.y).tile, CellAt(g, nx, ny).tile), w.nullBlock), ele, draws)
  {
  }

  /** The null move on a good tile costs nothing and changes nothing. */
  lemma NullMoveIsFree(g: Grid, m: CostModel, w: Walk, draws: seq<Draw5>)
    requires OnMap(g, w.x, w.y) && IsGoodTile(CellAt(g, w.x, w.y))
    ensures Step(g, m, w, None, draws) == Stepped(w, None, draws)
  {
  }

  /** One round counts at most one null block, spends a draw only with a
      null block, keeps the gene when it counts none, and the cursor follows
      the gene written back exactly when no null block is counted. */
  lemma StepFacts(g: Grid, m: CostModel, w: Walk, ele: InputDir, draws: seq<Draw5>)
    requires OnMap(g, w.x, w.y)
    requires Step(g, m, w, ele, draws).Stepped?
    ensures var r := Step(g, m, w, ele, draws);
      w.nullBlock <= r.w.nullBlock <= w.nullBlock + 1
      && w.cost <= r.w.cost
      && |draws| - |r.draws| <= r.w.nullBlock - w.nullBlock
      && (r.draws == draws || r.draws == draws[1..])
      && ((r.w.x, r.w.y) == (w.x, w.y) || IsGoodTile(CellAt(g, r.w.x, r.w.y)))
      && (r.w.nullBlock == w.nullBlock ==>
            r.gene == ele && (r.w.x, r.w.y) == (w.x + DirectionValue(ele).0, w.y + DirectionValue(ele).1))
      && (r.w.nullBlock != w.nullBlock ==> (r.w.x, r.w.y) == (w.x, w.y) && r.w.cost == w.cost)
  {
  }

  /** The evaluation keeps the number of genes, counts at most one null
      block per gene, spends no more draws than null blocks, never lowers the
      cost, and the cursor only rests on the start or on a good tile. */
  lemma {:induction false} RunShape(g: Grid, m: CostModel, vs: seq<InputDir>, w: Walk, out: seq<InputDir>, draws: seq<Draw5>)
    requires OnMap(g, w.x, w.y)
    requires Run(g, m, vs, w, out, draws).Evaluated?
    ensures var r := Run(g, m, vs, w, out, draws);
      |r.out| == |out| + |vs| && r.out[..|out|] == out
      && w.nullBlock <= r.w.nullBlock <= w.nullBlock + |vs|
      && |draws| - |r.draws| <= r.w.nullBlock - w.nullBlock
      && w.cost <= r.w.cost
      && ((r.w.x, r.w.y) == (w.x, w.y) || IsGoodTile(CellAt(g, r.w.x, r.w.y)))
    decreases |vs|
  {
    if vs != [] {
      var s := Step(g, m, w, vs[0], draws);
      StepFacts(g, m, w, vs[0], draws);
      var out' := out + [s.gene];
      RunShape(g, m, vs[1..], s.w, out', s.draws);
      var r := Run(g, m, vs, w, out, draws);
      assert r.out[..|out|] == r.out[..|out'|][..|out|];
      assert out'[..|out'| - 1] == out;
    }
  }

  /** Every gene, followed from (x, y), enters a good tile of the world. */
  predicate Clear(g: Grid, x: int, y: int, vs: seq<InputDir>)
    requires IsWorldGrid(g)
    decreases |vs|
  {
    vs == [] ||
      (var nx, ny := x + DirectionValue(vs[0]).0, y + DirectionValue(vs[0]).1;
       InWorld(nx, ny) && IsGoodTile(CellAt(g, nx, ny)) && Clear(g, nx, ny, vs[1..]))
  }

  /** A gene whose target is a good tile of the world is kept and
      entered; `next` is the state after it. */
  lemma StepEnters(g: Grid, m: CostModel, w: Walk, ele: InputDir, draws: seq<Draw5>) returns (next: Walk)
    requires OnMap(g, w.x, w.y)
    requires var (nx, ny) := (w.x + DirectionValue(ele).0, w.y + DirectionValue(ele).1);
      InWorld(nx, ny) && IsGoodTile(CellAt(g, nx, ny))
    ensures (next.x, next.y) == (w.x + DirectionValue(ele).0, w.y + DirectionValue(ele).1)
    ensures next.nullBlock == w.nullBlock && OnMap(g, next.x, next.y)
    ensures Step(g, m, w, ele, draws) == Stepped(next, ele, draws)
  {
    next := Step(g, m, w, ele, draws).w;
  }

  /** One round of the evaluation loop. */
  lemma RunCons(g: Grid, m: CostModel, vs: seq<InputDir>, w: Walk, out: seq<InputDir>, draws: seq<Draw5>)
    requires OnMap(g, w.x, w.y) && vs != []
    ensures var s := Step(g, m, w, vs[0], draws);
      s.Stepped? ==> Run(g, m, vs, w, out, draws) == Run(g, m, vs[1..], s.w, out + [s.gene], s.draws)
  {
  }

  /** A clear candidate is evaluated without a null block and without a
      draw: the genes come back unchanged and the cursor ends where they
      lead; `last` is the final state. */
  lemma {:induction false} ClearRunFollows(g: Grid, m: CostModel, vs: seq<InputDir>, w: Walk, out: seq<InputDir>, draws: seq<Draw5>)
    returns (last: Walk)
    requires OnMap(g, w.x, w.y) && Clear(g, w.x, w.y, vs)
    ensures Run(g, m, vs, w, out, draws) == Evaluated(last, out + vs, draws)
    ensures last.nullBlock == w.nullBlock && (last.x, last.y) == Follow(w.x, w.y, vs)
    decreases |vs|
  {
    if vs == [] {
      assert out + vs == out;
      last := w;
    } else {
      var next := StepEnters(g, m, w, vs[0], draws);
      var out', rest := out + [vs[0]], vs[1..];
      RunCons(g, m, vs, w, out, draws);
      last := ClearRunFollows(g, m, rest, next, out', draws);
      FollowUnfolds(w.x, w.y, vs);
      assert out' + rest == out + vs by {
        assert vs == [vs[0]] + rest;
      }
    }
  }

  /** A whole evaluation from the start: as many genes as before, at most one
      null block per gene, and at most half the genes are backtracks. */
  lemma EvaluationFacts(g: Grid, m: CostModel, vs: seq<InputDir>, x: int, y: int, draws: seq<Draw5>)
    requires OnMap(g, x, y)
    requires Run(g, m, vs, Start(x, y), [], draws).Evaluated?
    ensures var r := Run(g, m, vs, Start(x, y), [], draws);
      |r.out| == |vs| && r.w.nullBlock <= |vs| && |draws| - |r.draws| <= r.w.nullBlock
      && 2 * Backtracking(r.out, IsNull, IsReverse) <= |vs|
      && (Clear(g, x, y, vs) ==> r.w.nullBlock == 0 && r.out == vs && (r.w.x, r.w.y) == Follow(x, y, vs))
  {
    RunShape(g, m, vs, Start(x, y), [], draws);
    var r := Run(g, m, vs, Start(x, y), [], draws);
    if Clear(g, x, y, vs) {
      var last := ClearRunFollows(g, m, vs, Start(x, y), [], draws);
      assert [] + vs == vs;
    }
    BacktrackingBound(r.out, IsNull, IsReverse);
  }

  /** The body of the evaluation loop for one gene. */
  method EvaluateGene(g: Grid, m: CostModel, w: Walk, ele: InputDir, draws: seq<Draw5>)
    returns (next: Walk, gene: InputDir, rest: seq<Draw5>, ok: bool)
    requires OnMap(g, w.x, w.y)
    ensures ok <==> Step(g, m, w, ele, draws).Stepped?
    ensures ok ==> Step(g, m, w, ele, draws) == Stepped(next, gene, rest)
  {
    var step := DirectionValue(ele);
    var nextX, nextY := w.x + step.0, w.y + step.1;
    next, gene, rest, ok := w, ele, draws, true;
    if IsNotVisualize(nextX, nextY) {
      next, gene := w.(nullBlock := w.nullBlock + 1), None;
    } else if !IsGoodTile(CellAt(g, nextX, nextY)) {
      if draws == [] {
        ok := false;
        return;
      }
      next, gene, rest := w.(nullBlock := w.nullBlock + 1), RandomInputDir(draws[0]), draws[1..];
    } else {
      var cost := w.cost;
      if ele != None {
        cost := cost + StepCost(m, CellAt(g, w.x, w.y).tile, CellAt(g, nextX, nextY).tile);
      }
      next := Walk(nextX, nextY, cost, w.nullBlock);
    }
  }

  /** `genetic_cost` of the crate root: evaluates the candidate from its
      start, rewriting its genes in place, and stores the cost, the distance
      of the final cursor from `dest` and the weight `weigh` gives the
      counters. */
  method GeneticCost(gs: GeneticSearch<InputDir>, g: Grid, m: CostModel, weigh: Counters -> int, dest: (int, int), draws: seq<Draw5>)
    returns (ok: bool)
    requires OnMap(g, gs.startX, gs.startY)
    modifies gs
    ensures gs.startX == old(gs.startX) && gs.startY == old(gs.startY)
    ensures var r := Run(g, m, old(gs.vector), Start(gs.startX, gs.startY), [], draws);
      (ok <==> r.Evaluated?)
      && (ok ==> gs.vector == r.out && gs.cost == r.w.cost
                 && gs.distanceFromDest == Distance(r.w.x, r.w.y, dest)
                 && gs.weight == weigh(CountersOf(r.w, r.out)))
  {
    ghost var v0 := gs.vector;
    var walk := Start(gs.startX, gs.startY);
    var d := draws;
    gs.cost := 0;
    var k := 0;
    while k < |gs.vector|
      invariant 0 <= k <= |gs.vector| == |v0|
      invariant gs.startX == old(gs.startX) && gs.startY == old(gs.startY)
      invariant gs.vector[k..] == v0[k..] && gs.cost == walk.cost
      invariant OnMap(g, walk.x, walk.y)
      invariant Run(g, m, v0[k..], walk, gs.vector[..k], d) == Run(g, m, v0, Start(gs.startX, gs.startY), [], draws)
    {
      assert v0[k..][0] == v0[k] && v0[k..][1..] == v0[k + 1..];
      var next, gene, rest, stepped := EvaluateGene(g, m, walk, gs.vector[k], d);
      if !stepped {
        ok := false;
        return;
      }
      assert gs.vector[..k] + [gene] == gs.vector[k := gene][..k + 1];
      gs.vector := gs.vector[k := gene];
      gs.cost := next.cost;
      walk, d := next, rest;
      k := k + 1;
    }
    assert v0[k..] == [] && gs.vector[..k] == gs.vector;
    gs.distanceFromDest := Distance(walk.x, walk.y, dest);
    var backtracking := CountBacktracking(gs.vector, IsNull, IsReverse);
    gs.weight := weigh(Counters(gs.cost, backtracking, walk.nullBlock, 0, 0));
    ok := true;
  }
}
