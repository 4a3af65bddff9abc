/** The evaluator and the random generator of src/genetic_algorithm.rs, over
    the two-flag action type. The bounds test is the crate root's
    `World.IsNotVisualize`; the helpers' version, which the file imports, is
    `Helpers.IsNotVisualize`. */
module Genetic {
  import opened World
  import opened Actions
  import opened Population
  import Helpers

  // ---------------------------------------------------------------------
  // Evaluation (`GeneticSearch::genetic_cost`)

  /** A coordinate after the `if v < 0 { v = 0 }` guards. */
  function Clamp(v: int): (r: int)
    ensures r >= 0 && r >= v && (v >= 0 ==> r == v)
    ensures v < 0 ==> r == 0
  {
    if v < 0 then 0 else v
  }

  /** The target of `e` from (x, y) after the guards. */
  function Target(x: int, y: int, e: InputDir): (int, int)
  {
    (Clamp(x + ConvertToInt(e).0), Clamp(y + ConvertToInt(e).1))
  }

  /** The repair loop accepts `e` when its guarded target is inside the world,
      observed and a tile the robot may stand on. */
  predicate Accepts(g: Grid, x: int, y: int, e: InputDir)
    requires IsWorldGrid(g)
  {
    var t := Target(x, y, e);
    !IsNotVisualize(t.0, t.1) && IsGoodTile(CellAt(g, t.0, t.1))
  }

  datatype Repaired = Repaired(e: InputDir, rest: seq<Draw4>) | NoDraws

  /** The repair loop: while `e` equals the original gene `ele` (flags
      included) or its target is refused, `e` is replaced by an action of
      another kind drawn with `random_input_without_i`. */
  function Repair(g: Grid, x: int, y: int, ele: InputDir, e: InputDir, draws: seq<Draw4>): (r: Repaired)
    requires IsWorldGrid(g)
    ensures r.Repaired? ==> r.e != ele && Accepts(g, x, y, r.e) && |r.rest| <= |draws|
    ensures r.Repaired? ==> r.e == e || Cleared(r.e) == r.e
    decreases |draws|
  {
    if e != ele && Accepts(g, x, y, e) then Repaired(e, draws)
    else if draws == [] then NoDraws
    else Repair(g, x, y, ele, RandomInputWithoutI(e, draws[0]), draws[1..])
  }

  /** The state of an evaluation: the cursor, the counters and the
      coordinates whose content was already credited. */
  datatype Walk = Walk(x: int, y: int, cost: nat, nullBlock: nat, objectDestroy: nat, shaWater: nat,
                       credited: set<(int, int)>)

  /** The cursor stands on an observed cell of the world. */
  predicate Standing(g: Grid, x: int, y: int)
  {
    IsWorldGrid(g) && InWorld(x, y) && CellAt(g, x, y).Seen?
  }

  /** The content the evaluator credits once per cell. */
  predicate Collectable(c: ContentKind)
  {
    c in {Coin, Garbage, Tree}
  }

  /** The action with the destroy flag set and the deposit flag cleared; the
      null move stays null. */
  function Flagged(e: InputDir): (r: InputDir)
    ensures Cleared(r) == Cleared(e)
    ensures !r.None? ==> r.destroy && !r.deposit
  {
    match e
    case Right(_, _) => Right(true, false)
    case Left(_, _) => Left(true, false)
    case Top(_, _) => Top(true, false)
    case Bottom(_, _) => Bottom(true, false)
    case None => None
  }

  /** The outcome of one round: the new state, the gene written back, and
      the draws left; or the draws ran out in the repair loop. */
  datatype Stepped = Stepped(w: Walk, gene: InputDir, draws: seq<Draw4>) | Stuck

  /** The content credit is consistent: one credit per credited cell, and
      every credited cell holds a coin, garbage or tree. */
  ghost predicate CreditsAgree(g: Grid, w: Walk)
    requires IsWorldGrid(g)
  {
    w.objectDestroy == |w.credited|
    && forall c :: c in w.credited ==> Standing(g, c.0, c.1) && Collectable(CellAt(g, c.0, c.1).tile.content)
  }

  /** The rest of a round once the gene `e` and its target are settled: the
      step cost when `e` moves, the shallow-water count, the content credit
      on the first visit to a coin, garbage or tree (which also sets the
      destroy flag; otherwise both flags are cleared), and the cursor moves
      onto the target when the robot may stand there. */
  function Land(g: Grid, m: CostModel, w: Walk, e: InputDir, nx: int, ny: int, draws: seq<Draw4>): (r: Stepped)
    requires Standing(g, w.x, w.y) && Standing(g, nx, ny)
    ensures r.Stepped? && r.draws == draws && Standing(g, r.w.x, r.w.y)
    ensures r.w.nullBlock == w.nullBlock && Cleared(r.gene) == Cleared(e)
    ensures (r.w.x, r.w.y) == (if IsGoodTile(CellAt(g, nx, ny)) then (nx, ny) else (w.x, w.y))
    ensures r.w.cost == w.cost
      + (if e != None then StepCost(m, CellAt(g, w.x, w.y).tile, CellAt(g, nx, ny).tile) else 0)
      + (if (nx, ny) !in w.credited && Collectable(CellAt(g, nx, ny).tile.content)
         then m.content(CellAt(g, nx, ny).tile.content) else 0)
    ensures r.w.shaWater == w.shaWater + (if CellAt(g, nx, ny).tile.tileType == ShallowWater then 1 else 0)
  {
    var tile := CellAt(g, nx, ny).tile;
    var moved := if e != None then w.cost + StepCost(m, CellAt(g, w.x, w.y).tile, tile) else w.cost;
    var sha := if tile.tileType == ShallowWater then w.shaWater + 1 else w.shaWater;
    var credit := (nx, ny) !in w.credited && Collectable(tile.content);
    var good := IsGoodTile(CellAt(g, nx, ny));
    Stepped(
      Walk(if good then nx else w.x, if good then ny else w.y,
           if credit then moved + m.content(tile.content) else moved,
           w.nullBlock,
           if credit then w.objectDestroy + 1 else w.objectDestroy,
           sha,
           if credit then w.credited + {(nx, ny)} else w.credited),
      if credit then Flagged(e) else Cleared(e),
      draws)
  }

  /** One round of the evaluation loop for the gene `ele`. A target outside
      the world or unobserved makes the gene null and counts a null block; a
      target the robot may not stand on counts a null block and the gene is
      repaired; then the round lands on the (guarded) target. */
  function Step(g: Grid, m: CostModel, w: Walk, ele: InputDir, draws: seq<Draw4>): (r: Stepped)
    requires Standing(g, w.x, w.y)
    ensures r.Stepped? ==> Standing(g, r.w.x, r.w.y)
  {
    var nx, ny := w.x + ConvertToInt(ele).0, w.y + ConvertToInt(ele).1;
    if IsNotVisualize(nx, ny) || CellAt(g, nx, ny).Unseen? then
      Stepped(w.(nullBlock := w.nullBlock + 1), None, draws)
    else if !IsGoodTile(CellAt(g, nx, ny)) then
      var rp := Repair(g, w.x, w.y, ele, ele, draws);
      if rp.NoDraws? then Stuck
      else Land(g, m, w.(nullBlock := w.nullBlock + 1), rp.e, Target(w.x, w.y, rp.e).0, Target(w.x, w.y, rp.e).1, rp.rest)
    else Land(g, m, w, ele, nx, ny, draws)
  }

  datatype Evaluation = Evaluated(w: Walk, out: seq<InputDir>, draws: seq<Draw4>) | OutOfRepairDraws

  /** The evaluation loop over the genes `vs`, from the state `w`, appending
      the rewritten genes to `out`. */
  function Run(g: Grid, m: CostModel, vs: seq<InputDir>, w: Walk, out: seq<InputDir>, draws: seq<Draw4>): (r: Evaluation)
    requires Standing(g, w.x, w.y)
    ensures r.Evaluated? ==> Standing(g, r.w.x, r.w.y)
    decreases |vs|
  {
    if vs == [] then Evaluated(w, out, draws)
    else
      match Step(g, m, w, vs[0], draws)
      case Stuck => OutOfRepairDraws
      case Stepped(w', e, d') => Run(g, m, vs[1..], w', out + [e], d')
  }

  /** The state an evaluation starts from. */
  function Start(x: int, y: int): Walk
  {
    Walk(x, y, 0, 0, 0, 0, {})
  }

  function IsNull(d: InputDir): bool
  {
    d.None?
  }

  /** The counters the weight is computed from. */
  function CountersOf(w: Walk, out: seq<InputDir>): Counters
  {
    Counters(w.cost, Backtracking(out, IsNull, IsReverse), w.nullBlock, w.objectDestroy, w.shaWater)
  }

  /** The number of genes with the destroy flag set. */
  function DestroyCount(s: seq<InputDir>): (r: nat)
    ensures r <= |s|
  {
    if s == [] then 0
    else DestroyCount(s[..|s| - 1]) + (if !s[|s| - 1].None? && s[|s| - 1].destroy then 1 else 0)
  }

  // Properties of the evaluation.

  /** Landing never sets a deposit flag, sets the destroy flag only with a
      credit, and keeps the content credit consistent. */
  lemma LandFacts(g: Grid, m: CostModel, w: Walk, e: InputDir, nx: int, ny: int, draws: seq<Draw4>)
    requires Standing(g, w.x, w.y) && Standing(g, nx, ny)
    ensures var r := Land(g, m, w, e, nx, ny, draws);
      (!r.gene.None? ==> !r.gene.deposit)
      && ((!r.gene.None? && r.gene.destroy) ==> r.w.objectDestroy == w.objectDestroy + 1)
      && w.objectDestroy <= r.w.objectDestroy
      && (CreditsAgree(g, w) ==> CreditsAgree(g, r.w))
  {
    if (nx, ny) !in w.credited && Collectable(CellAt(g, nx, ny).tile.content) {
      assert |w.credited + {(nx, ny)}| == |w.credited| + 1;
    }
  }

  /** The round of a gene whose target the robot may not stand on lands on
      the target of the repaired gene. */
  lemma StepRepairs(g: Grid, m: CostModel, w: Walk, ele: InputDir, draws: seq<Draw4>)
    requires Standing(g, w.x, w.y)
    requires Standing(g, w.x + ConvertToInt(ele).0, w.y + ConvertToInt(ele).1)
    requires !IsGoodTile(CellAt(g, w.x + ConvertToInt(ele).0, w.y + ConvertToInt(ele).1))
    ensures var rp := Repair(g, w.x, w.y, ele, ele, draws);
      (rp.NoDraws? ==> Step(g, m, w, ele, draws) == Stuck)
      && (rp.Repaired? ==> Step(g, m, w, ele, draws) == Land(g, m, w.(nullBlock := w.nullBlock + 1), rp.e,
            Target(w.x, w.y, rp.e).0, Target(w.x, w.y, rp.e).1, rp.rest))
  {
    var nx, ny := w.x + ConvertToInt(ele).0, w.y + ConvertToInt(ele).1;
    assert !IsNotVisualize(nx, ny) && !CellAt(g, nx, ny).Unseen?;
    var rp := Repair(g, w.x, w.y, ele, ele, draws);
    if rp.Repaired? {
      var t := Target(w.x, w.y, rp.e);
      assert Accepts(g, w.x, w.y, rp.e);
      assert Standing(g, t.0, t.1);
    }
  }

  /** The round of a gene whose target is good lands there. */
  lemma StepLands(g: Grid, m: CostModel, w: Walk, ele: InputDir, draws: seq<Draw4>)
    requires Standing(g, w.x, w.y)
    requires Standing(g, w.x + ConvertToInt(ele).0, w.y + ConvertToInt(ele).1)
    requires IsGoodTile(CellAt(g, w.x + ConvertToInt(ele).0, w.y + ConvertToInt(ele).1))
    ensures Step(g, m, w, ele, draws) == Land(g, m, w, ele, w.x + ConvertToInt(ele).0, w.y + ConvertToInt(ele).1, draws)
  {
  }

  /** One round counts at most one null block, never sets a deposit flag,
      sets the destroy flag only with a credit, keeps the content credit
      consistent, and the cursor stays or moves onto a good tile. */
  lemma StepFacts(g: Grid, m: CostModel, w: Walk, ele: InputDir, draws: seq<Draw4>)
    requires Standing(g, w.x, w.y)
    requires Step(g, m, w, ele, draws).Stepped?
    ensures var r := Step(g, m, w, ele, draws);
      w.nullBlock <= r.w.nullBlock <= w.nullBlock + 1
      && w.cost <= r.w.cost && w.shaWater <= r.w.shaWater <= w.shaWater + 1
      && ((r.w.x, r.w.y) == (w.x, w.y) || IsGoodTile(CellAt(g, r.w.x, r.w.y)))
      && (!r.gene.None? ==> !r.gene.deposit)
      && ((!r.gene.None? && r.gene.destroy) ==> r.w.objectDestroy == w.objectDestroy + 1)
      && w.objectDestroy <= r.w.objectDestroy
      && (CreditsAgree(g, w) ==> CreditsAgree(g, r.w))
  {
    var (i, j) := ConvertToInt(ele);
    var nx, ny := w.x + i, w.y + j;
    if IsNotVisualize(nx, ny) || CellAt(g, nx, ny).Unseen? {
    } else if !IsGoodTile(CellAt(g, nx, ny)) {
      var e := Repair(g, w.x, w.y, ele, ele, draws).e;
      var rest := Repair(g, w.x, w.y, ele, ele, draws).rest;
      var (sx, sy) := Target(w.x, w.y, e);
      LandFacts(g, m, w.(nullBlock := w.nullBlock + 1), e, sx, sy, rest);
    } else {
      LandFacts(g, m, w, ele, nx, ny, draws);
    }
  }

  /** Evaluation keeps the number of genes, never sets a deposit flag, counts
      at most one null block per gene, sets the destroy flag at most once per
      credit, keeps the content credit consistent, and the cursor only ever
      rests on the start or on a tile the robot may stand on. */
  lemma {:induction false} RunShape(g: Grid, m: CostModel, vs: seq<InputDir>, w: Walk, out: seq<InputDir>, draws: seq<Draw4>)
    requires Standing(g, w.x, w.y)
    requires Run(g, m, vs, w, out, draws).Evaluated?
    ensures var r := Run(g, m, vs, w, out, draws);
      |r.out| == |out| + |vs| && r.out[..|out|] == out
      && w.nullBlock <= r.w.nullBlock <= w.nullBlock + |vs|
      && w.cost <= r.w.cost && w.shaWater <= r.w.shaWater <= w.shaWater + |vs|
      && ((r.w.x, r.w.y) == (w.x, w.y) || IsGoodTile(CellAt(g, r.w.x, r.w.y)))
      && (forall k :: |out| <= k < |r.out| && !r.out[k].None? ==> !r.out[k].deposit)
      && DestroyCount(r.out) - DestroyCount(out) <= r.w.objectDestroy - w.objectDestroy
      && (CreditsAgree(g, w) ==> CreditsAgree(g, r.w))
    decreases |vs|
  {
    if vs != [] {
      var s := Step(g, m, w, vs[0], draws);
      StepFacts(g, m, w, vs[0], draws);
      var out' := out + [s.gene];
      RunShape(g, m, vs[1..], s.w, out', s.draws);
      var r := Run(g, m, vs, w, out, draws);
      assert r.out[..|out|] == r.out[..|out'|][..|out|];
      assert r.out[|out|] == s.gene;
      assert out'[..|out'| - 1] == out;
    }
  }

  /** A move that would leave the world or enter an unobserved cell becomes
      the null move, counts a null block, and the robot stays put. */
  lemma OffMapBecomesNull(g: Grid, m: CostModel, w: Walk, ele: InputDir, draws: seq<Draw4>)
    requires Standing(g, w.x, w.y)
    requires !Standing(g, w.x + ConvertToInt(ele).0, w.y + ConvertToInt(ele).1)
    ensures Step(g, m, w, ele, draws) == Stepped(w.(nullBlock := w.nullBlock + 1), None, draws)
  {
  }

  /** A move onto a good tile is kept (flags recomputed) and the robot moves
      there; no draw is spent. */
  lemma GoodMoveIsKept(g: Grid, m: CostModel, w: Walk, ele: InputDir, draws: seq<Draw4>)
    requires Standing(g, w.x, w.y)
    requires var (nx, ny) := (w.x + ConvertToInt(ele).0, w.y + ConvertToInt(ele).1);
      Standing(g, nx, ny) && IsGoodTile(CellAt(g, nx, ny))
    ensures var r := Step(g, m, w, ele, draws);
      r.Stepped? && r.draws == draws && Cleared(r.gene) == Cleared(ele)
      && (r.w.x, r.w.y) == (w.x + ConvertToInt(ele).0, w.y + ConvertToInt(ele).1)
      && r.w.nullBlock == w.nullBlock
  {
  }

  /** A move onto a good tile pays the step from the current tile, and the
      first visit to a coin, garbage or tree adds that content's cost on top:
      the credit raises the cost, it does not lower it. */
  lemma GoodMoveIsCharged(g: Grid, m: CostModel, w: Walk, ele: InputDir, draws: seq<Draw4>)
    requires Standing(g, w.x, w.y) && !ele.None?
    requires Standing(g, w.x + ConvertToInt(ele).0, w.y + ConvertToInt(ele).1)
    requires IsGoodTile(CellAt(g, w.x + ConvertToInt(ele).0, w.y + ConvertToInt(ele).1))
    ensures var t := CellAt(g, w.x + ConvertToInt(ele).0, w.y + ConvertToInt(ele).1).tile;
      var r := Step(g, m, w, ele, draws);
      var credit := (w.x + ConvertToInt(ele).0, w.y + ConvertToInt(ele).1) !in w.credited && Collectable(t.content);
      r.Stepped?
      && r.w.cost == w.cost + StepCost(m, CellAt(g, w.x, w.y).tile, t) + (if credit then m.content(t.content) else 0)
      && (credit ==> r.w.cost >= w.cost + m.content(t.content) && r.w.objectDestroy == w.objectDestroy + 1
                     && r.gene.destroy)
      && (!credit ==> r.w.objectDestroy == w.objectDestroy && !r.gene.destroy)
  {
    StepLands(g, m, w, ele, draws);
  }

  /** A move onto a tile the robot may not stand on is replaced by a gene of
      another kind (or the same kind when the original carried a flag) whose
      guarded target is good, and counts a null block. */
  lemma BadMoveIsRepaired(g: Grid, m: CostModel, w: Walk, ele: InputDir, draws: seq<Draw4>)
    requires Standing(g, w.x, w.y)
    requires var (nx, ny) := (w.x + ConvertToInt(ele).0, w.y + ConvertToInt(ele).1);
      Standing(g, nx, ny) && !IsGoodTile(CellAt(g, nx, ny))
    requires Step(g, m, w, ele, draws).Stepped?
    ensures var r := Step(g, m, w, ele, draws);
      (Cleared(r.gene) != Cleared(ele) || ele.destroy || ele.deposit)
      && r.w.nullBlock == w.nullBlock + 1 && Accepts(g, w.x, w.y, r.gene)
  {
    var e := Repair(g, w.x, w.y, ele, ele, draws).e;
    assert Cleared(e) == e;
    var r := Step(g, m, w, ele, draws);
    assert Cleared(r.gene) == e;
    AcceptsIgnoresFlags(g, w.x, w.y, e, r.gene);
  }

  lemma AcceptsIgnoresFlags(g: Grid, x: int, y: int, a: InputDir, b: InputDir)
    requires IsWorldGrid(g) && Cleared(a) == Cleared(b)
    ensures Accepts(g, x, y, a) == Accepts(g, x, y, b)
  {
    assert ConvertToInt(a) == ConvertToInt(b) by {
      match a
      case Right(_, _) =>
      case Left(_, _) =>
      case Top(_, _) =>
      case Bottom(_, _) =>
      case None =>
    }
  }

  /** A whole evaluation from the start: as many genes as before, at most one
      null block per gene, one credit per credited cell, no more destroy
      flags than credits, and at most half the genes are backtracks. */
  lemma EvaluationFacts(g: Grid, m: CostModel, vs: seq<InputDir>, x: int, y: int, draws: seq<Draw4>)
    requires Standing(g, x, y)
    requires Run(g, m, vs, Start(x, y), [], draws).Evaluated?
    ensures var r := Run(g, m, vs, Start(x, y), [], draws);
      |r.out| == |vs| && r.w.nullBlock <= |vs| && r.w.shaWater <= |vs| && r.w.objectDestroy == |r.w.credited|
      && DestroyCount(r.out) <= r.w.objectDestroy
      && 2 * Backtracking(r.out, IsNull, IsReverse) <= |vs|
  {
    RunShape(g, m, vs, Start(x, y), [], draws);
    var r := Run(g, m, vs, Start(x, y), [], draws);
    BacktrackingBound(r.out, IsNull, IsReverse);
  }

  /** The example of the source: [Right, Right, Left, Left] undoes two
      moves, and a null move in between does not break the pairing. */
  lemma BacktrackingExample()
    ensures var (r, l) := (Right(false, false), Left(false, false));
      Backtracking([r, r, l, l], IsNull, IsReverse) == 2
      && Backtracking([r, None, l], IsNull, IsReverse) == 1
      && Backtracking([r, l, r], IsNull, IsReverse) == 1
  {
    var (r, l) := (Right(false, false), Left(false, false));
    assert [r, r, l, l][1..] == [r, l, l] && [r, l, l][1..] == [l, l] && [l, l][1..] == [l];
    assert [l][1..] == [] && [r][1..] == [] && [r, None, l][1..] == [None, l] && [None, l][1..] == [l];
    assert [r, l, r][1..] == [l, r] && [l, r][1..] == [r];
    assert BackScan([l], IsNull, IsReverse, Scan(1, [r])) == Scan(2, []);
    assert BackScan([l, l], IsNull, IsReverse, Scan(0, [r, r])) == Scan(2, []);
    assert BackScan([r, l, l], IsNull, IsReverse, Scan(0, [r])) == Scan(2, []);
    assert BackScan([l], IsNull, IsReverse, Scan(0, [r])) == Scan(1, []);
    assert BackScan([None, l], IsNull, IsReverse, Scan(0, [r])) == Scan(1, []);
    assert BackScan([r], IsNull, IsReverse, Scan(1, [])) == Scan(1, [r]);
    assert BackScan([l, r], IsNull, IsReverse, Scan(0, [r])) == Scan(1, [r]);
  }

  /** One more round of the repair loop: a refused action is replaced by
      the next draw. */
  lemma RepairAgain(g: Grid, x: int, y: int, ele: InputDir, e: InputDir, draws: seq<Draw4>)
    requires IsWorldGrid(g) && draws != [] && !(e != ele && Accepts(g, x, y, e))
    ensures Repair(g, x, y, ele, e, draws) == Repair(g, x, y, ele, RandomInputWithoutI(e, draws[0]), draws[1..])
  {
  }

  /** The repair loop of one gene. */
  method RepairMove(g: Grid, x: int, y: int, ele: InputDir, draws: seq<Draw4>) returns (e: InputDir, rest: seq<Draw4>, ok: bool)
    requires IsWorldGrid(g)
    ensures ok <==> Repair(g, x, y, ele, ele, draws).Repaired?
    ensures ok ==> Repair(g, x, y, ele, ele, draws) == Repaired(e, rest)
  {
    e := ele;
    rest := draws;
    var step := DirectionValueOf(e);
    var saveX, saveY := Clamp(x + step.0), Clamp(y + step.1);
    while e == ele || IsNotVisualize(saveX, saveY) || CellAt(g, saveX, saveY).Unseen? || !IsGoodTile(CellAt(g, saveX, saveY))
      invariant saveX == Target(x, y, e).0 && saveY == Target(x, y, e).1
      invariant Repair(g, x, y, ele, e, rest) == Repair(g, x, y, ele, ele, draws)
      decreases |rest|
    {
      if rest == [] {
        ok := false;
        return;
      }
      RepairAgain(g, x, y, ele, e, rest);
      e := RandomInputWithoutI(e, rest[0]);
      rest := rest[1..];
      step := DirectionValueOf(e);
      saveX, saveY := Clamp(x + step.0), Clamp(y + step.1);
    }
    assert Accepts(g, x, y, e);
    ok := true;
  }

  /** `direction_value`, as the evaluator calls it. */
  function DirectionValueOf(e: InputDir): (r: (int, int))
    ensures r == ConvertToInt(e)
  {
    Helpers.DirectionValueAgrees(e);
    Helpers.DirectionValue(e)
  }

  /** The body of the evaluation loop up to the target: the off-map test,
      and the repair of a gene whose target the robot may not stand on. */
  method EvaluateGene(g: Grid, m: CostModel, w: Walk, ele: InputDir, draws: seq<Draw4>)
    returns (next: Walk, gene: InputDir, rest: seq<Draw4>, ok: bool)
    requires Standing(g, w.x, w.y)
    ensures ok <==> Step(g, m, w, ele, draws).Stepped?
    ensures ok ==> Step(g, m, w, ele, draws) == Stepped(next, gene, rest)
  {
    var (i, j) := DirectionValueOf(ele);
    var nextX, nextY := w.x + i, w.y + j;
    if IsNotVisualize(nextX, nextY) || CellAt(g, nextX, nextY).Unseen? {
      next, gene, rest, ok := w.(nullBlock := w.nullBlock + 1), None, draws, true;
      return;
    }
    if !IsGoodTile(CellAt(g, nextX, nextY)) {
      next, gene, rest, ok := RepairGene(g, m, w, ele, draws);
      return;
    }
    StepLands(g, m, w, ele, draws);
    next, gene := LandGene(g, m, w, ele, nextX, nextY, draws);
    rest, ok := draws, true;
  }

  /** The round of a gene whose target is observed but refused: a null
      block, the repair loop, and the landing on the repaired target. */
  method RepairGene(g: Grid, m: CostModel, w: Walk, ele: InputDir, draws: seq<Draw4>)
    returns (next: Walk, gene: InputDir, rest: seq<Draw4>, ok: bool)
    requires Standing(g, w.x, w.y)
    requires Standing(g, w.x + ConvertToInt(ele).0, w.y + ConvertToInt(ele).1)
    requires !IsGoodTile(CellAt(g, w.x + ConvertToInt(ele).0, w.y + ConvertToInt(ele).1))
    ensures ok <==> Step(g, m, w, ele, draws).Stepped?
    ensures ok ==> Step(g, m, w, ele, draws) == Stepped(next, gene, rest)
  {
    StepRepairs(g, m, w, ele, draws);
    var current := w.(nullBlock := w.nullBlock + 1);
    var e, left, repaired := RepairMove(g, w.x, w.y, ele, draws);
    if !repaired {
      next, gene, rest, ok := w, ele, draws, false;
      return;
    }
    var step := DirectionValueOf(e);
    var nextX, nextY := Clamp(w.x + step.0), Clamp(w.y + step.1);
    assert (nextX, nextY) == Target(w.x, w.y, e);
    next, gene := LandGene(g, m, current, e, nextX, nextY, left);
    rest, ok := left, true;
  }

  /** The body of the evaluation loop from the target on: cost, shallow
      water, content credit and flags, and the cursor. */
  method LandGene(g: Grid, m: CostModel, w: Walk, ele: InputDir, nextX: int, nextY: int, ghost draws: seq<Draw4>)
    returns (next: Walk, gene: InputDir)
    requires Standing(g, w.x, w.y) && Standing(g, nextX, nextY)
    ensures Land(g, m, w, ele, nextX, nextY, draws) == Stepped(next, gene, draws)
  {
    var x, y := w.x, w.y;
    var cost, objectDestroy, shaWater, visited := w.cost, w.objectDestroy, w.shaWater, w.credited;
    gene := ele;
    if gene != None {
      cost := cost + StepCost(m, CellAt(g, x, y).tile, CellAt(g, nextX, nextY).tile);
    }
    var tile := CellAt(g, nextX, nextY).tile;
    if tile.tileType == ShallowWater {
      shaWater := shaWater + 1;
    }
    if (nextX, nextY) !in visited && Collectable(tile.content) {
      objectDestroy := objectDestroy + 1;
      visited := visited + {(nextX, nextY)};
      cost := cost + m.content(tile.content);
      gene := Flagged(gene);
    } else {
      gene := Cleared(gene);
    }
    if IsGoodTile(CellAt(g, nextX, nextY)) {
      x, y := nextX, nextY;
    }
    next := Walk(x, y, cost, w.nullBlock, objectDestroy, shaWater, visited);
  }

  /** `GeneticSearch::genetic_cost`: evaluates the candidate from its start,
      rewriting its genes in place, and stores the cost, the distance of the
      final cursor from `dest` and the weight `weigh` gives the counters. */
  method GeneticCost(gs: GeneticSearch<InputDir>, g: Grid, m: CostModel, weigh: Counters -> int, dest: (int, int), draws: seq<Draw4>)
    returns (ok: bool)
    requires Standing(g, gs.startX, gs.startY)
    modifies gs
    ensures gs.startX == old(gs.startX) && gs.startY == old(gs.startY)
    ensures var r := Run(g, m, old(gs.vector), Start(gs.startX, gs.startY), [], draws);
      (ok <==> r.Evaluated?)
      && (ok ==> gs.vector == r.out && gs.cost == r.w.cost
                 && gs.distanceFromDest == Distance(r.w.x, r.w.y, dest)
                 && gs.weight == weigh(CountersOf(r.w, r.out)))
  {
    ghost var v0 := gs.vector;
    var walk := Start(gs.startX, gs.startY);
    var d := draws;
    gs.cost := 0;
    var k := 0;
    while k < |gs.vector|
      invariant 0 <= k <= |gs.vector| == |v0|
      invariant gs.startX == old(gs.startX) && gs.startY == old(gs.startY)
      invariant gs.vector[k..] == v0[k..] && gs.cost == walk.cost
      invariant Standing(g, walk.x, walk.y)
      invariant Run(g, m, v0[k..], walk, gs.vector[..k], d) == Run(g, m, v0, Start(gs.startX, gs.startY), [], draws)
    {
      assert v0[k..][0] == v0[k] && v0[k..][1..] == v0[k + 1..];
      var next, gene, rest, stepped := EvaluateGene(g, m, walk, gs.vector[k], d);
      if !stepped {
        ok := false;
        return;
      }
      assert gs.vector[..k] + [gene] == gs.vector[k := gene][..k + 1];
      gs.vector := gs.vector[k := gene];
      gs.cost := next.cost;
      walk, d := next, rest;
      k := k + 1;
    }
    assert v0[k..] == [] && gs.vector[..k] == gs.vector;
    gs.distanceFromDest := Distance(walk.x, walk.y, dest);
    var backtracking := CountBacktracking(gs.vector, IsNull, IsReverse);
    gs.weight := weigh(Counters(gs.cost, backtracking, walk.nullBlock, walk.objectDestroy, walk.shaWater));
    ok := true;
  }
}
