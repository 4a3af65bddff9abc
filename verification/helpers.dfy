/** The helpers of src/helpers_functions.rs, over the two-flag action type. */
module Helpers {
  import opened World
  import opened Actions

  /** `direction_value`: the (row, column) step of an action, written out a
      second time in the helpers file. */
  function DirectionValue(v: InputDir): (int, int)
  {
    match v
    case None => (0, 0)
    case Top(_, _) => (-1, 0)
    case Right(_, _) => (0, 1)
    case Left(_, _) => (0, -1)
    case Bottom(_, _) => (1, 0)
  }

  /** The helpers' table agrees with the action type's own. */
  lemma DirectionValueAgrees(v: InputDir)
    ensures DirectionValue(v) == ConvertToInt(v)
    ensures DirectionValue(v) == (0, 0) <==> v.None?
  {
  }

  /** `is_not_visualize` of the helpers file, as written: the bounds are
      compared with `>`, so the coordinate WORLD_SIZE is admitted. */
  function IsNotVisualize(x: int, y: int): (r: bool)
    ensures !r <==> 0 <= x <= WORLD_SIZE && 0 <= y <= WORLD_SIZE
  {
    y > WORLD_SIZE || x > WORLD_SIZE || x < 0 || y < 0
  }

  /** The row WORLD_SIZE passes the helpers' test but is no row of the robot
      map; the crate root's version turns it away. */
  lemma IsNotVisualizeAdmitsEdge(g: Grid)
    requires IsWorldGrid(g)
    ensures !IsNotVisualize(WORLD_SIZE, 0) && WORLD_SIZE >= |g|
    ensures World.IsNotVisualize(WORLD_SIZE, 0)
  {
  }

  /** Both versions agree everywhere except on the far edges. */
  lemma IsNotVisualizeVersions(x: int, y: int)
    ensures World.IsNotVisualize(x, y) && !IsNotVisualize(x, y) <==>
      0 <= x <= WORLD_SIZE && 0 <= y <= WORLD_SIZE && (x == WORLD_SIZE || y == WORLD_SIZE)
    ensures !World.IsNotVisualize(x, y) ==> !IsNotVisualize(x, y)
  {
  }

  /** Where a cost walk stands, or the panic of an index or an `unwrap`
      outside the robot map. */
  datatype Walked = Walked(x: int, y: int, cost: nat) | Panic

  /** One round of the loop of `calculate_cost_dir` at (x, y) with `cost`
      so far. A null move and a move onto an unobserved cell are skipped; a
      move whose deposit flag is set costs `deposit` (the content's cost times
      the quantity to put down); any other move costs the step from the
      current tile. The cursor then takes the target. */
  function TraceStep(g: Grid, m: CostModel, deposit: nat, x: int, y: int, cost: nat, ele: InputDir): (r: Walked)
    requires IsWorldGrid(g)
    ensures r.Walked? ==> r.cost >= cost
    ensures r.Walked? && (r.x, r.y) != (x, y) ==> OnMap(g, r.x, r.y)
    ensures ele.None? ==> r == Walked(x, y, cost)
    ensures var (nx, ny) := (x + ConvertToInt(ele).0, y + ConvertToInt(ele).1);
      !ele.None? ==>
        (!InWorld(nx, ny) ==> r == Panic)
        && (InWorld(nx, ny) && CellAt(g, nx, ny).Unseen? ==> r == Walked(x, y, cost))
        && (OnMap(g, nx, ny) && ele.deposit ==> r == Walked(nx, ny, cost + deposit))
        && (OnMap(g, nx, ny) && !ele.deposit && OnMap(g, x, y) ==>
              r == Walked(nx, ny, cost + StepCost(m, CellAt(g, x, y).tile, CellAt(g, nx, ny).tile)))
  {
    DirectionValueAgrees(ele);
    var step := DirectionValue(ele);
    var nx, ny := x + step.0, y + step.1;
    if ele == None then Walked(x, y, cost)
    else if !InWorld(nx, ny) then Panic
    else if CellAt(g, nx, ny).Unseen? then Walked(x, y, cost)
    else if ele.deposit then Walked(nx, ny, cost + deposit)
    else if !InWorld(x, y) || CellAt(g, x, y).Unseen? then Panic
    else Walked(nx, ny, cost + StepCost(m, CellAt(g, x, y).tile, CellAt(g, nx, ny).tile))
  }

  /** The loop of `calculate_cost_dir` from (x, y) with `cost` so far. */
  function Trace(g: Grid, m: CostModel, deposit: nat, x: int, y: int, cost: nat, path: seq<InputDir>): (r: Walked)
    requires IsWorldGrid(g)
    ensures r.Walked? ==> r.cost >= cost
    decreases |path|
  {
    if path == [] then Walked(x, y, cost)
    else
      var s := TraceStep(g, m, deposit, x, y, cost, path[0]);
      if s.Panic? then Panic else Trace(g, m, deposit, s.x, s.y, s.cost, path[1..])
  }

  /** Costing a path in two parts: the second part is costed from where the
      first ends, with the first part's cost. */
  lemma {:induction false} TraceAppend(g: Grid, m: CostModel, deposit: nat, x: int, y: int, cost: nat, p: seq<InputDir>, q: seq<InputDir>)
    requires IsWorldGrid(g)
    ensures Trace(g, m, deposit, x, y, cost, p + q) ==
      match Trace(g, m, deposit, x, y, cost, p)
      case Panic => Panic
      case Walked(x', y', c') => Trace(g, m, deposit, x', y', c', q)
    decreases |p|
  {
    if p == [] {
      assert p + q == q;
    } else {
      assert (p + q)[0] == p[0] && (p + q)[1..] == p[1..] + q;
      var s := TraceStep(g, m, deposit, x, y, cost, p[0]);
      if s.Walked? {
        TraceAppend(g, m, deposit, s.x, s.y, s.cost, p[1..], q);
      }
    }
  }

  /** A path of null moves costs nothing and leaves the robot where it is. */
  lemma {:induction false} NullPathIsFree(g: Grid, m: CostModel, deposit: nat, x: int, y: int, cost: nat, path: seq<InputDir>)
    requires IsWorldGrid(g)
    requires forall k :: 0 <= k < |path| ==> path[k] == None
    ensures Trace(g, m, deposit, x, y, cost, path) == Walked(x, y, cost)
    decreases |path|
  {
    if path != [] {
      NullPathIsFree(g, m, deposit, x, y, cost, path[1..]);
    }
  }

  /** Every move that is not skipped costs at least its terrain: a single
      plain move onto an observed tile from an observed tile. */
  lemma SingleMoveCost(g: Grid, m: CostModel, deposit: nat, x: int, y: int, ele: InputDir)
    requires IsWorldGrid(g) && OnMap(g, x, y) && !ele.None? && !ele.deposit
    requires OnMap(g, x + ConvertToInt(ele).0, y + ConvertToInt(ele).1)
    ensures var t := CellAt(g, x + ConvertToInt(ele).0, y + ConvertToInt(ele).1).tile;
      Trace(g, m, deposit, x, y, 0, [ele]) == Walked(x + ConvertToInt(ele).0, y + ConvertToInt(ele).1,
        StepCost(m, CellAt(g, x, y).tile, t))
  {
    DirectionValueAgrees(ele);
  }

  /** A move into an unobserved cell is skipped: the rest of the path is
      costed from where the robot stands, with nothing added. */
  lemma UnseenMoveIsSkipped(g: Grid, m: CostModel, deposit: nat, x: int, y: int, cost: nat, ele: InputDir, q: seq<InputDir>)
    requires IsWorldGrid(g) && !ele.None?
    requires InWorld(x + ConvertToInt(ele).0, y + ConvertToInt(ele).1)
    requires CellAt(g, x + ConvertToInt(ele).0, y + ConvertToInt(ele).1).Unseen?
    ensures Trace(g, m, deposit, x, y, cost, [ele] + q) == Trace(g, m, deposit, x, y, cost, q)
  {
    assert ([ele] + q)[0] == ele && ([ele] + q)[1..] == q;
  }

  /** A move with the deposit flag onto an observed cell costs the deposit,
      from whatever cell, and the rest of the path is costed from its target. */
  lemma DepositMoveCost(g: Grid, m: CostModel, deposit: nat, x: int, y: int, cost: nat, ele: InputDir, q: seq<InputDir>)
    requires IsWorldGrid(g) && !ele.None? && ele.deposit
    requires OnMap(g, x + ConvertToInt(ele).0, y + ConvertToInt(ele).1)
    ensures Trace(g, m, deposit, x, y, cost, [ele] + q)
      == Trace(g, m, deposit, x + ConvertToInt(ele).0, y + ConvertToInt(ele).1, cost + deposit, q)
  {
    assert ([ele] + q)[0] == ele && ([ele] + q)[1..] == q;
  }

  /** `calculate_cost_dir`: the cost of following the path from (x, y). */
  method CalculateCostDir(g: Grid, m: CostModel, deposit: nat, path: seq<InputDir>, x0: nat, y0: nat)
    returns (cost: nat, panicked: bool)
    requires IsWorldGrid(g)
    ensures panicked <==> Trace(g, m, deposit, x0, y0, 0, path).Panic?
    ensures !panicked ==> cost == Trace(g, m, deposit, x0, y0, 0, path).cost
  {
    var x, y := x0 as int, y0 as int;
    cost := 0;
    for k := 0 to |path|
      invariant Trace(g, m, deposit, x, y, cost, path[k..]) == Trace(g, m, deposit, x0, y0, 0, path)
    {
      assert path[k..][0] == path[k] && path[k..][1..] == path[k + 1..];
      var ele := path[k];
      ghost var s := TraceStep(g, m, deposit, x, y, cost, ele);
      assert Trace(g, m, deposit, x, y, cost, path[k..]) ==
        if s.Panic? then Panic else Trace(g, m, deposit, s.x, s.y, s.cost, path[k + 1..]);
      var step := DirectionValue(ele);
      var nextX, nextY := x + step.0, y + step.1;
      if ele == None {
        assert s == Walked(x, y, cost);
        continue;
      }
      if !InWorld(nextX, nextY) {
        panicked := true;
        return;
      }
      if CellAt(g, nextX, nextY).Unseen? {
        assert s == Walked(x, y, cost);
        continue;
      }
      if ele.deposit {
        cost := cost + deposit;
      } else {
        if !InWorld(x, y) || CellAt(g, x, y).Unseen? {
          panicked := true;
          return;
        }
        cost := cost + StepCost(m, CellAt(g, x, y).tile, CellAt(g, nextX, nextY).tile);
      }
      assert s == Walked(nextX, nextY, cost);
      x, y := nextX, nextY;
    }
    assert path[|path|..] == [];
    panicked := false;
  }
}
