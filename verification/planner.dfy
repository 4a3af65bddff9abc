/** The deterministic planners of src/main.rs around the genetic search: the
    robot's visited grid and scan window, the choice of frontier directions,
    the energy projection, and how the candidates of the search threads are
    picked and combined. */
module Planner {
  import opened World
  import opened Frontier
  import opened Population
  import Legacy

  datatype Option<T> = None | Some(value: T)

  // ---------------------------------------------------------------------
  // The robot

  /** A grid of WORLD_SIZE rows of WORLD_SIZE flags. */
  predicate IsVisitedGrid(v: seq<seq<bool>>)
  {
    |v| == WORLD_SIZE && forall r :: 0 <= r < |v| ==> |v[r]| == WORLD_SIZE
  }

  /** `i` lies in the half-open range `s`. */
  predicate InSpan(i: int, s: (int, int))
  {
    s.0 <= i < s.1
  }

  /** `i` lies within `distance + 1` below and `distance` above `c`. */
  predicate InBand(i: int, c: int, distance: nat)
  {
    c - distance - 1 <= i < c + distance + 1
  }

  /** `MyRobot`: where the simulation has the robot, and the cells it has
      finished a walk on. */
  class MyRobot {
    var row: int
    var col: int
    var visited: seq<seq<bool>>

    /** `MyRobot::new`: no cell visited yet; the robot stands where the
        simulation placed it. */
    constructor New(row: nat, col: nat)
      ensures this.row == row && this.col == col
      ensures IsVisitedGrid(visited)
      ensures forall r, c :: 0 <= r < WORLD_SIZE && 0 <= c < WORLD_SIZE ==> !visited[r][c]
    {
      var vet: seq<seq<bool>> := [];
      for i := 0 to WORLD_SIZE
        invariant |vet| == i
        invariant forall r :: 0 <= r < i ==> |vet[r]| == WORLD_SIZE && forall c :: 0 <= c < WORLD_SIZE ==> !vet[r][c]
      {
        var v: seq<bool> := [];
        for j := 0 to WORLD_SIZE
          invariant |v| == j && forall c :: 0 <= c < j ==> !v[c]
        {
          v := v + [false];
        }
        vet := vet + [v];
      }
      this.row := row;
      this.col := col;
      visited := vet;
    }

    /** The end of `move_based_on_threads`: the cell the robot stands on
        after a walk is marked visited. */
    method MarkVisited()
      requires IsVisitedGrid(visited) && InWorld(row, col)
      modifies this
      ensures row == old(row) && col == old(col)
      ensures visited == old(visited)[row := old(visited)[row][col := true]]
      ensures IsVisitedGrid(visited) && visited[row][col]
      ensures forall r, c :: 0 <= r < WORLD_SIZE && 0 <= c < WORLD_SIZE && (r, c) != (row, col) ==>
        visited[r][c] == old(visited)[r][c]
    {
      visited := visited[row := visited[row][col := true]];
    }

    /** `get_from_to`: the scan window around the robot, a row range and a
        column range, each half-open. A range holds exactly the indices of
        `0..len` that lie within `distance + 1` below and `distance` above
        the robot's coordinate, so every index of the window is an index of
        a map of `len` rows and columns. */
    function GetFromTo(distance: nat, len: int): (r: seq<(int, int)>)
      reads this
      ensures |r| == 2 && 0 <= r[0].0 && 0 <= r[1].0 && r[0].1 <= len && r[1].1 <= len
      ensures forall i :: InSpan(i, r[0]) <==> 0 <= i < len && InBand(i, row, distance)
      ensures forall j :: InSpan(j, r[1]) <==> 0 <= j < len && InBand(j, col, distance)
    {
      var fromX := if row - distance - 1 < 0 then 0 else row - distance - 1;
      var toX := if row + distance + 1 > len then len else row + distance + 1;
      var fromY := if col - distance - 1 < 0 then 0 else col - distance - 1;
      var toY := if col + distance + 1 > len then len else col + distance + 1;
      [(fromX, toX), (fromY, toY)]
    }
  }

  // ---------------------------------------------------------------------
  // Frontier directions

  /** The directions of `ds` that `f` keeps, in their order. */
  function Keep(ds: seq<PositionToGo>, f: PositionToGo -> bool): (r: seq<PositionToGo>)
    ensures |r| <= |ds|
    decreases |ds|
  {
    if ds == [] then []
    else
      var init := Keep(ds[..|ds| - 1], f);
      if f(ds[|ds| - 1]) then init + [ds[|ds| - 1]] else init
  }

  /** Keeping is filtering: a direction is kept exactly when it is one of
      `ds` and `f` holds of it. */
  lemma {:induction false} KeepMembers(ds: seq<PositionToGo>, f: PositionToGo -> bool)
    ensures forall p :: p in Keep(ds, f) <==> p in ds && f(p)
    decreases |ds|
  {
    if ds != [] {
      KeepMembers(ds[..|ds| - 1], f);
      assert ds == ds[..|ds| - 1] + [ds[|ds| - 1]];
    }
  }

  /** Nothing is kept when `f` holds of none of the directions. */
  lemma {:induction false} NoneKept(ds: seq<PositionToGo>, f: PositionToGo -> bool)
    requires forall k :: 0 <= k < |ds| ==> !f(ds[k])
    ensures Keep(ds, f) == []
    decreases |ds|
  {
    if ds != [] {
      NoneKept(ds[..|ds| - 1], f);
    }
  }

  /** The target of `p` from (x, y) lies in the world and is unobserved. */
  predicate Unexplored(g: Grid, x: int, y: int, p: PositionToGo)
  {
    var t := GetNextPosition(p);
    IsWorldGrid(g) && !IsNotVisualize(x + t.0, y + t.1) && CellAt(g, x + t.0, y + t.1).Unseen?
  }

  /** The target of `p` from (x, y) lies in the world, is a tile the robot
      may stand on, and has not been visited. */
  predicate Revisitable(visited: seq<seq<bool>>, g: Grid, x: int, y: int, p: PositionToGo)
  {
    var t := GetNextPosition(p);
    IsWorldGrid(g) && IsVisitedGrid(visited) && !IsNotVisualize(x + t.0, y + t.1)
    && IsGoodTile(CellAt(g, x + t.0, y + t.1)) && !visited[x + t.0][y + t.1]
  }

  /** The directions `new_with_world` returns. */
  function FrontierOf(g: Grid, x: int, y: int): seq<PositionToGo>
  {
    var v := Keep(ORDER, p => Unexplored(g, x, y, p));
    if v == [] then ORDER else v
  }

  /** `new_with_world`: the directions, in the fixed order, whose target is
      in the world and unobserved; all eight when there is none. */
  method NewWithWorld(robMap: Grid, x: int, y: int) returns (v: seq<PositionToGo>)
    requires IsWorldGrid(robMap)
    ensures v == FrontierOf(robMap, x, y)
    ensures (exists p :: Unexplored(robMap, x, y, p)) ==> forall p :: p in v <==> Unexplored(robMap, x, y, p)
    ensures (forall p :: !Unexplored(robMap, x, y, p)) ==> v == ORDER
  {
    ghost var f := p => Unexplored(robMap, x, y, p);
    var iterMe := ORDER;
    v := [];
    for i := 0 to |iterMe|
      invariant v == Keep(ORDER[..i], f)
    {
      KeepSnoc(ORDER, f, i);
      var position := iterMe[i];
      var keep := UnseenTarget(robMap, x, y, position);
      assert f(position) == keep;
      if keep {
        v := v + [position];
      }
    }
    assert ORDER[..|iterMe|] == ORDER;
    KeepMembers(ORDER, f);
    OrderHoldsAll();
    forall p ensures p in v <==> Unexplored(robMap, x, y, p) {
      assert f(p) == Unexplored(robMap, x, y, p);
    }
    if v == [] {
      assert forall p :: !Unexplored(robMap, x, y, p);
      v := New();
    } else {
      assert exists p :: Unexplored(robMap, x, y, p) by {
        assert v[0] in v;
      }
    }
  }

  /** The test of `new_with_world` for one direction. */
  method UnseenTarget(robMap: Grid, x: int, y: int, position: PositionToGo) returns (keep: bool)
    requires IsWorldGrid(robMap)
    ensures keep == Unexplored(robMap, x, y, position)
  {
    var ds := GetNextPosition(position);
    var destinationX, destinationY := x + ds.0, y + ds.1;
    if IsNotVisualize(destinationX, destinationY) {
      return false;
    }
    keep := robMap[destinationX][destinationY].Unseen?;
  }

  /** The test of `new_already_seen` for one direction. */
  method SeenTarget(robot: MyRobot, robMap: Grid, x: int, y: int, position: PositionToGo) returns (keep: bool)
    requires IsWorldGrid(robMap) && IsVisitedGrid(robot.visited)
    ensures keep == Revisitable(robot.visited, robMap, x, y, position)
  {
    var ds := GetNextPosition(position);
    var destinationX, destinationY := x + ds.0, y + ds.1;
    if IsNotVisualize(destinationX, destinationY) {
      return false;
    }
    keep := IsGoodTile(robMap[destinationX][destinationY]) && !robot.visited[destinationX][destinationY];
  }

  /** Keeping one more direction of `ds`. */
  lemma KeepSnoc(ds: seq<PositionToGo>, f: PositionToGo -> bool, i: nat)
    requires i < |ds|
    ensures Keep(ds[..i + 1], f) == if f(ds[i]) then Keep(ds[..i], f) + [ds[i]] else Keep(ds[..i], f)
  {
    assert ds[..i + 1][..i] == ds[..i];
  }

  /** Every direction is one of the fixed order. */
  lemma OrderHoldsAll()
    ensures forall p :: p in ORDER
  {
    forall p: PositionToGo ensures p in ORDER {
      match p
      case Down => assert ORDER[0] == p;
      case DownRight => assert ORDER[1] == p;
      case Right => assert ORDER[2] == p;
      case TopRight => assert ORDER[3] == p;
      case Top => assert ORDER[4] == p;
      case TopLeft => assert ORDER[5] == p;
      case Left => assert ORDER[6] == p;
      case DownLeft => assert ORDER[7] == p;
    }
  }

  /** `new_already_seen`: the directions, in the fixed order, whose target
      is in the world, a tile the robot may stand on, and not visited; it may
      be empty. */
  method NewAlreadySeen(robot: MyRobot, robMap: Grid, x: int, y: int) returns (v: seq<PositionToGo>)
    requires IsWorldGrid(robMap) && IsVisitedGrid(robot.visited)
    ensures var vis := robot.visited; v == Keep(ORDER, p => Revisitable(vis, robMap, x, y, p))
    ensures forall p :: p in v <==> Revisitable(robot.visited, robMap, x, y, p)
  {
    ghost var vis := robot.visited;
    ghost var f := p => Revisitable(vis, robMap, x, y, p);
    var iterMe := ORDER;
    v := [];
    for i := 0 to |iterMe|
      invariant v == Keep(ORDER[..i], f)
    {
      KeepSnoc(ORDER, f, i);
      var position := iterMe[i];
      var keep := SeenTarget(robot, robMap, x, y, position);
      assert f(position) == keep;
      if keep {
        v := v + [position];
      }
    }
    assert ORDER[..|iterMe|] == ORDER;
    KeepMembers(ORDER, f);
    forall p ensures p in v <==> Revisitable(vis, robMap, x, y, p) {
      assert f(p) == Revisitable(vis, robMap, x, y, p);
    }
    OrderHoldsAll();
  }

  // ---------------------------------------------------------------------
  // Energy projection (`enough_energy_to_operate`)

  /** `MovesToFollow`: the path the search chose and its cost. */
  datatype MovesToFollow = MovesToFollow(pathToFollow: seq<Legacy.InputDir>, cost: nat)

  /** The number of cardinal directions in `ds`. */
  function Cardinals(ds: seq<PositionToGo>): (r: nat)
    ensures r <= |ds|
    decreases |ds|
  {
    if ds == [] then 0
    else Cardinals(ds[..|ds| - 1]) + (if IsCardinal(ds[|ds| - 1]) then 1 else 0)
  }

  /** Some direction of `ds` is diagonal. */
  predicate HasDiagonal(ds: seq<PositionToGo>)
  {
    exists i :: 0 <= i < |ds| && !IsCardinal(ds[i])
  }

  /** The illumination cost, raised to at least 200. */
  function Spotlight(sp: nat): (r: nat)
    ensures r >= 200 && r >= sp && (sp >= 200 ==> r == sp)
    ensures sp < 200 ==> r == 200
  {
    if sp < 200 then 200 else sp
  }

  /** The energy the next round of sensing needs for the frontier `ds`:
      three times ONE_DIRECTION_DISTANCE per cardinal direction, and the
      illumination once when any direction is diagonal. */
  function FrontierEnergy(ds: seq<PositionToGo>, illuminate: nat): nat
  {
    ONE_DIRECTION_DISTANCE * 3 * Cardinals(ds) + (if HasDiagonal(ds) then Spotlight(illuminate) else 0)
  }

  /** The energy `enough_energy_to_operate` asks for: the cost of the moves
      plus the sensing around the cell the moves lead to. */
  function ProjectedCost(moves: MovesToFollow, g: Grid, x: int, y: int, illuminate: nat): nat
  {
    var (ex, ey) := Legacy.Follow(x, y, moves.pathToFollow);
    moves.cost + FrontierEnergy(FrontierOf(g, ex, ey), illuminate)
  }

  /** The sensing loop over the frontier. */
  method FrontierCost(resVet: seq<PositionToGo>) returns (costEnergy: nat, flag: bool)
    ensures costEnergy == ONE_DIRECTION_DISTANCE * 3 * Cardinals(resVet)
    ensures flag == HasDiagonal(resVet)
  {
    costEnergy, flag := 0, false;
    for i := 0 to |resVet|
      invariant costEnergy == ONE_DIRECTION_DISTANCE * 3 * Cardinals(resVet[..i])
      invariant flag == HasDiagonal(resVet[..i])
    {
      assert resVet[..i + 1][..i] == resVet[..i];
      if IsCardinal(resVet[i]) {
        costEnergy := costEnergy + ONE_DIRECTION_DISTANCE * 3;
      } else {
        flag := true;
      }
      assert HasDiagonal(resVet[..i + 1]) == (flag || !IsCardinal(resVet[i])) by {
        assert resVet[..i + 1][i] == resVet[i];
      }
    }
    assert resVet[..|resVet|] == resVet;
  }

  /** `enough_energy_to_operate`: whether the robot can afford the moves and
      the sensing after them. The robot map is missing when the simulation
      does not hand one out; `illuminate` is the spotlight's quote and
      `hasEnough` the robot's energy test, both from the simulation. */
  method EnoughEnergyToOperate(robot: MyRobot, moves: MovesToFollow, robMap: Option<Grid>, illuminate: nat, hasEnough: nat -> bool)
    returns (ok: bool)
    requires robMap.Some? ==> IsWorldGrid(robMap.value)
    ensures ok <==> robMap.Some? && hasEnough(ProjectedCost(moves, robMap.value, robot.row, robot.col, illuminate))
  {
    var cost := moves.cost;
    var x, y := robot.row, robot.col;
    var path := moves.pathToFollow;
    for k := 0 to |path|
      invariant Legacy.Follow(x, y, path[k..]) == Legacy.Follow(robot.row, robot.col, path)
    {
      assert path[k..][0] == path[k] && path[k..][1..] == path[k + 1..];
      if path[k] == Legacy.None {
        continue;
      }
      var d := Legacy.DirectionValue(path[k]);
      x, y := x + d.0, y + d.1;
    }
    assert path[|path|..] == [];
    if robMap.None? {
      return false;
    }
    var rob := robMap.value;
    var resVet := NewWithWorld(rob, x, y);
    var costEnergy, flag := FrontierCost(resVet);
    if flag {
      var sp := illuminate;
      if sp < 200 {
        sp := 200;
      }
      costEnergy := costEnergy + sp;
    }
    cost := cost + costEnergy;
    ok := hasEnough(cost);
  }

  /** Keeping never adds a cardinal direction. */
  lemma {:induction false} KeepCardinals(ds: seq<PositionToGo>, f: PositionToGo -> bool)
    ensures Cardinals(Keep(ds, f)) <= Cardinals(ds)
    decreases |ds|
  {
    if ds != [] {
      KeepCardinals(ds[..|ds| - 1], f);
      var init := Keep(ds[..|ds| - 1], f);
      var r := init + [ds[|ds| - 1]];
      assert r[..|r| - 1] == init;
    }
  }

  /** The fixed order holds four cardinal directions. */
  lemma CardinalsOfOrder()
    ensures Cardinals(ORDER) == 4
  {
    var s1 := [Down];
    var s2 := s1 + [DownRight];
    var s3 := s2 + [Right];
    var s4 := s3 + [TopRight];
    var s5 := s4 + [Top];
    var s6 := s5 + [TopLeft];
    var s7 := s6 + [Left];
    assert s1[..0] == [];
    assert Cardinals(s1) == 1;
    assert s2[..1] == s1;
    assert Cardinals(s2) == 1;
    assert s3[..2] == s2;
    assert Cardinals(s3) == 2;
    assert s4[..3] == s3;
    assert Cardinals(s4) == 2;
    assert s5[..4] == s4;
    assert Cardinals(s5) == 3;
    assert s6[..5] == s5;
    assert Cardinals(s6) == 3;
    assert s7[..6] == s6;
    assert Cardinals(s7) == 4;
    assert ORDER == s7 + [DownLeft];
    assert ORDER[..7] == s7;
  }

  /** The sensing after a walk always costs something, and at most four
      cardinal scans plus one illumination: the frontier is never empty and
      holds each direction at most once. */
  lemma ProjectedEnergyBounds(g: Grid, x: int, y: int, illuminate: nat)
    ensures var e := FrontierEnergy(FrontierOf(g, x, y), illuminate);
      ONE_DIRECTION_DISTANCE * 3 <= e <= 4 * ONE_DIRECTION_DISTANCE * 3 + Spotlight(illuminate)
  {
    var f := p => Unexplored(g, x, y, p);
    var v := FrontierOf(g, x, y);
    KeepCardinals(ORDER, f);
    CardinalsOfOrder();
    assert Cardinals(v) <= 4;
    if !HasDiagonal(v) {
      assert v != [] by {
        assert |ORDER| == 8;
      }
      var last := v[|v| - 1];
      assert IsCardinal(last);
      assert Cardinals(v) >= 1;
    }
  }

  /** The energy asked for is the cost of the moves plus at least one
      cardinal scan, and at most four scans and one illumination more. */
  lemma ProjectedCostExceedsMoves(moves: MovesToFollow, g: Grid, x: int, y: int, illuminate: nat)
    ensures moves.cost + ONE_DIRECTION_DISTANCE * 3 <= ProjectedCost(moves, g, x, y, illuminate)
    ensures ProjectedCost(moves, g, x, y, illuminate) <= moves.cost + 4 * ONE_DIRECTION_DISTANCE * 3 + Spotlight(illuminate)
  {
    var (ex, ey) := Legacy.Follow(x, y, moves.pathToFollow);
    ProjectedEnergyBounds(g, ex, ey, illuminate);
  }

  // ---------------------------------------------------------------------
  // Picking and combining candidates

  /** (distance, weight) of every candidate. */
  function Scores<G>(s: seq<GeneticSearch<G>>): (r: seq<(int, int)>)
    reads s
    ensures |r| == |s|
    ensures forall i :: 0 <= i < |s| ==> r[i] == (s[i].distanceFromDest, s[i].weight)
    decreases |s|
  {
    if s == [] then [] else [(s[0].distanceFromDest, s[0].weight)] + Scores(s[1..])
  }

  /** `b` is at least as close as `a` and strictly lighter. */
  predicate Beats(b: (int, int), a: (int, int))
  {
    b.0 <= a.0 && b.1 < a.1
  }

  /** The scan of the winner pick from index `i` with `cur` the current best. */
  function WinnerFrom(keys: seq<(int, int)>, i: nat, cur: nat): (r: nat)
    requires i <= |keys| && cur < |keys|
    ensures r < |keys|
    decreases |keys| - i
  {
    if i == |keys| then cur
    else WinnerFrom(keys, i + 1, if Beats(keys[i], keys[cur]) then i else cur)
  }

  /** The index the winner pick ends with. */
  function Winner(keys: seq<(int, int)>): nat
    requires |keys| > 0
  {
    WinnerFrom(keys, 0, 0)
  }

  /** The per-direction winner pick: starting from the first candidate, the
      index moves to every later candidate that beats the current one. */
  method PickWinner<G>(genetic: seq<GeneticSearch<G>>) returns (indexRes: nat)
    requires |genetic| > 0
    ensures indexRes < |genetic| && indexRes == Winner(Scores(genetic))
  {
    ghost var keys := Scores(genetic);
    indexRes := 0;
    for i := 0 to |genetic|
      invariant indexRes < |genetic|
      invariant WinnerFrom(keys, i, indexRes) == Winner(keys)
    {
      if genetic[i].distanceFromDest <= genetic[indexRes].distanceFromDest {
        if genetic[i].weight < genetic[indexRes].weight {
          indexRes := i;
        }
      }
    }
  }

  /** Along the scan, nothing already passed beats the current best. */
  lemma {:induction false} WinnerFromUndominated(keys: seq<(int, int)>, i: nat, cur: nat)
    requires i <= |keys| && cur < |keys|
    requires forall j :: 0 <= j < i ==> !Beats(keys[j], keys[cur])
    ensures var r := WinnerFrom(keys, i, cur);
      (forall j :: 0 <= j < |keys| ==> !Beats(keys[j], keys[r]))
      && keys[r].0 <= keys[cur].0 && keys[r].1 <= keys[cur].1
    decreases |keys| - i
  {
    if i < |keys| {
      var next := if Beats(keys[i], keys[cur]) then i else cur;
      assert forall j :: 0 <= j < i + 1 ==> !Beats(keys[j], keys[next]);
      WinnerFromUndominated(keys, i + 1, next);
    }
  }

  /** The winner is beaten by no candidate, and is at least as close and as
      light as the first one. Its index is a position of the population,
      never INFINITE while the population is smaller than that. */
  lemma WinnerUndominated(keys: seq<(int, int)>)
    requires |keys| > 0
    ensures var r := Winner(keys);
      r < |keys| && (|keys| <= INFINITE ==> r != INFINITE)
      && (forall j :: 0 <= j < |keys| ==> !Beats(keys[j], keys[r]))
      && keys[r].0 <= keys[0].0 && keys[r].1 <= keys[0].1
  {
    WinnerFromUndominated(keys, 0, 0);
  }

  /** The destination of the search thread for `p` from the robot at
      (x, y), as the evaluators see it. The thread computes it as
      `usize`, which wraps a negative coordinate around; the evaluators
      turn it back into the signed value with `as i32`. Every destination
      lies ONE_DIRECTION_DISTANCE steps away, diagonal ones included. */
  function ThreadDestination(x: nat, y: nat, p: PositionToGo): (r: (int, int))
    requires InWorld(x, y)
    ensures Distance(x, y, r) == ONE_DIRECTION_DISTANCE
    ensures -(ONE_DIRECTION_DISTANCE as int) <= r.0 < WORLD_SIZE + ONE_DIRECTION_DISTANCE
    ensures -(ONE_DIRECTION_DISTANCE as int) <= r.1 < WORLD_SIZE + ONE_DIRECTION_DISTANCE
  {
    (x + GetNextPosition(p).0, y + GetNextPosition(p).1)
  }

  /** A destination above the world: from row 3 the Top thread aims at
      row -5, which a `usize` cannot hold. The fallback of `new_with_world`
      hands out Top whenever no direction aims at an unobserved cell. */
  lemma DestinationAboveTheWorld(g: Grid)
    requires IsWorldGrid(g) && forall p: PositionToGo :: !Unexplored(g, 3, 5, p)
    ensures Top in FrontierOf(g, 3, 5)
    ensures ThreadDestination(3, 5, Top) == (-5, 5) && !InWorld(-5, 5)
  {
    NoneKept(ORDER, p => Unexplored(g, 3, 5, p));
    assert ORDER[4] == Top;
  }

  /** What a search thread hands back: a copy of a candidate. */
  datatype Outcome<G> = Outcome(vector: seq<G>, cost: nat, distanceFromDest: int, weight: int)

  function Snapshot<G>(gs: GeneticSearch<G>): Outcome<G>
    reads gs
  {
    Outcome(gs.vector, gs.cost, gs.distanceFromDest, gs.weight)
  }

  /** The end of a search thread: a copy of the winner of its final
      generation, or nothing when the winner's index is INFINITE, which
      cannot happen for a population smaller than that. */
  method ThreadResult<G>(genetic: seq<GeneticSearch<G>>) returns (r: Option<Outcome<G>>)
    requires |genetic| > 0
    ensures |genetic| <= INFINITE ==> r.Some?
    ensures r.Some? ==> r.value == Snapshot(genetic[Winner(Scores(genetic))])
  {
    var indexRes := PickWinner(genetic);
    WinnerUndominated(Scores(genetic));
    if indexRes != INFINITE {
      r := Some(Snapshot(genetic[indexRes]));
    } else {
      r := None;
    }
  }

  /** `GeneticSearch::default` as a copy: the placeholder every real
      candidate beats. */
  function Placeholder<G>(): Outcome<G>
  {
    Outcome([], INFINITE, INFINITE, INFINITE)
  }

  /** The combination of the thread results from index `i` with `best` so
      far: a result replaces the best only when it beats it. */
  function AggregateFrom<G>(results: seq<Option<Outcome<G>>>, i: nat, best: Outcome<G>): Outcome<G>
    requires i <= |results|
    decreases |results| - i
  {
    if i == |results| then best
    else
      var value := results[i];
      var next := if value.Some? && Beats((value.value.distanceFromDest, value.value.weight), (best.distanceFromDest, best.weight))
        then value.value else best;
      AggregateFrom(results, i + 1, next)
  }

  /** The combination loop of one search round, starting from the
      placeholder. The tie-break on cost sits inside the strict weight test
      and is never reached. */
  method Aggregate<G>(results: seq<Option<Outcome<G>>>) returns (minSoFar: Outcome<G>)
    ensures minSoFar == AggregateFrom(results, 0, Placeholder())
  {
    minSoFar := Placeholder();
    for i := 0 to |results|
      invariant AggregateFrom(results, i, minSoFar) == AggregateFrom(results, 0, Placeholder())
    {
      if results[i] == None {
        continue;
      }
      var value := results[i].value;
      if value.distanceFromDest <= minSoFar.distanceFromDest && value.weight < minSoFar.weight {
        if value.weight == minSoFar.weight {
          assert false;
        } else {
          minSoFar := value;
        }
      }
    }
  }

  /** The retry test of the search loop: the round is accepted once the best
      candidate ends within one step of its target. */
  predicate SearchDone<G>(best: Outcome<G>)
  {
    best.distanceFromDest <= 1
  }

  lemma {:induction false} AggregateFromFacts<G>(results: seq<Option<Outcome<G>>>, i: nat, best: Outcome<G>)
    requires i <= |results|
    ensures var r := AggregateFrom(results, i, best);
      (r == best || exists j :: i <= j < |results| && results[j] == Some(r))
      && r.distanceFromDest <= best.distanceFromDest && r.weight <= best.weight
      && (forall j :: i <= j < |results| && results[j].Some? ==>
            !Beats((results[j].value.distanceFromDest, results[j].value.weight), (r.distanceFromDest, r.weight)))
    decreases |results| - i
  {
    if i < |results| {
      var value := results[i];
      var next := if value.Some? && Beats((value.value.distanceFromDest, value.value.weight), (best.distanceFromDest, best.weight))
        then value.value else best;
      AggregateFromFacts(results, i + 1, next);
    }
  }

  /** The combined best is the placeholder or one of the results, no result
      beats it, and a round is accepted only if some thread returned a
      candidate within one step of its target. */
  lemma AggregateFacts<G>(results: seq<Option<Outcome<G>>>)
    ensures var r := AggregateFrom(results, 0, Placeholder());
      (r == Placeholder() || exists j :: 0 <= j < |results| && results[j] == Some(r))
      && (forall j :: 0 <= j < |results| && results[j].Some? ==>
            !Beats((results[j].value.distanceFromDest, results[j].value.weight), (r.distanceFromDest, r.weight)))
      && (SearchDone(r) ==> exists j :: 0 <= j < |results| && results[j].Some? && results[j].value.distanceFromDest <= 1)
  {
    AggregateFromFacts(results, 0, Placeholder());
  }
}
