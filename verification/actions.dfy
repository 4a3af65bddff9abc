/** The movement primitive of the simulation library that an action is handed
    to. Going Up decreases the row, going Left decreases the column. */
module Interface {

  datatype Direction = Up | Down | Left | Right

  function Offset(d: Direction): (int, int)
  {
    match d
    case Up => (-1, 0)
    case Down => (1, 0)
    case Left => (0, -1)
    case Right => (0, 1)
  }
}

/** The action vocabulary of src/genetic_algorithm.rs: four moves that carry a
    destroy flag and a deposit flag, and the null move. */
module Actions {
  import Interface
  import opened World

  datatype InputDir =
    | Right(destroy: bool, deposit: bool)
    | Left(destroy: bool, deposit: bool)
    | Top(destroy: bool, deposit: bool)
    | Bottom(destroy: bool, deposit: bool)
    | None

  /** The same kind of action with both flags cleared. Two actions have the
      same discriminant exactly when their cleared forms are equal. */
  function Cleared(d: InputDir): (r: InputDir)
    ensures !r.None? ==> !r.destroy && !r.deposit
    ensures r.None? <==> d.None?
  {
    match d
    case Right(_, _) => Right(false, false)
    case Left(_, _) => Left(false, false)
    case Top(_, _) => Top(false, false)
    case Bottom(_, _) => Bottom(false, false)
    case None => None
  }

  /** `convert_to_int`: the (row, column) step of an action. */
  function ConvertToInt(d: InputDir): (r: (int, int))
    ensures d.None? <==> r == (0, 0)
    ensures r.0 == 0 || r.1 == 0
    ensures -1 <= r.0 <= 1 && -1 <= r.1 <= 1
    ensures d.Top? ==> r == (-1, 0)
    ensures d.Bottom? ==> r == (1, 0)
    ensures d.Left? ==> r == (0, -1)
    ensures d.Right? ==> r == (0, 1)
  {
    match d
    case Right(_, _) => (0, 1)
    case Left(_, _) => (0, -1)
    case Top(_, _) => (-1, 0)
    case Bottom(_, _) => (1, 0)
    case None => (0, 0)
  }

  /** `is_reverse`: `a` undoes `other`, whatever their flags: `a` is a move and
      the two steps cancel out. */
  function IsReverse(a: InputDir, other: InputDir): (r: bool)
    ensures r <==> !a.None? && ConvertToInt(a).0 == -ConvertToInt(other).0
                           && ConvertToInt(a).1 == -ConvertToInt(other).1
  {
    match a
    case Top(_, _) => other.Bottom?
    case Left(_, _) => other.Right?
    case Bottom(_, _) => other.Top?
    case Right(_, _) => other.Left?
    case None => false
  }

  /** Reversal is symmetric and irreflexive, ignores the flags, and the null
      move neither reverses nor is reversed. */
  lemma IsReverseLaws(a: InputDir, b: InputDir)
    ensures IsReverse(a, b) == IsReverse(b, a)
    ensures !IsReverse(a, a)
    ensures IsReverse(a, b) == IsReverse(Cleared(a), Cleared(b))
    ensures a.None? ==> !IsReverse(a, b) && !IsReverse(b, a)
  {
  }

  /** `property`: the movement primitive an action is executed with. The null
      move is handed over as Down. */
  function Property(d: InputDir): (r: Interface.Direction)
    ensures !d.None? ==> Interface.Offset(r) == ConvertToInt(d)
    ensures d.None? ==> r == Interface.Down
  {
    match d
    case Right(_, _) => Interface.Right
    case Left(_, _) => Interface.Left
    case Top(_, _) => Interface.Up
    case Bottom(_, _) => Interface.Down
    case None => Interface.Down
  }

  /** `random_input_dir`, given the draw `gen_range(0..5)`. */
  function RandomInputDir(t: Draw5): (r: InputDir)
    ensures Cleared(r) == r
  {
    match t
    case 0 => Bottom(false, false)
    case 1 => Left(false, false)
    case 2 => None
    case 3 => Right(false, false)
    case _ => Top(false, false)
  }

  /** Every kind of action is drawn by exactly one of the five draws. */
  lemma RandomInputDirOnto(d: InputDir)
    ensures exists t: Draw5 :: RandomInputDir(t) == Cleared(d)
    ensures forall t: Draw5, u: Draw5 :: RandomInputDir(t) == RandomInputDir(u) ==> t == u
  {
    match d
    case Bottom(_, _) => assert RandomInputDir(0) == Cleared(d);
    case Left(_, _) => assert RandomInputDir(1) == Cleared(d);
    case None => assert RandomInputDir(2) == Cleared(d);
    case Right(_, _) => assert RandomInputDir(3) == Cleared(d);
    case Top(_, _) => assert RandomInputDir(4) == Cleared(d);
  }

  /** `random_input_without_i`, given the draw `gen_range(0..4)`: an action of
      a different kind than `i`, with both flags cleared. */
  function RandomInputWithoutI(i: InputDir, t: Draw4): (r: InputDir)
    ensures Cleared(r) == r
    ensures Cleared(r) != Cleared(i)
  {
    match i
    case Right(_, _) =>
      (match t case 0 => Bottom(false, false) case 1 => Left(false, false)
               case 2 => None case _ => Top(false, false))
    case Left(_, _) =>
      (match t case 0 => Bottom(false, false) case 1 => None
               case 2 => Right(false, false) case _ => Top(false, false))
    case Top(_, _) =>
      (match t case 0 => Bottom(false, false) case 1 => Left(false, false)
               case 2 => None case _ => Right(false, false))
    case Bottom(_, _) =>
      (match t case 0 => Left(false, false) case 1 => None
               case 2 => Right(false, false) case _ => Top(false, false))
    case None =>
      (match t case 0 => Bottom(false, false) case 1 => Left(false, false)
               case 2 => Right(false, false) case _ => Top(false, false))
  }

  /** The four draws reach every other kind of action: the repair loop can
      always try each alternative. */
  lemma RandomInputWithoutIOnto(i: InputDir, d: InputDir)
    requires Cleared(d) != Cleared(i)
    ensures exists t: Draw4 :: RandomInputWithoutI(i, t) == Cleared(d)
  {
    assert RandomInputWithoutI(i, 0) == Cleared(d) || RandomInputWithoutI(i, 1) == Cleared(d)
        || RandomInputWithoutI(i, 2) == Cleared(d) || RandomInputWithoutI(i, 3) == Cleared(d);
  }

  /** (dx, dy) is a step to one of the four neighbours. */
  predicate IsUnitStep(dx: int, dy: int)
  {
    (dx == 0 && (dy == 1 || dy == -1)) || (dy == 0 && (dx == 1 || dx == -1))
  }

  /** `convert_int_to_input_dir`: the action that steps from (x, y) to
      (x1, y1), or the null move when the two are not 4-neighbours. */
  function ConvertIntToInputDir(x: int, y: int, x1: int, y1: int): (r: InputDir)
    ensures Cleared(r) == r
    ensures !r.None? ==> ConvertToInt(r) == (x1 - x, y1 - y)
    ensures r.None? <==> !IsUnitStep(x1 - x, y1 - y)
  {
    var d := (x1 - x, y1 - y);
    if d == (0, 1) then Right(false, false)
    else if d == (0, -1) then Left(false, false)
    else if d == (1, 0) then Bottom(false, false)
    else if d == (-1, 0) then Top(false, false)
    else None
  }

  /** Converting a step back gives the action it came from, flags cleared. */
  lemma ConvertRoundTrip(d: InputDir, x: int, y: int)
    ensures ConvertIntToInputDir(x, y, x + ConvertToInt(d).0, y + ConvertToInt(d).1) == Cleared(d)
  {
  }

  /** Where a sequence of actions leads from (x, y). */
  function Replay(x: int, y: int, ds: seq<InputDir>): (int, int)
    decreases |ds|
  {
    if ds == [] then (x, y)
    else Replay(x + ConvertToInt(ds[0]).0, y + ConvertToInt(ds[0]).1, ds[1..])
  }

  /** The coordinate before `path[k]`: the start, then the previous one. */
  function Before(x: int, y: int, path: seq<(int, int)>, k: nat): (int, int)
    requires k < |path|
  {
    if k == 0 then (x, y) else path[k - 1]
  }

  /** `convert_to_input_dir`: one action per coordinate of the path, each the
      step from the previous coordinate. */
  method ConvertToInputDir(x: int, y: int, path: seq<(int, int)>) returns (result: seq<InputDir>)
    ensures |result| == |path|
    ensures forall k {:trigger result[k]} :: 0 <= k < |path| ==>
      result[k] == ConvertIntToInputDir(Before(x, y, path, k).0, Before(x, y, path, k).1, path[k].0, path[k].1)
  {
    result := [];
    var cx, cy := x, y;
    for i := 0 to |path|
      invariant |result| == i
      invariant (cx, cy) == if i == 0 then (x, y) else path[i - 1]
      invariant forall k {:trigger result[k]} :: 0 <= k < i ==>
        result[k] == ConvertIntToInputDir(Before(x, y, path, k).0, Before(x, y, path, k).1, path[k].0, path[k].1)
    {
      result := result + [ConvertIntToInputDir(cx, cy, path[i].0, path[i].1)];
      cx, cy := path[i].0, path[i].1;
    }
  }

  /** Consecutive coordinates of a path, starting from (x, y), are 4-neighbours. */
  predicate IsUnitPath(x: int, y: int, path: seq<(int, int)>)
  {
    forall k {:trigger Before(x, y, path, k)} :: 0 <= k < |path| ==> IsUnitStep(path[k].0 - Before(x, y, path, k).0, path[k].1 - Before(x, y, path, k).1)
  }

  /** Replaying one more action adds its step. */
  lemma {:induction false} ReplaySnoc(x: int, y: int, ds: seq<InputDir>, d: InputDir)
    ensures Replay(x, y, ds + [d]) == (Replay(x, y, ds).0 + ConvertToInt(d).0, Replay(x, y, ds).1 + ConvertToInt(d).1)
    decreases |ds|
  {
    if ds == [] {
      assert [] + [d] == [d] && [d][1..] == [];
    } else {
      assert (ds + [d])[0] == ds[0] && (ds + [d])[1..] == ds[1..] + [d];
      ReplaySnoc(x + ConvertToInt(ds[0]).0, y + ConvertToInt(ds[0]).1, ds[1..], d);
    }
  }

  /** From where `prefix` leads, the converted step onto a 4-neighbour
      reaches that neighbour. */
  lemma RetraceStep(x: int, y: int, prefix: seq<InputDir>, b: (int, int), p: (int, int), r: InputDir)
    requires Replay(x, y, prefix) == b
    requires IsUnitStep(p.0 - b.0, p.1 - b.1) && r == ConvertIntToInputDir(b.0, b.1, p.0, p.1)
    ensures Replay(x, y, prefix + [r]) == p
  {
    ReplaySnoc(x, y, prefix, r);
  }

  /** Replaying the converted actions of a 4-connected path retraces it: after
      k + 1 actions the robot stands on path[k]. */
  lemma {:induction false} ConvertedPathRetraces(x: int, y: int, path: seq<(int, int)>, result: seq<InputDir>, k: nat)
    requires IsUnitPath(x, y, path) && |result| == |path| && k < |path|
    requires forall j {:trigger result[j]} :: 0 <= j < |path| ==>
      result[j] == ConvertIntToInputDir(Before(x, y, path, j).0, Before(x, y, path, j).1, path[j].0, path[j].1)
    ensures Replay(x, y, result[..k + 1]) == path[k]
    decreases k
  {
    var prefix := result[..k];
    if k > 0 {
      ConvertedPathRetraces(x, y, path, result, k - 1);
    } else {
      assert prefix == [];
    }
    var b := Before(x, y, path, k);
    RetraceStep(x, y, prefix, b, path[k], result[k]);
    assert result[..k + 1] == prefix + [result[k]];
  }
}
