/** Frontier directions (`PositionToGo`): the eight compass targets a planning
    round may aim at, four cardinal ones far away and four diagonal ones near. */
module Frontier {
  import opened World

  datatype PositionToGo = Down | DownRight | Right | TopRight | Top | TopLeft | Left | DownLeft

  /** The fixed order in which every planner walks the directions. */
  const ORDER: seq<PositionToGo> := [Down, DownRight, Right, TopRight, Top, TopLeft, Left, DownLeft]

  predicate IsCardinal(p: PositionToGo)
  {
    p in {Down, Right, Top, Left}
  }

  /** The sign of a direction along the rows, as its name says (Down is +1). */
  function RowSign(p: PositionToGo): int
  {
    if p in {Down, DownRight, DownLeft} then 1
    else if p in {Top, TopRight, TopLeft} then -1
    else 0
  }

  /** The sign of a direction along the columns (Right is +1). */
  function ColSign(p: PositionToGo): int
  {
    if p in {Right, DownRight, TopRight} then 1
    else if p in {Left, DownLeft, TopLeft} then -1
    else 0
  }

  /** `get_next_position`: the target offset of a direction, ONE_DIRECTION_DISTANCE
      along one axis for a cardinal direction and DISTANCE along both for a
      diagonal one, with the signs its name gives. */
  function GetNextPosition(p: PositionToGo): (r: (int, int))
    ensures IsCardinal(p) ==> r == (RowSign(p) * ONE_DIRECTION_DISTANCE, ColSign(p) * ONE_DIRECTION_DISTANCE)
    ensures !IsCardinal(p) ==> r == (RowSign(p) * DISTANCE, ColSign(p) * DISTANCE)
  {
    match p
    case Down => (ONE_DIRECTION_DISTANCE, 0)
    case DownRight => (DISTANCE, DISTANCE)
    case Right => (0, ONE_DIRECTION_DISTANCE)
    case TopRight => (-(DISTANCE as int), DISTANCE)
    case Top => (-(ONE_DIRECTION_DISTANCE as int), 0)
    case TopLeft => (-(DISTANCE as int), -(DISTANCE as int))
    case Left => (0, -(ONE_DIRECTION_DISTANCE as int))
    case DownLeft => (DISTANCE, -(DISTANCE as int))
  }

  /** The eight targets are pairwise distinct and a cardinal target lies
      exactly on an axis, a diagonal one off both. */
  lemma NextPositionsDistinct(p: PositionToGo, q: PositionToGo)
    ensures p != q ==> GetNextPosition(p) != GetNextPosition(q)
    ensures IsCardinal(p) <==> (GetNextPosition(p).0 == 0 || GetNextPosition(p).1 == 0)
  {
  }

  /** `PositionToGo::new`: all eight directions, in the fixed order. */
  method New() returns (v: seq<PositionToGo>)
    ensures v == ORDER
    ensures |v| == 8 && forall p: PositionToGo :: p in v
  {
    var iterMe := [Down, DownRight, Right, TopRight, Top, TopLeft, Left, DownLeft];
    v := [];
    for i := 0 to |iterMe|
      invariant v == iterMe[..i]
    {
      v := v + [iterMe[i]];
    }
    assert iterMe[..|iterMe|] == iterMe;
    forall p: PositionToGo ensures p in v {
      match p
      case Down => assert v[0] == p;
      case DownRight => assert v[1] == p;
      case Right => assert v[2] == p;
      case TopRight => assert v[3] == p;
      case Top => assert v[4] == p;
      case TopLeft => assert v[5] == p;
      case Left => assert v[6] == p;
      case DownLeft => assert v[7] == p;
    }
  }
}
