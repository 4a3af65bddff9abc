/** The robot's view of the world: constants of the crate root, tiles, the
    observed grid and the tile-level predicates both engines share. */
module World {

  // Constants of the crate root (src/main.rs).
  const DISTANCE: nat := 4
  const ONE_DIRECTION_DISTANCE: nat := 8
  const INFINITE: nat := 10000
  const WORLD_SIZE: nat := 300
  const INPUT_DIR_SIZE: nat := 18
  const POPULATION_NUMBER: nat := 8

  /** Values drawn from the random generator, `gen_range(0..k)`. The
      generator itself is not modelled: callers supply the draws. */
  type Draw4 = t: int | 0 <= t < 4
  type Draw5 = t: int | 0 <= t < 5
  type Draw10 = t: int | 0 <= t < 10
  type Draw28 = t: int | 0 <= t < 28

  /** Terrain kinds of the simulation library. */
  datatype TileType =
    | DeepWater | ShallowWater | Sand | Grass | Street | Hill | Mountain
    | Snow | Lava | Teleport(active: bool) | Wall

  /** Content kinds of the simulation library; the amount a content carries
      never matters to the planner (it compares `to_default()` values). */
  datatype ContentKind =
    | Rock | Tree | Garbage | Fire | Coin | Bin | Crate | Bank | Water
    | Market | Fish | Building | Bush | JollyBlock | Scarecrow | NoContent

  datatype Tile = Tile(tileType: TileType, elevation: nat, content: ContentKind)

  /** One cell of the robot map, `Option<Tile>`: unobserved or observed. */
  datatype Cell = Unseen | Seen(tile: Tile)

  /** The robot map, indexed `[row][col]`. */
  type Grid = seq<seq<Cell>>

  /** The robot map of the 300 x 300 world. */
  predicate IsWorldGrid(g: Grid)
  {
    |g| == WORLD_SIZE && forall r :: 0 <= r < |g| ==> |g[r]| == WORLD_SIZE
  }

  predicate InWorld(x: int, y: int)
  {
    0 <= x < WORLD_SIZE && 0 <= y < WORLD_SIZE
  }

  function CellAt(g: Grid, x: int, y: int): Cell
    requires IsWorldGrid(g) && InWorld(x, y)
  {
    g[x][y]
  }

  /** The cell at (x, y) exists and has been observed. */
  predicate OnMap(g: Grid, x: int, y: int)
  {
    IsWorldGrid(g) && InWorld(x, y) && CellAt(g, x, y).Seen?
  }

  /** `is_not_visualize` of the crate root: true for a coordinate outside the
      world. It admits exactly the indices of a world grid. */
  function IsNotVisualize(x: int, y: int): (r: bool)
    ensures !r <==> InWorld(x, y)
    ensures !r ==> forall g :: IsWorldGrid(g) ==> 0 <= x < |g| && 0 <= y < |g[x]|
  {
    y >= WORLD_SIZE || x >= WORLD_SIZE || x < 0 || y < 0
  }

  /** `is_good_tile`: an observed tile the robot may stand on. */
  function IsGoodTile(c: Cell): (r: bool)
    ensures c.Unseen? ==> !r
    ensures c.Seen? && c.tile.tileType in {DeepWater, Lava, Wall} ==> !r
    ensures c.Seen? && c.tile.tileType !in {DeepWater, Lava, Wall} ==> r
  {
    match c
    case Unseen => false
    case Seen(t) =>
      match t.tileType
      case DeepWater => false
      case Lava => false
      case Wall => false
      case _ => true
  }

  /** What the simulation charges, in the current weather, for entering a tile
      of a kind, and what a content is worth. Both come from the simulation
      library and are parameters here. */
  datatype CostModel = CostModel(terrain: TileType -> nat, content: ContentKind -> nat)

  /** The free `genetic_cost`: the cost of stepping from `current` onto
      `target`, given the two tiles it reads from the map. */
  function StepCost(m: CostModel, current: Tile, target: Tile): (r: nat)
    ensures r >= m.terrain(target.tileType)
    ensures target.elevation <= current.elevation ==> r == m.terrain(target.tileType)
    ensures target.elevation > current.elevation ==>
      r - m.terrain(target.tileType) >= target.elevation - current.elevation
    ensures target.elevation > current.elevation ==>
      r == m.terrain(target.tileType)
           + (target.elevation - current.elevation) * (target.elevation - current.elevation)
  {
    var climb: nat := if target.elevation > current.elevation
      then Square(target.elevation - current.elevation)
      else 0;
    m.terrain(target.tileType) + climb
  }

  /** `pow(2)` on a non-negative difference. */
  function Square(d: nat): (r: nat)
    ensures r >= d
  {
    SquareAtLeast(d);
    d * d
  }

  lemma SquareAtLeast(d: nat)
    ensures d * d >= d
  {
    if d > 0 {
      assert d * d == d * (d - 1) + d;
    }
  }

  /** Climbing higher never costs less: the cost is monotone in the target's
      elevation. */
  lemma StepCostMonotone(m: CostModel, current: Tile, low: Tile, high: Tile)
    requires low.tileType == high.tileType && low.elevation <= high.elevation
    ensures StepCost(m, current, low) <= StepCost(m, current, high)
  {
    if low.elevation > current.elevation {
      SquareMonotone(low.elevation - current.elevation, high.elevation - current.elevation);
    }
  }

  lemma {:induction false} SquareMonotone(a: nat, b: nat)
    requires a <= b
    ensures Square(a) <= Square(b)
    decreases b - a
  {
    if a < b {
      SquareMonotone(a, b - 1);
      assert b * b == (b - 1) * (b - 1) + 2 * b - 1;
    }
  }
}
