/**
 * The WorldGenerator component: its settings, the worldData grid and the
 * noise offsets, the three generation strategies and the population walk.
 * Random.Range is a caller-supplied sequence of draws consumed in order;
 * Mathf.PerlinNoise is a caller-supplied function.
 */
module Generator {
  import opened Selection
  import opened Grid
  import opened Config
  import opened Terrain
  import opened Population
  import opened Prefabs

  /** What one generation hands to the presentation layer. */
  datatype Outcome =
    | Populated(frames: seq<seq<Event>>)
    | Placed(placements: seq<Placement>)

  /** The draw the dense walk consumes at cell c: draws are used in visiting order. */
  function DrawFor(draws: seq<real>, c: Cell, w: nat, h: nat, d: nat): real
    requires InBounds(c, w, h, d) && |draws| >= w * h * d
  {
    LinearInRange(c, w, h, d);
    draws[Linear(c, h, d)]
  }

  /** A random-numbers cell: the first index whose running sum covers the draw, else unchanged. */
  function RandomTile(previous: int, r: real, combined: seq<real>): int
  {
    match Choose(r, combined)
    case Some(i) => i
    case None => previous
  }

  /**
   * A draw in [0, total weight] over non-negative weights always lands on a
   * tile index, and on a tile of positive weight unless it is tile 0.
   */
  lemma RandomTileInRange(previous: int, weights: seq<real>, r: real)
    requires NonNegative(weights) && |weights| > 0
    requires r <= Sum(weights)
    ensures 0 <= RandomTile(previous, r, Cumulative(weights)) < |weights|
    ensures RandomTile(previous, r, Cumulative(weights)) > 0 ==> weights[RandomTile(previous, r, Cumulative(weights))] > 0.0
  {
    InRangeDrawMatches(weights, r);
    SelectedHasPositiveWeight(weights, r);
  }

  /** A draw above the total weight, or an empty table, leaves the cell as it was. */
  lemma RandomTileKeepsPrevious(previous: int, weights: seq<real>, r: real)
    requires NonNegative(weights)
    requires r > Sum(weights) || |weights| == 0
    ensures RandomTile(previous, r, Cumulative(weights)) == previous
  {
    CumulativeShape(weights);
    assert forall j :: 0 <= j < |weights| ==> Cumulative(weights)[j] <= Cumulative(weights)[|weights| - 1];
  }

  /** What populateWorld emits for a grid: the paced frames in slow mode, one frame then an empty one otherwise. */
  function PopulationFrames(a: array3<int>, slow: bool, tilesPerFrame: int): seq<seq<Event>>
    reads a
  {
    if slow then Frames(Rows(a, a.Length0, 0, true), tilesPerFrame) else [Events(a, false), []]
  }

  /** The z loop of the random-numbers fill for row (x, y). */
  method RandomRow(a: array3<int>, x: int, y: int, draws: seq<real>, combined: array<real>, ghost table: seq<real>)
    requires combined[..] == table
    requires 0 <= x < a.Length0 && 0 <= y < a.Length1
    requires |draws| >= a.Length0 * a.Length1 * a.Length2
    modifies a
    ensures forall l :: 0 <= l < a.Length2 ==>
              a[x, y, l] == RandomTile(old(a[x, y, l]), DrawFor(draws, Cell(x, y, l), a.Length0, a.Length1, a.Length2), table)
    ensures forall i, j, l :: 0 <= i < a.Length0 && 0 <= j < a.Length1 && 0 <= l < a.Length2 && (i != x || j != y) ==>
              a[i, j, l] == old(a[i, j, l])
  {
    var z := 0;
    while z < a.Length2
      invariant 0 <= z <= a.Length2
      invariant forall l :: 0 <= l < z ==>
                  a[x, y, l] == RandomTile(old(a[x, y, l]), DrawFor(draws, Cell(x, y, l), a.Length0, a.Length1, a.Length2), table)
      invariant forall i, j, l :: 0 <= i < a.Length0 && 0 <= j < a.Length1 && 0 <= l < a.Length2 && (i != x || j != y || l >= z) ==>
                  a[i, j, l] == old(a[i, j, l])
    {
      LinearInRange(Cell(x, y, z), a.Length0, a.Length1, a.Length2);
      var randomTileValue := draws[Linear(Cell(x, y, z), a.Length1, a.Length2)];
      var found, index := SelectIndex(randomTileValue, combined);
      if found {
        a[x, y, z] := index;
      }
      z := z + 1;
    }
  }

  /** The z loop of the Perlin-noise fill for row (x, y): every cell gets its classification. */
  method NoiseRow(a: array3<int>, x: int, y: int, s: Settings, off: Offsets, noise: Noise)
    requires a.Length0 == s.mapWidth && a.Length1 == s.mapHeight && a.Length2 == s.mapDepth
    requires 0 <= x < a.Length0 && 0 <= y < a.Length1
    requires s.isUsingBioms ==> s.biomScale != 0.0
    modifies a
    ensures forall l :: 0 <= l < a.Length2 ==> a[x, y, l] == CalculateWorldDataFromPerlinNoise(s, off, noise, x, y, l)
    ensures forall i, j, l :: 0 <= i < a.Length0 && 0 <= j < a.Length1 && 0 <= l < a.Length2 && (i != x || j != y) ==>
              a[i, j, l] == old(a[i, j, l])
  {
    var z := 0;
    while z < a.Length2
      invariant 0 <= z <= a.Length2
      invariant forall l :: 0 <= l < z ==> a[x, y, l] == CalculateWorldDataFromPerlinNoise(s, off, noise, x, y, l)
      invariant forall i, j, l :: 0 <= i < a.Length0 && 0 <= j < a.Length1 && 0 <= l < a.Length2 && (i != x || j != y || l >= z) ==>
                  a[i, j, l] == old(a[i, j, l])
    {
      a[x, y, z] := CalculateWorldDataFromPerlinNoise(s, off, noise, x, y, z);
      z := z + 1;
    }
  }

  /**
   * The selection for one anchor c against the catalogue's running-sum table:
   * the anchor's draw is the next one, and its placement, if any, is appended.
   */
  method PlaceAnchor(ghost cells: seq<Cell>, c: Cell, draws: seq<real>, k: nat, combined: array<real>,
                     tiles: seq<PrefabTile>, placements0: seq<Placement>) returns (placements: seq<Placement>)
    requires combined[..] == Cumulative(PrefabProbabilities(tiles))
    requires k == |cells| < |draws|
    requires placements0 == PlaceAll(cells, draws, tiles)
    ensures placements == PlaceAll(cells + [c], draws, tiles)
  {
    PlaceAllSnoc(cells, c, draws, tiles);
    var found, index := SelectIndex(draws[k], combined);
    placements := placements0;
    if found {
      placements := placements + [Placement(c, index, tiles[index].prefab)];
    }
  }

  /**
   * The z loop of the prefab walk for line (x, y): one draw per anchor
   * (x, y, 0), (x, y, 10), ..., consumed from position k on.
   */
  method PlacePrefabLine(x: int, y: int, d: nat, ghost done: seq<Cell>, draws: seq<real>, k0: nat,
                         combined: array<real>, tiles: seq<PrefabTile>, placements0: seq<Placement>)
    returns (placements: seq<Placement>, k: nat)
    requires combined[..] == Cumulative(PrefabProbabilities(tiles))
    requires k0 == |done| && k0 + Steps(d, 10) <= |draws|
    requires placements0 == PlaceAll(done, draws, tiles)
    ensures k == k0 + Steps(d, 10)
    ensures placements == PlaceAll(done + ZCells(x, y, Steps(d, 10)), draws, tiles)
  {
    placements, k := placements0, k0;
    var z, m := 0, 0;
    ghost var cells := done;
    assert done + ZCells(x, y, 0) == done;
    while z < d
      invariant z == 10 * m && m <= Steps(d, 10)
      invariant k == k0 + m == |cells|
      invariant cells == done + ZCells(x, y, m)
      invariant placements == PlaceAll(cells, draws, tiles)
    {
      StepsBound(d, 10, m);
      ZCellsExtend(done, x, y, m);
      placements := PlaceAnchor(cells, Cell(x, y, z), draws, k, combined, tiles, placements);
      cells := cells + [Cell(x, y, z)];
      k, z, m := k + 1, z + 10, m + 1;
    }
    StepsBound(d, 10, m);
    assert m == Steps(d, 10);
  }

  /** The y and z loops of the prefab walk for plane x = 10 i. */
  method PlacePrefabPlane(h: nat, d: nat, i: nat, x: int, draws: seq<real>, k0: nat,
                          combined: array<real>, tiles: seq<PrefabTile>, placements0: seq<Placement>)
    returns (placements: seq<Placement>, k: nat)
    requires combined[..] == Cumulative(PrefabProbabilities(tiles))
    requires x == 10 * i
    requires |draws| >= |LatticeBefore(h, d, i + 1, 0)|
    requires k0 == |LatticeBefore(h, d, i, 0)| <= |draws|
    requires placements0 == PlaceAll(LatticeBefore(h, d, i, 0), draws, tiles)
    ensures k == |LatticeBefore(h, d, i + 1, 0)| <= |draws|
    ensures placements == PlaceAll(LatticeBefore(h, d, i + 1, 0), draws, tiles)
  {
    placements, k := placements0, k0;
    ghost var cells := LatticeBefore(h, d, i, 0);
    var y, j := 0, 0;
    while y < h
      invariant y == 5 * j && j <= Steps(h, 5)
      invariant cells == LatticeBefore(h, d, i, j)
      invariant k == |cells| <= |draws|
      invariant placements == PlaceAll(cells, draws, tiles)
    {
      StepsBound(h, 5, j);
      LineWithinPlane(h, d, i, j);
      placements, k := PlacePrefabLine(x, y, d, cells, draws, k, combined, tiles, placements);
      cells := cells + ZCells(x, y, Steps(d, 10));
      y, j := y + 5, j + 1;
    }
    StepsBound(h, 5, j);
    assert j == Steps(h, 5);
    assert LatticeBefore(h, d, i + 1, 0) == LatticeBefore(h, d, i, j);
  }

  /**
   * The z loop of the population walk for row (x, y): a tile event per
   * cell holding a tile and, when revealing slowly, a snow event per snow
   * cell.
   */
  method CollectRow(a: array3<int>, x: int, y: int, slow: bool) returns (row: seq<Event>)
    requires 0 <= x < a.Length0 && 0 <= y < a.Length1
    ensures row == RowEvents(a, x, y, a.Length2, slow)
  {
    row := [];
    var z := 0;
    while z < a.Length2
      invariant 0 <= z <= a.Length2
      invariant row == RowEvents(a, x, y, z, slow)
    {
      if a[x, y, z] >= 0 {
        row := row + [PlaceTile(Cell(x, y, z), a[x, y, z])];
      } else if slow && a[x, y, z] == SnowCover {
        row := row + [PlaceSnow(Cell(x, y, z))];
      }
      z := z + 1;
    }
  }

  class WorldGenerator {
    var settings: Settings
    var worldData: array3<int>
    var randomX: real
    var randomY: real
    var randomZ: real

    /** A component with the given inspector settings; the grid is empty until a world is created. */
    constructor (s: Settings)
      ensures settings == s
      ensures worldData.Length0 == 0 && worldData.Length1 == 0 && worldData.Length2 == 0
      ensures randomX == 0.0 && randomY == 0.0 && randomZ == 0.0
    {
      settings := s;
      worldData := new int[0, 0, 0];
      randomX, randomY, randomZ := 0.0, 0.0, 0.0;
    }

    /**
     * The grid has the configured dimensions. The constructor starts with an
     * empty grid; CreateNewWorld establishes this by allocating a fresh one.
     */
    predicate Valid()
      reads this
    {
      && worldData.Length0 == settings.mapWidth
      && worldData.Length1 == settings.mapHeight
      && worldData.Length2 == settings.mapDepth
    }

    function NoiseOffsets(): Offsets
      reads this
    {
      Offsets(randomX, randomY, randomZ)
    }

    /** The pacing rate of the current settings. */
    function CurrentTilesPerFrame(): int
      requires settings.timeToRevealMap != 0
      reads this
    {
      TilesPerFrame(settings.mapWidth, settings.mapHeight, settings.mapDepth, settings.timeToRevealMap)
    }

    /**
     * Random numbers: one draw per cell in visiting order; the cell takes the
     * first tile whose running sum covers the draw, and keeps its value when
     * none does. Then the grid is populated.
     */
    method CreateWorldFromRandomNumbers(draws: seq<real>) returns (frames: seq<seq<Event>>)
      requires Valid()
      requires |draws| >= settings.mapWidth * settings.mapHeight * settings.mapDepth
      requires settings.timeToRevealMap != 0
      modifies worldData
      ensures forall x, y, z :: 0 <= x < worldData.Length0 && 0 <= y < worldData.Length1 && 0 <= z < worldData.Length2 ==>
                worldData[x, y, z] == RandomTile(old(worldData[x, y, z]),
                                                 DrawFor(draws, Cell(x, y, z), worldData.Length0, worldData.Length1, worldData.Length2),
                                                 Cumulative(settings.tileProbabilities))
      ensures frames == PopulationFrames(worldData, settings.isRevealingTheMapSlowly, CurrentTilesPerFrame())
    {
      var a := worldData;
      var w, h, d := settings.mapWidth, settings.mapHeight, settings.mapDepth;
      var table := Cumulative(settings.tileProbabilities);
      var combined, fullProbability := BuildCombined(settings.tileProbabilities);
      var x := 0;
      while x < w
        invariant 0 <= x <= w && combined[..] == table
        invariant forall i, j, l :: 0 <= i < x && 0 <= j < h && 0 <= l < d ==>
                    a[i, j, l] == RandomTile(old(a[i, j, l]), DrawFor(draws, Cell(i, j, l), w, h, d), table)
        invariant forall i, j, l :: x <= i < w && 0 <= j < h && 0 <= l < d ==> a[i, j, l] == old(a[i, j, l])
      {
        var y := 0;
        while y < h
          invariant 0 <= y <= h && combined[..] == table
          invariant forall i, j, l :: 0 <= i < w && 0 <= j < h && 0 <= l < d && (i < x || (i == x && j < y)) ==>
                      a[i, j, l] == RandomTile(old(a[i, j, l]), DrawFor(draws, Cell(i, j, l), w, h, d), table)
          invariant forall i, j, l :: 0 <= i < w && 0 <= j < h && 0 <= l < d && (i > x || (i == x && j >= y)) ==>
                      a[i, j, l] == old(a[i, j, l])
        {
          RandomRow(a, x, y, draws, combined, table);
          y := y + 1;
        }
        x := x + 1;
      }
      frames := PopulateWorld();
    }

    /**
     * Prefabs: one draw per anchor of the 10 x 5 x 10 lattice, in visiting
     * order; the anchor gets the catalogue entry whose running sum first
     * covers the draw, or nothing. The grid is neither filled nor populated.
     */
    method CreateWorldFromPrefabs(draws: seq<real>) returns (placements: seq<Placement>)
      requires |draws| >= |Lattice(settings.mapWidth, settings.mapHeight, settings.mapDepth)|
      ensures placements == PlaceAll(Lattice(settings.mapWidth, settings.mapHeight, settings.mapDepth), draws, settings.prefabGeneratorTiles)
    {
      var w, h, d := settings.mapWidth, settings.mapHeight, settings.mapDepth;
      var tiles := settings.prefabGeneratorTiles;
      var combined, fullProbability := BuildCombined(PrefabProbabilities(tiles));
      placements := [];
      var k := 0;
      ghost var table := combined[..];
      var x, i := 0, 0;
      while x < w
        invariant combined[..] == table
        invariant x == 10 * i && i <= Steps(w, 10)
        invariant k == |LatticeBefore(h, d, i, 0)| <= |draws|
        invariant placements == PlaceAll(LatticeBefore(h, d, i, 0), draws, tiles)
      {
        StepsBound(w, 10, i);
        PlaneWithinLattice(w, h, d, i);
        placements, k := PlacePrefabPlane(h, d, i, x, draws, k, combined, tiles, placements);
        x, i := x + 10, i + 1;
      }
      StepsBound(w, 10, i);
      assert i == Steps(w, 10);
    }

    /**
     * Perlin noise: the noise origin is redrawn when random noise is on;
     * every cell gets the classifier's value at that origin. Then the grid is
     * populated.
     */
    method CreateWorldFromPerlinNoise(draws: seq<real>, noise: Noise) returns (frames: seq<seq<Event>>)
      requires Valid()
      requires settings.isUsingRandomPerlinNoise ==> |draws| >= 3
      requires settings.isUsingBioms ==> settings.biomScale != 0.0
      requires settings.timeToRevealMap != 0
      modifies this, worldData
      ensures settings == old(settings) && worldData == old(worldData)
      ensures NoiseOffsets() == if settings.isUsingRandomPerlinNoise then Offsets(draws[0], draws[1], draws[2]) else old(NoiseOffsets())
      ensures forall x, y, z :: 0 <= x < worldData.Length0 && 0 <= y < worldData.Length1 && 0 <= z < worldData.Length2 ==>
                worldData[x, y, z] == CalculateWorldDataFromPerlinNoise(settings, NoiseOffsets(), noise, x, y, z)
      ensures frames == PopulationFrames(worldData, settings.isRevealingTheMapSlowly, CurrentTilesPerFrame())
    {
      if settings.isUsingRandomPerlinNoise {
        randomX, randomY, randomZ := draws[0], draws[1], draws[2];
      }
      var a := worldData;
      var s, off := settings, NoiseOffsets();
      var x := 0;
      while x < s.mapWidth
        invariant 0 <= x <= s.mapWidth
        invariant forall i, j, l :: 0 <= i < x && 0 <= j < s.mapHeight && 0 <= l < s.mapDepth ==>
                    a[i, j, l] == CalculateWorldDataFromPerlinNoise(s, off, noise, i, j, l)
        modifies a
      {
        var y := 0;
        while y < s.mapHeight
          invariant 0 <= y <= s.mapHeight
          invariant forall i, j, l :: 0 <= i < s.mapWidth && 0 <= j < s.mapHeight && 0 <= l < s.mapDepth && (i < x || (i == x && j < y)) ==>
                      a[i, j, l] == CalculateWorldDataFromPerlinNoise(s, off, noise, i, j, l)
          modifies a
        {
          NoiseRow(a, x, y, s, off, noise);
          y := y + 1;
        }
        x := x + 1;
      }
      frames := PopulateWorld();
    }

    /**
     * A new world: a fresh grid of the configured size, all zero, filled by
     * the configured strategy.
     */
    method CreateNewWorld(draws: seq<real>, noise: Noise) returns (outcome: Outcome)
      requires settings.generatorType != Prefabs ==> settings.timeToRevealMap != 0
      requires settings.generatorType == RandomNumbers ==> |draws| >= settings.mapWidth * settings.mapHeight * settings.mapDepth
      requires settings.generatorType == Prefabs ==> |draws| >= |Lattice(settings.mapWidth, settings.mapHeight, settings.mapDepth)|
      requires settings.generatorType == PerlinNoise ==>
                 (settings.isUsingRandomPerlinNoise ==> |draws| >= 3) && (settings.isUsingBioms ==> settings.biomScale != 0.0)
      modifies this
      ensures settings == old(settings) && fresh(worldData) && Valid()
      ensures settings.generatorType != PerlinNoise ==> NoiseOffsets() == old(NoiseOffsets())
      ensures match settings.generatorType
              case RandomNumbers =>
                && outcome == Populated(PopulationFrames(worldData, settings.isRevealingTheMapSlowly, CurrentTilesPerFrame()))
                && forall x, y, z :: 0 <= x < worldData.Length0 && 0 <= y < worldData.Length1 && 0 <= z < worldData.Length2 ==>
                     worldData[x, y, z] == RandomTile(0, DrawFor(draws, Cell(x, y, z), worldData.Length0, worldData.Length1, worldData.Length2),
                                                      Cumulative(settings.tileProbabilities))
              case Prefabs =>
                && outcome == Placed(PlaceAll(Lattice(settings.mapWidth, settings.mapHeight, settings.mapDepth), draws, settings.prefabGeneratorTiles))
                && forall x, y, z :: 0 <= x < worldData.Length0 && 0 <= y < worldData.Length1 && 0 <= z < worldData.Length2 ==>
                     worldData[x, y, z] == 0
              case PerlinNoise =>
                && outcome == Populated(PopulationFrames(worldData, settings.isRevealingTheMapSlowly, CurrentTilesPerFrame()))
                && NoiseOffsets() == (if settings.isUsingRandomPerlinNoise then Offsets(draws[0], draws[1], draws[2]) else old(NoiseOffsets()))
                && forall x, y, z :: 0 <= x < worldData.Length0 && 0 <= y < worldData.Length1 && 0 <= z < worldData.Length2 ==>
                     worldData[x, y, z] == CalculateWorldDataFromPerlinNoise(settings, NoiseOffsets(), noise, x, y, z)
    {
      worldData := new int[settings.mapWidth, settings.mapHeight, settings.mapDepth]((x, y, z) => 0);
      match settings.generatorType
      case RandomNumbers =>
        var frames := CreateWorldFromRandomNumbers(draws);
        outcome := Populated(frames);
      case Prefabs =>
        var placements := CreateWorldFromPrefabs(draws);
        outcome := Placed(placements);
      case PerlinNoise =>
        var frames := CreateWorldFromPerlinNoise(draws, noise);
        outcome := Populated(frames);
    }

    /**
     * The population walk: in slow mode the events of each finished row go
     * into the current frame and every tilesPerFrame rows the coroutine
     * yields; otherwise every tile event is emitted before the one yield.
     */
    method PopulateWorld() returns (frames: seq<seq<Event>>)
      requires Valid()
      requires settings.timeToRevealMap != 0
      ensures frames == PopulationFrames(worldData, settings.isRevealingTheMapSlowly, CurrentTilesPerFrame())
    {
      var a := worldData;
      var w, h := settings.mapWidth, settings.mapHeight;
      var tilesPerFrame := CurrentTilesPerFrame();
      if settings.isRevealingTheMapSlowly {
        var batches, pending, counter := [], [], 0;
        ghost var rows := [];
        var x := 0;
        while x < w
          invariant 0 <= x <= w
          invariant rows == Rows(a, x, 0, true)
          invariant Pacing(batches, pending, counter) == Paced(rows, tilesPerFrame)
        {
          var y := 0;
          while y < h
            invariant 0 <= y <= h
            invariant rows == Rows(a, x, y, true)
            invariant Pacing(batches, pending, counter) == Paced(rows, tilesPerFrame)
          {
            var row := CollectRow(a, x, y, true);
            PacedSnoc(rows, row, tilesPerFrame);
            rows := rows + [row];
            pending, counter := pending + row, counter + 1;
            if counter >= tilesPerFrame {
              batches, pending, counter := batches + [pending], [], 0;
            }
            y := y + 1;
          }
          assert Rows(a, x + 1, 0, true) == Rows(a, x, h, true);
          x := x + 1;
        }
        frames := batches + [pending];
      } else {
        var events := [];
        var x := 0;
        while x < w
          invariant 0 <= x <= w
          invariant events == EventsBefore(a, x, 0, false)
        {
          var y := 0;
          while y < h
            invariant 0 <= y <= h
            invariant events == EventsBefore(a, x, y, false)
          {
            var row := CollectRow(a, x, y, false);
            events := events + row;
            y := y + 1;
          }
          assert EventsBefore(a, x + 1, 0, false) == EventsBefore(a, x, h, false);
          x := x + 1;
        }
        frames := [events, []];
      }
    }
  }
}
