/**
 * The layered noise classifier CalculateWorldDataFromPerlinNoise: height
 * carving, then the snow line, then biome selection, otherwise tile 0.
 * The Perlin noise sampler is a caller-supplied function of two real
 * coordinates; its output range [0, 1] is a hypothesis of the lemmas.
 */
module Terrain {
  import opened Selection
  import opened Config

  /** Per-generation noise origin (the randomX/Y/Z fields). */
  datatype Offsets = Offsets(x: real, y: real, z: real)

  type Noise = (real, real) -> real

  const Empty: int := -1
  const SnowCover: int := -2

  ghost predicate UnitRange(noise: Noise)
  {
    forall a, b :: 0.0 <= noise(a, b) <= 1.0
  }

  /** What the classifier needs to be defined: a cell inside the grid, and a usable biome scale. */
  predicate CanClassify(s: Settings, x: int, y: int, z: int)
  {
    && 0 <= x < s.mapWidth && 0 <= y < s.mapHeight && 0 <= z < s.mapDepth
    && (s.isUsingBioms ==> s.biomScale != 0.0)
  }

  /** Column height: noise at the column's stretched coordinates, scaled to the grid height. */
  function HeightValue(s: Settings, off: Offsets, noise: Noise, x: int, z: int): real
    requires s.mapWidth > 0 && s.mapDepth > 0
  {
    var w, d := s.mapWidth as real, s.mapDepth as real;
    var heightX := (off.x + x as real / w) * s.spikyness * w / 25.0;
    var heightZ := (off.z + z as real / d) * s.spikyness * d / 25.0;
    noise(heightX, heightZ) * s.mapHeight as real
  }

  /**
   * The biome draw compared against the running sums of the tile weights.
   * In three-dimensional mode the second sample is halved before it is
   * added, so the draw is not an average and may exceed the total weight.
   */
  function BiomeDraw(s: Settings, off: Offsets, noise: Noise, x: int, y: int, z: int): real
    requires s.mapWidth > 0 && s.mapHeight > 0 && s.mapDepth > 0 && s.biomScale != 0.0
  {
    var surface := noise(BiomX(s, off, x), BiomZ(s, off, z));
    var full := Sum(s.tileProbabilities);
    if s.isUsingThreedimensionalBioms then (surface + noise(BiomX(s, off, x), BiomY(s, off, y)) / 2.0) * full
    else surface * full
  }

  // The biome sampling coordinates; the vertical one is stretched by the width, as written.

  function BiomX(s: Settings, off: Offsets, x: int): real
    requires s.mapWidth > 0 && s.biomScale != 0.0
  {
    (off.x + x as real / s.mapWidth as real) / s.biomScale * s.mapWidth as real / 25.0
  }

  function BiomY(s: Settings, off: Offsets, y: int): real
    requires s.mapWidth > 0 && s.mapHeight > 0 && s.biomScale != 0.0
  {
    (off.y + y as real / s.mapHeight as real) / s.biomScale * s.mapWidth as real / 25.0
  }

  function BiomZ(s: Settings, off: Offsets, z: int): real
    requires s.mapDepth > 0 && s.biomScale != 0.0
  {
    (off.z + z as real / s.mapDepth as real) / s.biomScale * s.mapDepth as real / 25.0
  }

  predicate Carved(s: Settings, off: Offsets, noise: Noise, x: int, y: int, z: int)
    requires s.mapWidth > 0 && s.mapDepth > 0
  {
    s.isUsingHeightMap && HeightValue(s, off, noise, x, z) < y as real
  }

  predicate Snowed(s: Settings, y: int)
  {
    s.isUsingSnow && y as real > s.snowLine
  }

  /** The classification of one cell: -1 empty, -2 snow, otherwise a tile index. */
  function CalculateWorldDataFromPerlinNoise(s: Settings, off: Offsets, noise: Noise, x: int, y: int, z: int): (r: int)
    requires CanClassify(s, x, y, z)
    ensures r == Empty || r == SnowCover || r == 0 || 0 <= r < |s.tileProbabilities|
  {
    if Carved(s, off, noise, x, y, z) then Empty
    else if Snowed(s, y) then SnowCover
    else if s.isUsingBioms then
      match Choose(BiomeDraw(s, off, noise, x, y, z), Cumulative(s.tileProbabilities))
      case Some(i) => i
      case None => 0
    else 0
  }

  // ---------------------------------------------------------------------
  // Layer order

  /** A cell above its column's height is empty, whatever the snow and biome layers say. */
  lemma HeightLayerCarves(s: Settings, off: Offsets, noise: Noise, x: int, y: int, z: int)
    requires CanClassify(s, x, y, z)
    requires s.isUsingHeightMap && HeightValue(s, off, noise, x, z) < y as real
    ensures CalculateWorldDataFromPerlinNoise(s, off, noise, x, y, z) == Empty
  {
  }

  /** The bottom layer of a column is never carved when the noise stays in [0, 1]. */
  lemma GroundNeverCarved(s: Settings, off: Offsets, noise: Noise, x: int, z: int)
    requires UnitRange(noise)
    requires CanClassify(s, x, 0, z)
    ensures CalculateWorldDataFromPerlinNoise(s, off, noise, x, 0, z) != Empty
  {
    var v := HeightValue(s, off, noise, x, z);
    assert v >= 0.0;
  }

  /** Above the snow line an uncarved cell is snow, whatever the biome layer says. */
  lemma SnowOverridesBiome(s: Settings, off: Offsets, noise: Noise, x: int, y: int, z: int)
    requires CanClassify(s, x, y, z)
    requires !s.isUsingHeightMap || HeightValue(s, off, noise, x, z) >= y as real
    requires s.isUsingSnow && y as real > s.snowLine
    ensures CalculateWorldDataFromPerlinNoise(s, off, noise, x, y, z) == SnowCover
  {
  }

  /** When no layer fires the cell gets tile 0. */
  lemma NoLayerGivesTileZero(s: Settings, off: Offsets, noise: Noise, x: int, y: int, z: int)
    requires CanClassify(s, x, y, z)
    requires !s.isUsingHeightMap || HeightValue(s, off, noise, x, z) >= y as real
    requires !s.isUsingSnow || y as real <= s.snowLine
    requires !s.isUsingBioms
    ensures CalculateWorldDataFromPerlinNoise(s, off, noise, x, y, z) == 0
  {
  }

  /**
   * Two-dimensional biomes: with noise in [0, 1] and non-negative weights
   * the draw never exceeds the total, so the cell gets the first tile whose
   * running sum covers the draw.
   */
  lemma FlatBiomeSelection(s: Settings, off: Offsets, noise: Noise, x: int, y: int, z: int)
    requires UnitRange(noise)
    requires CanClassify(s, x, y, z)
    requires !Carved(s, off, noise, x, y, z) && !Snowed(s, y)
    requires s.isUsingBioms && !s.isUsingThreedimensionalBioms
    requires NonNegative(s.tileProbabilities) && |s.tileProbabilities| > 0
    ensures var r := CalculateWorldDataFromPerlinNoise(s, off, noise, x, y, z);
            var draw := BiomeDraw(s, off, noise, x, y, z);
            var combined := Cumulative(s.tileProbabilities);
            && 0 <= r < |s.tileProbabilities|
            && draw <= combined[r]
            && forall j :: 0 <= j < r ==> combined[j] < draw
  {
    var draw := BiomeDraw(s, off, noise, x, y, z);
    var full := Sum(s.tileProbabilities);
    SumNonNegative(s.tileProbabilities);
    var n := noise(BiomX(s, off, x), BiomZ(s, off, z));
    assert draw == n * full;
    assert n * full <= full by {
      assert full - n * full == (1.0 - n) * full;
    }
    InRangeDrawMatches(s.tileProbabilities, draw);
  }

  /**
   * Three-dimensional biomes: with both samples at 1 and weights [1, 1] the
   * draw is 3, above the total 2, no running sum covers it and the cell
   * falls through to tile 0 (an average of the samples would choose tile 1).
   */
  lemma SolidBiomeDrawCanExceedTotal(s: Settings, off: Offsets, noise: Noise, x: int, y: int, z: int)
    requires forall a, b :: noise(a, b) == 1.0
    requires CanClassify(s, x, y, z)
    requires !s.isUsingHeightMap && !s.isUsingSnow
    requires s.isUsingBioms && s.isUsingThreedimensionalBioms
    requires s.tileProbabilities == [1.0, 1.0]
    ensures BiomeDraw(s, off, noise, x, y, z) == 3.0 > Sum(s.tileProbabilities)
    ensures CalculateWorldDataFromPerlinNoise(s, off, noise, x, y, z) == 0
    ensures Choose(1.0 * Sum(s.tileProbabilities), Cumulative(s.tileProbabilities)) == Some(1)
  {
    PairTable(1.0, 1.0);
    var o := Choose(2.0, [1.0, 2.0]);
    assert o.Some? && o.value != 0;
  }

  /**
   * Constant noise 0.5 with weights [1, 1] in two-dimensional mode: the draw
   * is 1, covered by the first running sum, so every cell that is neither
   * carved nor snowed is tile 0.
   */
  lemma HalfNoiseEqualWeightsGivesTileZero(s: Settings, off: Offsets, noise: Noise, x: int, y: int, z: int)
    requires forall a, b :: noise(a, b) == 0.5
    requires CanClassify(s, x, y, z)
    requires !Carved(s, off, noise, x, y, z) && !Snowed(s, y)
    requires s.isUsingBioms && !s.isUsingThreedimensionalBioms
    requires s.tileProbabilities == [1.0, 1.0]
    ensures CalculateWorldDataFromPerlinNoise(s, off, noise, x, y, z) == 0
  {
    PairTable(1.0, 1.0);
  }
}
