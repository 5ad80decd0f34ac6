/**
 * The generator's configuration: the inspector-editable fields that the
 * generation core reads, and the prefab catalogue entries.
 */
module Config {

  datatype GeneratorType = RandomNumbers | Prefabs | PerlinNoise

  /**
   * One prefab catalogue entry (a PrefabGeneratorTiles asset): an opaque
   * prefab descriptor and its selection weight. The footprint fields are
   * carried but read by nothing in the generator.
   */
  datatype PrefabTile = PrefabTile(prefab: nat, probability: real, width: int, height: int, depth: int)

  /**
   * tileProbabilities[i] is the weight of tile prefab i; the tile prefab
   * catalogue itself is represented by its indices 0 .. |tileProbabilities| - 1.
   */
  datatype Settings = Settings(
    generatorType: GeneratorType,
    mapWidth: nat,
    mapHeight: nat,
    mapDepth: nat,
    isRevealingTheMapSlowly: bool,
    timeToRevealMap: int,
    tileProbabilities: seq<real>,
    prefabGeneratorTiles: seq<PrefabTile>,
    isUsingRandomPerlinNoise: bool,
    isUsingHeightMap: bool,
    spikyness: real,
    isUsingSnow: bool,
    snowLine: real,
    isUsingBioms: bool,
    biomScale: real,
    isUsingThreedimensionalBioms: bool)

  /** The weights of the prefab catalogue, in catalogue order. */
  function PrefabProbabilities(tiles: seq<PrefabTile>): seq<real>
  {
    seq(|tiles|, i requires 0 <= i < |tiles| => tiles[i].probability)
  }
}
