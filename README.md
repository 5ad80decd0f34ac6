# WorldGenerator — a Dafny model

This project models the generation core of the Unity `WorldGenerator`
component. The component fills a dense three-dimensional grid `worldData`
with tile indices, then walks the grid in x → y → z order and instantiates
a tile prefab for every cell holding a tile index (≥ 0), a snow prefab for
every -2 cell in slow mode only, and nothing for an empty (-1) cell. It has
three generation strategies:

- **Random numbers:** one weighted draw per cell.
- **Prefabs:** one weighted draw per point of a coarse 10 × 5 × 10 lattice.
  Each point gets a catalogue prefab or nothing. The grid is left alone.
- **Perlin noise:** every cell gets a layered classification. The cell is
  -1 (empty) above the column's height, -2 (snow) above the snow line, and
  otherwise a biome tile.

All three build a running-sum table of weights. A draw picks the first
index whose running sum covers it. The population walk (`populateWorld`)
emits one event per tile cell, and in slow mode one per snow cell too. In
slow mode it also yields a frame after every `tilesPerFrame` finished
(x, y) rows.

Modules:

- `Selection` holds the running-sum table and the first-covering choice.
  It has the build loop and selection loop as methods, and their
  properties as lemmas.
- `Grid` holds cells, the lexicographic visiting order and a cell's
  position in that order. The position is the draw a dense loop consumes
  there.
- `Config` holds the inspector settings and the `PrefabGeneratorTiles`
  entry as datatypes.
- `Terrain` holds the classifier `CalculateWorldDataFromPerlinNoise` as a
  pure function, with its layer-order lemmas.
- `Population` holds the population walk's events as specification
  functions over the grid. It also defines the frame pacing as a fold over
  finished rows, with lemmas on order, membership and pacing.
- `Prefabs` holds the anchor lattice, the per-anchor placements, and the
  prefab table as the source sizes it (see Findings).
- `Generator` holds the class `WorldGenerator`. Its fields are the
  settings, `worldData` as an `array3<int>`, and the noise offsets
  `randomX/Y/Z`. Its methods are the strategies and the population walk.
  It also has module-level helper methods for the innermost loops.

Foreign calls are parameters:

- `Random.Range` is a caller-supplied `seq<real>` of draws, consumed in
  visiting order.
- `Mathf.PerlinNoise` is a caller-supplied function `(real, real) -> real`.
  The lemmas that need its range [0, 1] state it as a hypothesis.
- `Instantiate` appends an event: a `PlaceTile`, a `PlaceSnow` or a
  `Placement`.
- Each coroutine yield closes a frame, so the walk's output is a sequence
  of frames.

## Model

| member | source | states |
|---|---|---|
| Selection.BuildCombined | Assets/Scripts/WorldGenerator.cs:109-115 | The build loop fills a fresh table whose entry i is the sum of weights 0..i, and leaves the running total equal to the sum of all weights. |
| Selection.SelectIndex | Assets/Scripts/WorldGenerator.cs:122-130 | The selection loop with its break finds an index exactly when some entry covers the draw. The index it finds is the first covering entry. |
| Selection.ChooseFrom | Assets/Scripts/WorldGenerator.cs:122-130 | The choice is the smallest covering index: every earlier entry is below the draw. It is None exactly when no entry covers the draw. |
| Selection.Sum | Assets/Scripts/WorldGenerator.cs:109-115 | Definition of the running total the build loop ends with: the weights added left to right. Its properties are the Sum lemmas below, and BuildCombined is proved to return it. |
| Selection.Cumulative | Assets/Scripts/WorldGenerator.cs:109-115 | Definition of the table the build loop fills: entry i is the sum of weights 0..i. Its shape is CumulativeShape and CumulativeStep. |
| Selection.Choose | Assets/Scripts/WorldGenerator.cs:122-130 | The selection loop with its break, started at index 0. By ChooseFrom's contract it is the first covering entry, and None when no entry covers the draw. |
| Selection.SumNonNegative | Assets/Scripts/WorldGenerator.cs:109-115 | With non-negative weights the total is non-negative. |
| Selection.PrefixSumMonotone | Assets/Scripts/WorldGenerator.cs:109-115 | With non-negative weights a longer prefix never sums to less. |
| Selection.CumulativeShape | Assets/Scripts/WorldGenerator.cs:109-115 | With non-negative weights the table is non-decreasing and non-negative, and its last entry equals fullProbability. |
| Selection.CumulativeMonotone | Assets/Scripts/WorldGenerator.cs:109-115 | With non-negative weights the table never decreases. |
| Selection.CumulativeNonNegative | Assets/Scripts/WorldGenerator.cs:109-115 | With non-negative weights every table entry is non-negative. |
| Selection.EarlierEntriesBelow | Assets/Scripts/WorldGenerator.cs:122-130 | With non-negative weights and a draw above the sum before entry k, every entry before k is below the draw, so the loop passes them. |
| Selection.CumulativeStep | Assets/Scripts/WorldGenerator.cs:111-114 | Each table entry is the previous entry plus its own weight. |
| Selection.SelectedHasPositiveWeight | Assets/Scripts/WorldGenerator.cs:122-130 | An entry of weight 0 (or less) at an index above 0 is never chosen. |
| Selection.DrawZeroSelectsFirst | Assets/Scripts/WorldGenerator.cs:122-130 | With non-negative weights a draw of 0 chooses index 0. |
| Selection.InRangeDrawMatches | Assets/Scripts/WorldGenerator.cs:122-130 | With non-negative weights every draw up to fullProbability matches some index. |
| Selection.TrailingZerosKeepSum | Assets/Scripts/WorldGenerator.cs:109-115 | Trailing zero weights do not change the total. |
| Selection.LastPositiveSelected | Assets/Scripts/WorldGenerator.cs:122-130 | A draw above the sum before the last positive entry k, and at most the total, chooses k. |
| Selection.ChoosePrefix | Assets/Scripts/WorldGenerator.cs:152-159 | Entries after the first covering entry never change the choice. |
| Selection.PairTable | Assets/Scripts/WorldGenerator.cs:109-115 | The table of weights [a, b] is [a, a + b], with total a + b. |
| Grid.LinearInRange | Assets/Scripts/WorldGenerator.cs:116-133 | A dense x/y/z loop reaches every in-bounds cell at a position in [0, w·h·d). Each cell therefore has a draw of its own. |
| Grid.LinearOrder | Assets/Scripts/WorldGenerator.cs:116-133 | A cell is visited earlier exactly when its position is smaller. Distinct cells get distinct positions. |
| Grid.LinearBefore | Assets/Scripts/WorldGenerator.cs:116-121 | The lexicographic (x, y, z) order implies a smaller position. |
| Terrain.HeightValue | Assets/Scripts/WorldGenerator.cs:230-232 | Definition of the column height: noise at the stretched column coordinates, times the grid height. |
| Terrain.Carved | Assets/Scripts/WorldGenerator.cs:228-243 | Definition of the height layer's test: the layer is on and the column height is below y. |
| Terrain.Snowed | Assets/Scripts/WorldGenerator.cs:245-251 | Definition of the snow layer's test: the layer is on and y is above the snow line. |
| Terrain.BiomX | Assets/Scripts/WorldGenerator.cs:262 | Definition of the biome x coordinate. |
| Terrain.BiomY | Assets/Scripts/WorldGenerator.cs:263 | Definition of the biome y coordinate, stretched by the width as written. |
| Terrain.BiomZ | Assets/Scripts/WorldGenerator.cs:264 | Definition of the biome z coordinate. |
| Terrain.BiomeDraw | Assets/Scripts/WorldGenerator.cs:274-292 | Definition of the value the biome test compares with the table: the surface sample times the total, or in three-dimensional mode the surface sample plus half the vertical one, times the total. |
| Terrain.CalculateWorldDataFromPerlinNoise | Assets/Scripts/WorldGenerator.cs:224-298 | The classification is -1, -2, 0 or a tile index below the number of tile weights. |
| Terrain.HeightLayerCarves | Assets/Scripts/WorldGenerator.cs:228-244 | With the height layer on and the column's height below y, the cell is -1, whatever the snow and biome layers say. |
| Terrain.GroundNeverCarved | Assets/Scripts/WorldGenerator.cs:230-243 | With noise in [0, 1] the bottom cell of a column is never -1. |
| Terrain.SnowOverridesBiome | Assets/Scripts/WorldGenerator.cs:245-251 | An uncarved cell above the snow line is -2, whatever the biome layer says. |
| Terrain.NoLayerGivesTileZero | Assets/Scripts/WorldGenerator.cs:297 | When no layer fires the cell is tile 0. |
| Terrain.FlatBiomeSelection | Assets/Scripts/WorldGenerator.cs:252-296 | In two-dimensional biome mode, with noise in [0, 1] and non-negative weights, the cell is the first tile whose running sum covers noise × total. |
| Terrain.SolidBiomeDrawCanExceedTotal | Assets/Scripts/WorldGenerator.cs:274-287 | In three-dimensional mode the second sample is halved before it is added. With both samples at 1 and weights [1, 1] the draw is 3, above the total. Nothing covers it and the cell falls through to tile 0. The average of the samples would have chosen tile 1. |
| Terrain.HalfNoiseEqualWeightsGivesTileZero | Assets/Scripts/WorldGenerator.cs:288-292 | In two-dimensional biome mode, constant noise 0.5 with weights [1, 1] gives tile 0 to every cell that is neither carved nor snowed. |
| Population.CellEvents | Assets/Scripts/WorldGenerator.cs:312-319 | Definition of one cell's events: a tile event for a value ≥ 0, a snow event for -2 in slow mode, otherwise none. |
| Population.RowEvents | Assets/Scripts/WorldGenerator.cs:310-320 | Definition of one row's events: the z loop's cell events in order. |
| Population.Rows | Assets/Scripts/WorldGenerator.cs:306-331 | Definition of the finished rows before row (x, y), one event sequence per row, in visiting order. |
| Population.EventsBefore | Assets/Scripts/WorldGenerator.cs:306-331 | Definition of the events emitted before row (x, y): the finished rows' events concatenated. |
| Population.Events | Assets/Scripts/WorldGenerator.cs:304-346 | Definition of the whole walk's events, with or without snow events. |
| Population.Step | Assets/Scripts/WorldGenerator.cs:321-328 | Definition of the counter step after a finished row: the row joins the current frame, and the frame is closed and the counter reset once the counter reaches tilesPerFrame. |
| Population.Paced | Assets/Scripts/WorldGenerator.cs:306-331 | Definition of the pacing state after a sequence of finished rows: one Step per row from an empty state. |
| Population.Frames | Assets/Scripts/WorldGenerator.cs:304-333 | Definition of the slow walk's output: the closed frames, then the frame open when the walk ends. |
| Population.TruncDiv | Assets/Scripts/WorldGenerator.cs:303 | C# integer division: the remainder is smaller than the divisor in magnitude and has the dividend's sign. The quotient is non-negative when the operands' signs agree and non-positive otherwise. |
| Population.TilesPerFrame | Assets/Scripts/WorldGenerator.cs:303 | For a positive time, tilesPerFrame is the largest number of whole `timeToRevealMap * 600` blocks that fit in the grid's cell count. For a negative time it is not positive. |
| Population.RowsFlatten | Assets/Scripts/WorldGenerator.cs:306-331 | The finished rows' events, concatenated, are the events emitted so far. |
| Population.RowMembers | Assets/Scripts/WorldGenerator.cs:310-320 | An event is in a row's prefix exactly when a cell of that prefix justifies it. |
| Population.EventsBeforeMembers | Assets/Scripts/WorldGenerator.cs:306-320 | An event is emitted before row (x, y) exactly when it is justified by a cell of an earlier row. |
| Population.EventsAreJustified | Assets/Scripts/WorldGenerator.cs:312-345 | The walk emits exactly the justified events: a tile event for each cell ≥ 0, a snow event for each -2 cell in slow mode only, and nothing for -1. Both directions are proved. |
| Population.EventsAscending | Assets/Scripts/WorldGenerator.cs:306-340 | Events come out in strictly ascending (x, y, z) order, so no cell emits twice. |
| Population.RowAscending | Assets/Scripts/WorldGenerator.cs:310-320 | One row's events are strictly ascending in z. |
| Population.EventsBeforeAscending | Assets/Scripts/WorldGenerator.cs:306-331 | Every prefix of the walk is strictly ascending. |
| Population.RowInside | Assets/Scripts/WorldGenerator.cs:310 | A row's events lie in that row. |
| Population.EventsBeforeInside | Assets/Scripts/WorldGenerator.cs:306-308 | The events before row (x, y) lie in earlier rows. |
| Population.AscendingUnique | Assets/Scripts/WorldGenerator.cs:306-310 | Two strictly ascending event sequences with the same members are equal. |
| Population.WithoutSnowMembers | Assets/Scripts/WorldGenerator.cs:316-319 | Dropping snow events keeps exactly the non-snow members. |
| Population.WithoutSnowAscending | Assets/Scripts/WorldGenerator.cs:316-319 | Dropping snow events keeps the order ascending. |
| Population.SlowEventsWithoutSnowAreImmediate | Assets/Scripts/WorldGenerator.cs:304-350 | The slow walk minus its snow events is exactly the immediate walk. |
| Population.PacedSnoc | Assets/Scripts/WorldGenerator.cs:321-328 | Pacing one more finished row is one counter step. |
| Population.PacedKeepsEvents | Assets/Scripts/WorldGenerator.cs:321-328 | The finished frames followed by the current frame are exactly the rows' events, in order. |
| Population.FramesKeepEvents | Assets/Scripts/WorldGenerator.cs:321-328 | Concatenating every frame of the slow walk gives its full event sequence. |
| Population.PacedCount | Assets/Scripts/WorldGenerator.cs:323-327 | Every finished frame used up Period(tilesPerFrame) rows, and fewer rows than that are pending. |
| Population.PacedPending | Assets/Scripts/WorldGenerator.cs:323-327 | The current frame holds the events of the rows after the last finished frame. |
| Population.PacedBatches | Assets/Scripts/WorldGenerator.cs:323-327 | Frame i holds exactly the events of rows i·P .. (i+1)·P − 1, where P is Period(tilesPerFrame). |
| Population.SmallMapYieldsEveryRow | Assets/Scripts/WorldGenerator.cs:302-328 | 100 cells revealed over one second give tilesPerFrame 0, so every finished row closes a frame. |
| Prefabs.Steps | Assets/Scripts/WorldGenerator.cs:146-150 | Definition of a stride loop's iteration count. StepsBound states what it counts. |
| Prefabs.LatticeBefore | Assets/Scripts/WorldGenerator.cs:146-150 | Definition of the anchors visited before z line j of plane i, in visiting order. |
| Prefabs.Lattice | Assets/Scripts/WorldGenerator.cs:146-150 | Definition of all anchors in visiting order. Its members are LatticeMembers, its order LatticeIncreasing and its size LatticeSize. |
| Prefabs.PlaceOne | Assets/Scripts/WorldGenerator.cs:152-159 | Definition of one anchor's placement: the picked catalogue entry's prefab at the anchor, or nothing. |
| Prefabs.PlaceAll | Assets/Scripts/WorldGenerator.cs:146-163 | Definition of the placements of a sequence of anchors, anchor k using draw k. Its properties are PlacementsAtAnchors, PlacementsOnLattice and EveryAnchorPlaced. |
| Prefabs.PrefabPickAsWritten | Assets/Scripts/WorldGenerator.cs:139-159 | Definition of the pick as written: OutOfRange when the table overruns or a match lies past the catalogue, otherwise the first covering entry or NoPick. |
| Prefabs.StepsBound | Assets/Scripts/WorldGenerator.cs:146-150 | A stride loop `for (x = 0; x < n; x += s)` runs its body for exactly the i with s·i < n. |
| Prefabs.ZCells | Assets/Scripts/WorldGenerator.cs:150 | A z line of k anchors has k cells. |
| Prefabs.LatticeMembers | Assets/Scripts/WorldGenerator.cs:146-150 | The anchors are exactly the in-bounds cells with x % 10, y % 5 and z % 10 all equal to 0. |
| Prefabs.LatticeBeforeMembers | Assets/Scripts/WorldGenerator.cs:146-150 | An anchor is visited before line (i, j) exactly when it lies on an earlier line. |
| Prefabs.ZCellsMembers | Assets/Scripts/WorldGenerator.cs:150 | A z line holds exactly the multiples of 10 below 10·k. |
| Prefabs.LatticeIncreasing | Assets/Scripts/WorldGenerator.cs:146-150 | The anchors are visited in strictly increasing (x, y, z) order, so each gets exactly one draw. |
| Prefabs.LatticeBeforeIncreasing | Assets/Scripts/WorldGenerator.cs:146-150 | Every prefix of the anchor walk is strictly increasing. |
| Prefabs.ZCellsIncreasing | Assets/Scripts/WorldGenerator.cs:150 | A z line is strictly increasing. |
| Prefabs.LatticeBeforeLength | Assets/Scripts/WorldGenerator.cs:146-150 | The number of anchors before line (i, j) is that line's position in a dense walk over the lattice counts. |
| Prefabs.LatticeSize | Assets/Scripts/WorldGenerator.cs:146-150 | The lattice has Steps(w,10)·Steps(h,5)·Steps(d,10) anchors, one draw each. |
| Prefabs.LineWithinPlane | Assets/Scripts/WorldGenerator.cs:148-150 | A z line of plane i ends no later than the start of plane i + 1. |
| Prefabs.PlaneWithinLattice | Assets/Scripts/WorldGenerator.cs:146-148 | Every plane of the lattice ends within the lattice's anchor count. |
| Prefabs.PrefabPick | Assets/Scripts/WorldGenerator.cs:152-159 | With the table sized by the catalogue, the pick is never out of range. A pick is the first covering entry, and NoPick means no entry covers the draw. |
| Prefabs.PlacementsAtAnchors | Assets/Scripts/WorldGenerator.cs:152-159 | Every placement sits on one of the visited anchors and spawns the prefab of the catalogue entry it names. |
| Prefabs.PlacementsOnLattice | Assets/Scripts/WorldGenerator.cs:146-163 | The prefab walk places only on lattice anchors, and only existing catalogue entries. |
| Prefabs.EveryAnchorPlaced | Assets/Scripts/WorldGenerator.cs:146-163 | With a non-empty, non-negative catalogue and every draw in [0, total], each anchor gets exactly one placement, and placement k sits at anchor k. |
| Prefabs.PlaceAllSnoc | Assets/Scripts/WorldGenerator.cs:150-160 | One more anchor adds its own placement, if any, at the end. |
| Prefabs.ZCellsExtend | Assets/Scripts/WorldGenerator.cs:150 | A z line grows by its next anchor at z = 10·m. |
| Prefabs.PrefabTableAsWritten | Assets/Scripts/WorldGenerator.cs:139-145 | With the table sized by tileProbabilities, the table is None (an index out of range) exactly when the catalogue is longer. Otherwise it is the catalogue's running sums followed by zeros. |
| Prefabs.AsWrittenLongCatalogueOverruns | Assets/Scripts/WorldGenerator.cs:139-145 | One tile weight and two catalogue entries overrun the table as written. The corrected pick does not. |
| Prefabs.AsWrittenEmptyCatalogueOverruns | Assets/Scripts/WorldGenerator.cs:152-157 | An empty catalogue with tile weights present makes draw 0 match a zero entry with no catalogue entry behind it. The corrected pick gives NoPick. |
| Prefabs.AsWrittenAgreesOtherwise | Assets/Scripts/WorldGenerator.cs:139-159 | When the table as written does not overrun, the catalogue is non-empty and non-negative, and the draw is in [0, total], the pick as written equals the corrected pick. |
| Generator.DrawFor | Assets/Scripts/WorldGenerator.cs:116-122 | Definition of the draw the dense walk consumes at a cell: the draw at the cell's visiting position. |
| Generator.RandomTile | Assets/Scripts/WorldGenerator.cs:122-130 | Definition of a random-numbers cell: the chosen index, or the old value when nothing covers the draw. |
| Generator.PopulationFrames | Assets/Scripts/WorldGenerator.cs:300-351 | Definition of populateWorld's output: the paced frames of all rows in slow mode, otherwise every tile event in one frame and then an empty one. |
| Generator.RandomTileInRange | Assets/Scripts/WorldGenerator.cs:122-130 | With non-negative, non-empty weights, a draw in [0, total] gives a tile index in range. That tile has positive weight unless it is tile 0. |
| Generator.RandomTileKeepsPrevious | Assets/Scripts/WorldGenerator.cs:122-130 | A draw above the total, or an empty table, leaves the cell unchanged: 0 on a fresh grid. |
| Generator.RandomRow | Assets/Scripts/WorldGenerator.cs:120-132 | The z loop sets every cell of row (x, y) to its selection, or leaves it when nothing matches. All other cells are unchanged. |
| Generator.NoiseRow | Assets/Scripts/WorldGenerator.cs:214-217 | The z loop sets every cell of row (x, y) to its classification. All other cells are unchanged. |
| Generator.PlaceAnchor | Assets/Scripts/WorldGenerator.cs:152-160 | One anchor's draw and selection append exactly that anchor's placement, if any. |
| Generator.PlacePrefabLine | Assets/Scripts/WorldGenerator.cs:150-161 | The z loop consumes one draw per anchor of the line, and the placements extend by the line's placements. |
| Generator.PlacePrefabPlane | Assets/Scripts/WorldGenerator.cs:148-162 | The y loop completes one plane of anchors: the draws and placements reach the next plane. |
| Generator.CollectRow | Assets/Scripts/WorldGenerator.cs:310-346 | The z loop of the population walk emits exactly the events of row (x, y). |
| Generator.WorldGenerator.constructor | Assets/Scripts/WorldGenerator.cs:19-62 | New component: the given settings, an empty grid, and noise offsets at 0. |
| Generator.WorldGenerator.CreateNewWorld | Assets/Scripts/WorldGenerator.cs:77-97 | A fresh grid of the configured size, all zero, then the configured strategy. For random numbers, every cell is its selection over 0 and the output is the population frames. For prefabs, the grid stays all zero and the output is the lattice placements. For Perlin noise, the output is the offsets, classifications and frames. Other strategies keep the noise offsets. |
| Generator.WorldGenerator.CreateWorldFromRandomNumbers | Assets/Scripts/WorldGenerator.cs:107-135 | Every cell becomes the first tile whose running sum covers the draw at its visiting position, or keeps its value when none does. The frames are what the population walk emits for the new grid. |
| Generator.WorldGenerator.CreateWorldFromPrefabs | Assets/Scripts/WorldGenerator.cs:137-164 | The placements are exactly those of the lattice anchors in visiting order, anchor k using draw k. The grid and offsets are not touched, since the method modifies nothing, and nothing is populated. |
| Generator.WorldGenerator.CreateWorldFromPerlinNoise | Assets/Scripts/WorldGenerator.cs:166-222 | The offsets are the first three draws when random noise is on, and unchanged otherwise. Every cell is the classifier's value at those offsets, and the frames are the population walk's. |
| Generator.WorldGenerator.PopulateWorld | Assets/Scripts/WorldGenerator.cs:300-351 | In slow mode the output is the paced frames of the grid's rows, snow included. Otherwise it is all tile events in one frame, followed by the empty frame after the final yield. |

## Left out

- The Unity scene (`GameObject`, `Instantiate`, `Destroy`, transforms, `SetActive`, materials), texture previews (`SetPixel`/`Apply`), input handling, `Start`, `Update` and `DeleteOldWorld` are not modelled. Instantiation is an event in the output.
- Coroutine timing is not modelled. `StartCoroutine` is a direct call and each `WaitForEndOfFrame` closes a frame.
- `float` arithmetic is modelled with exact reals. Rounding in the running sums and in the noise coordinates is not modelled.
- `Random.Range(0, fullProbability)` is an unconstrained draw from the supplied sequence. Its range is a lemma hypothesis, not a requirement.
- `Mathf.PerlinNoise` is an uninterpreted parameter. Its range [0, 1] is a lemma hypothesis.
- `tilePrefabs` is represented only by the indices of `tileProbabilities`. The build loops at WorldGenerator.cs:111 and :256 run to `tilePrefabs.Length` while the table has `tileProbabilities.Length` entries. The model covers only equal lengths, as the tooltip at :22 asks for. A longer `tilePrefabs` makes `tileProbabilities[i]` throw at :113 and :258, and the model does not raise that exception. A shorter one throws nothing: the loops stop early, so the trailing table entries stay 0 and `fullProbability` sums only the first `tilePrefabs.Length` weights. The source then never picks a trailing tile for a draw in [0, fullProbability], whereas the model's table runs over every weight and can pick one. The lookup `tilePrefabs[worldData[x, y, z]]` is likewise not checked against the catalogue.
- Terrain.CalculateWorldDataFromPerlinNoise: requires `biomScale != 0` when biomes are on. With reals a division by zero has no value, whereas `float` would give infinities or NaN (at x = 0 with offset 0 the numerator at :262 is 0, so `biomX` is 0/0).
- `mapWidth`, `mapHeight` and `mapDepth` are `int` fields in the source (:11-15); their `[Range]` limits only the inspector. The model gives them type `nat`, so negative dimensions are not modelled, nor is the OverflowException that `new int[mapWidth, mapHeight, mapDepth]` at :81 raises for them.
- Terrain.HeightValue: `/ (1 / spikyness)` is written as `* spikyness`. The two agree for every non-zero spikyness, and under IEEE arithmetic for a zero one as well.
- Population.TilesPerFrame: `timeToRevealMap * 600` is computed without 32-bit wrap-around. PopulateWorld and the two strategies that populate (random numbers, Perlin noise) require `timeToRevealMap != 0`, because the division runs in both modes. CreateNewWorld requires it only when the strategy is not Prefabs, since the prefab strategy never populates.
- Generator.WorldGenerator.CreateWorldFromPrefabs: builds its table from the prefab catalogue, which is the corrected table of the Findings row. On the two overrun inputs of that row the model therefore places prefabs, or places nothing, where the source throws IndexOutOfRangeException.
- The check `if (isRevealingTheMapSlowly)` at :321 is always true inside the slow branch and is not modelled separately.
- The innermost z loops are modelled as module-level helper methods: RandomRow, NoiseRow, PlacePrefabLine, PlaceAnchor, PlacePrefabPlane and CollectRow. In the immediate walk a row's events are collected and then appended, which gives the same sequence as appending them one by one.
- The width, height and depth fields of a prefab catalogue entry are carried but read by nothing, as in the source.

## Findings

| source | as written | input that shows it | evidently intended | confidence | as-written member | corrected member |
|---|---|---|---|---|---|---|
| Assets/Scripts/WorldGenerator.cs:139-159 | The prefab table is allocated with `tileProbabilities.Length` entries but filled from, and looked up in, `prefabGeneratorTiles`. | Case 1: one tile weight and two catalogue entries with weights 1, 1. Writing table entry 1 is out of range. Case 2: an empty catalogue with one tile weight. Draw 0 matches the zero entry 0, and `prefabGeneratorTiles[0]` is out of range. | A table sized by the prefab catalogue, so a pick always names an existing entry. | not executed | Prefabs.PrefabTableAsWritten, Prefabs.AsWrittenLongCatalogueOverruns, Prefabs.AsWrittenEmptyCatalogueOverruns | Prefabs.PrefabPick, Prefabs.AsWrittenAgreesOtherwise |
