/**
 * CreateWorldFromPrefabs as specification functions: the coarse lattice of
 * anchor cells (every 10th x, every 5th y, every 10th z), one weighted draw
 * per anchor, and the catalogue entry each draw picks. The table the source
 * builds is sized by the wrong array; it is modelled as written beside the
 * corrected table that the generator uses.
 */
module Prefabs {
  import opened Selection
  import opened Grid
  import opened Config

  /** How many of 0, s, 2s, ... lie below n. */
  function Steps(n: int, s: nat): nat
    requires s > 0
    decreases n
  {
    if n <= 0 then 0 else 1 + Steps(n - s, s)
  }

  /** A loop `for (v = 0; v < n; v += s)` runs once for each of the first Steps(n, s) multiples of s. */
  lemma {:induction false} StepsBound(n: int, s: nat, i: nat)
    requires s > 0
    ensures s * i < n <==> i < Steps(n, s)
    decreases i
  {
    if i > 0 && n > 0 {
      StepsBound(n - s, s, i - 1);
      MulStep(i - 1, 1, s);
    } else if i > 0 {
      MulNonNegative(i, s);
    }
  }

  /** The anchors (x, y, 0), (x, y, 10), ... of one z line, k of them. */
  function ZCells(x: int, y: int, k: nat): (r: seq<Cell>)
    ensures |r| == k
  {
    if k == 0 then [] else ZCells(x, y, k - 1) + [Cell(x, y, 10 * (k - 1))]
  }

  /**
   * The anchors visited before z line j of plane i (planes at x = 10 i, lines
   * at y = 5 j), for a grid of height h and depth d.
   */
  function LatticeBefore(h: nat, d: nat, i: nat, j: nat): seq<Cell>
    decreases i, j
  {
    if j > 0 then LatticeBefore(h, d, i, j - 1) + ZCells(10 * i, 5 * (j - 1), Steps(d, 10))
    else if i > 0 then LatticeBefore(h, d, i - 1, Steps(h, 5))
    else []
  }

  /** All anchors of a width x height x depth grid, in visiting order. */
  function Lattice(w: nat, h: nat, d: nat): seq<Cell>
  {
    LatticeBefore(h, d, Steps(w, 10), 0)
  }

  /** What one draw does against a prefab catalogue's weights. */
  datatype Pick = Picked(index: nat) | NoPick | OutOfRange

  /** One instantiated prefab: its anchor, its catalogue index and the prefab it spawns. */
  datatype Placement = Placement(at: Cell, index: nat, prefab: nat)

  /** The choice against a table sized by the catalogue: never out of range. */
  function PrefabPick(r: real, probs: seq<real>): (o: Pick)
    ensures o != OutOfRange
    ensures o.Picked? ==> o.index < |probs| && r <= Cumulative(probs)[o.index]
    ensures o.Picked? ==> forall j :: 0 <= j < o.index ==> Cumulative(probs)[j] < r
    ensures o == NoPick <==> forall j :: 0 <= j < |probs| ==> Cumulative(probs)[j] < r
  {
    match Choose(r, Cumulative(probs))
    case Some(i) => Picked(i)
    case None => NoPick
  }

  /** The placement an anchor gets from its draw: one prefab, or none when nothing covers the draw. */
  function PlaceOne(c: Cell, r: real, tiles: seq<PrefabTile>): seq<Placement>
  {
    match PrefabPick(r, PrefabProbabilities(tiles))
    case Picked(i) => [Placement(c, i, tiles[i].prefab)]
    case _ => []
  }

  /** The placements of anchors cells[0 ..], anchor k using draws[k]. */
  function PlaceAll(cells: seq<Cell>, draws: seq<real>, tiles: seq<PrefabTile>): seq<Placement>
    requires |cells| <= |draws|
  {
    if cells == [] then []
    else PlaceAll(cells[..|cells| - 1], draws, tiles) + PlaceOne(cells[|cells| - 1], draws[|cells| - 1], tiles)
  }

  // ---------------------------------------------------------------------
  // The lattice

  /** An anchor on the lattice: inside the grid, at a multiple of 10, 5 and 10. */
  predicate OnLattice(c: Cell, w: int, h: int, d: int)
  {
    InBounds(c, w, h, d) && c.x % 10 == 0 && c.y % 5 == 0 && c.z % 10 == 0
  }

  lemma {:induction false} ZCellsMembers(x: int, y: int, k: nat, c: Cell)
    ensures c in ZCells(x, y, k) <==> c.x == x && c.y == y && 0 <= c.z < 10 * k && c.z % 10 == 0
  {
    if k > 0 {
      ZCellsMembers(x, y, k - 1, c);
    }
  }

  /** Where the anchors before line (i, j) lie: earlier planes, or earlier lines of plane i. */
  predicate LatticeEarlier(c: Cell, h: nat, d: nat, i: nat, j: nat)
  {
    && c.y % 5 == 0 && c.z % 10 == 0 && c.x % 10 == 0
    && 0 <= c.x && 0 <= c.y < h && 0 <= c.z < d
    && (c.x < 10 * i || (c.x == 10 * i && c.y < 5 * j))
  }

  lemma {:induction false} LatticeBeforeMembers(h: nat, d: nat, i: nat, j: nat, c: Cell)
    requires j <= Steps(h, 5)
    ensures c in LatticeBefore(h, d, i, j) <==> LatticeEarlier(c, h, d, i, j)
    decreases i, j
  {
    if j > 0 {
      LatticeBeforeMembers(h, d, i, j - 1, c);
      ZCellsMembers(10 * i, 5 * (j - 1), Steps(d, 10), c);
      if c.z >= 0 {
        StepsBound(d, 10, c.z / 10);
      }
      StepsBound(h, 5, j - 1);
    } else if i > 0 {
      LatticeBeforeMembers(h, d, i - 1, Steps(h, 5), c);
      if c.y >= 0 {
        StepsBound(h, 5, c.y / 5);
      }
    }
  }

  /** The anchors are exactly the in-grid cells whose coordinates are multiples of 10, 5 and 10. */
  lemma LatticeMembers(w: nat, h: nat, d: nat, c: Cell)
    ensures c in Lattice(w, h, d) <==> OnLattice(c, w, h, d)
  {
    LatticeBeforeMembers(h, d, Steps(w, 10), 0, c);
    if c.x >= 0 {
      StepsBound(w, 10, c.x / 10);
    }
  }

  lemma {:induction false} ZCellsIncreasing(x: int, y: int, k: nat)
    ensures Increasing(ZCells(x, y, k))
  {
    if k > 0 {
      var init, last := ZCells(x, y, k - 1), Cell(x, y, 10 * (k - 1));
      ZCellsIncreasing(x, y, k - 1);
      forall a | a in init
        ensures Before(a, last)
      {
        ZCellsMembers(x, y, k - 1, a);
      }
      IncreasingConcat(init, [last]);
    }
  }

  lemma {:induction false} LatticeBeforeIncreasing(h: nat, d: nat, i: nat, j: nat)
    requires j <= Steps(h, 5)
    ensures Increasing(LatticeBefore(h, d, i, j))
    decreases i, j
  {
    if j > 0 {
      var init, line := LatticeBefore(h, d, i, j - 1), ZCells(10 * i, 5 * (j - 1), Steps(d, 10));
      LatticeBeforeIncreasing(h, d, i, j - 1);
      ZCellsIncreasing(10 * i, 5 * (j - 1), Steps(d, 10));
      forall a, b | a in init && b in line
        ensures Before(a, b)
      {
        LatticeBeforeMembers(h, d, i, j - 1, a);
        ZCellsMembers(10 * i, 5 * (j - 1), Steps(d, 10), b);
      }
      IncreasingConcat(init, line);
    } else if i > 0 {
      LatticeBeforeIncreasing(h, d, i - 1, Steps(h, 5));
    }
  }

  /** The anchors before line (i, j) are as many as a dense walk over the lattice's counts has visited. */
  lemma {:induction false} LatticeBeforeLength(h: nat, d: nat, i: nat, j: nat)
    requires j <= Steps(h, 5)
    ensures |LatticeBefore(h, d, i, j)| == Linear(Cell(i, j, 0), Steps(h, 5), Steps(d, 10))
    decreases i, j
  {
    var lines, depth := Steps(h, 5), Steps(d, 10);
    if j > 0 {
      LatticeBeforeLength(h, d, i, j - 1);
      LinearRowEnd(i, j - 1, lines, depth);
    } else if i > 0 {
      LatticeBeforeLength(h, d, i - 1, lines);
      LinearPlaneEnd(i - 1, lines, depth);
    }
  }

  /** One anchor per lattice point: Steps(w, 10) * Steps(h, 5) * Steps(d, 10) of them. */
  lemma LatticeSize(w: nat, h: nat, d: nat)
    ensures |Lattice(w, h, d)| == Steps(w, 10) * Steps(h, 5) * Steps(d, 10)
  {
    LatticeBeforeLength(h, d, Steps(w, 10), 0);
  }

  /** A whole z line of plane i still lies before the next plane. */
  lemma LineWithinPlane(h: nat, d: nat, i: nat, j: nat)
    requires j < Steps(h, 5)
    ensures |LatticeBefore(h, d, i, j)| + Steps(d, 10) <= |LatticeBefore(h, d, i + 1, 0)|
  {
    var lines, depth := Steps(h, 5), Steps(d, 10);
    LatticeBeforeLength(h, d, i, j);
    LatticeBeforeLength(h, d, i + 1, 0);
    MulStep(i * lines + j, 1, depth);
    MulStep(i, 1, lines);
    MulStep(i * lines + j + 1, lines - j - 1, depth);
    MulNonNegative(lines - j - 1, depth);
  }

  /** Every plane of the lattice ends within the lattice's anchor count. */
  lemma PlaneWithinLattice(w: nat, h: nat, d: nat, i: nat)
    requires i < Steps(w, 10)
    ensures |LatticeBefore(h, d, i + 1, 0)| <= |Lattice(w, h, d)|
  {
    var planes, lines, depth := Steps(w, 10), Steps(h, 5), Steps(d, 10);
    LatticeBeforeLength(h, d, i + 1, 0);
    LatticeSize(w, h, d);
    MulStep(i + 1, planes - i - 1, lines);
    MulNonNegative(planes - i - 1, lines);
    MulStep((i + 1) * lines, (planes - i - 1) * lines, depth);
    MulNonNegative((planes - i - 1) * lines, depth);
  }

  /** A z line grows by its next anchor. */
  lemma ZCellsExtend(done: seq<Cell>, x: int, y: int, m: nat)
    ensures done + ZCells(x, y, m + 1) == (done + ZCells(x, y, m)) + [Cell(x, y, 10 * m)]
  {
  }

  /** PlaceAll grows one anchor at a time. */
  lemma PlaceAllSnoc(cells: seq<Cell>, c: Cell, draws: seq<real>, tiles: seq<PrefabTile>)
    requires |cells| < |draws|
    ensures PlaceAll(cells + [c], draws, tiles) == PlaceAll(cells, draws, tiles) + PlaceOne(c, draws[|cells|], tiles)
  {
    assert (cells + [c])[..|cells|] == cells;
  }

  /** The anchors are visited in strictly increasing (x, y, z) order, each once. */
  lemma LatticeIncreasing(w: nat, h: nat, d: nat)
    ensures Increasing(Lattice(w, h, d))
  {
    LatticeBeforeIncreasing(h, d, Steps(w, 10), 0);
  }

  // ---------------------------------------------------------------------
  // Placements

  /**
   * Every placement sits on one of the anchors and spawns the prefab of the
   * catalogue entry it names.
   */
  lemma {:induction false} PlacementsAtAnchors(cells: seq<Cell>, draws: seq<real>, tiles: seq<PrefabTile>, p: Placement)
    requires |cells| <= |draws|
    requires p in PlaceAll(cells, draws, tiles)
    ensures p.at in cells && p.index < |tiles| && p.prefab == tiles[p.index].prefab
  {
    var init := cells[..|cells| - 1];
    if p in PlaceAll(init, draws, tiles) {
      PlacementsAtAnchors(init, draws, tiles, p);
      assert p.at in init;
    }
  }

  /**
   * The prefab walk only ever places on lattice anchors, and every placement
   * names an existing catalogue entry.
   */
  lemma PlacementsOnLattice(w: nat, h: nat, d: nat, draws: seq<real>, tiles: seq<PrefabTile>, p: Placement)
    requires |Lattice(w, h, d)| <= |draws|
    requires p in PlaceAll(Lattice(w, h, d), draws, tiles)
    ensures OnLattice(p.at, w, h, d) && p.index < |tiles| && p.prefab == tiles[p.index].prefab
  {
    PlacementsAtAnchors(Lattice(w, h, d), draws, tiles, p);
    LatticeMembers(w, h, d, p.at);
  }

  /**
   * With a non-empty catalogue of non-negative weights and every draw in
   * [0, total weight], each anchor gets exactly one prefab: placement k sits
   * on anchor k.
   */
  lemma {:induction false} EveryAnchorPlaced(cells: seq<Cell>, draws: seq<real>, tiles: seq<PrefabTile>)
    requires |cells| <= |draws|
    requires |tiles| > 0 && NonNegative(PrefabProbabilities(tiles))
    requires forall k :: 0 <= k < |draws| ==> 0.0 <= draws[k] <= Sum(PrefabProbabilities(tiles))
    ensures |PlaceAll(cells, draws, tiles)| == |cells|
    ensures forall k :: 0 <= k < |cells| ==> PlaceAll(cells, draws, tiles)[k].at == cells[k]
  {
    if cells != [] {
      var n := |cells| - 1;
      var probs := PrefabProbabilities(tiles);
      EveryAnchorPlaced(cells[..n], draws, tiles);
      InRangeDrawMatches(probs, draws[n]);
      var one := PlaceOne(cells[n], draws[n], tiles);
      assert |one| == 1 && one[0].at == cells[n];
    }
  }

  // ---------------------------------------------------------------------
  // The table as written: sized by tileProbabilities, filled from the prefab catalogue

  function Zeros(n: nat): seq<real>
  {
    seq(n, _ => 0.0)
  }

  /**
   * The running-sum table CreateWorldFromPrefabs builds: an array of
   * tableLength zeros whose first |probs| entries are overwritten with the
   * running sums of the catalogue weights; None when the catalogue is longer
   * than the array and the fill loop writes past its end.
   */
  function PrefabTableAsWritten(probs: seq<real>, tableLength: nat): (t: Option<seq<real>>)
    ensures t.None? <==> |probs| > tableLength
    ensures t.Some? ==> |t.value| == tableLength && t.value[..|probs|] == Cumulative(probs)
    ensures t.Some? ==> forall k :: |probs| <= k < tableLength ==> t.value[k] == 0.0
  {
    if |probs| > tableLength then None
    else Some(Cumulative(probs) + Zeros(tableLength - |probs|))
  }

  /** The as-written choice: the selection loop runs over the whole table and indexes the catalogue with it. */
  function PrefabPickAsWritten(r: real, probs: seq<real>, tableLength: nat): Pick
  {
    match PrefabTableAsWritten(probs, tableLength)
    case None => OutOfRange
    case Some(t) =>
      match Choose(r, t)
      case Some(i) => if i < |probs| then Picked(i) else OutOfRange
      case None => NoPick
  }

  /** Two catalogue entries with a single tile weight: the fill loop overruns the table on every call. */
  lemma AsWrittenLongCatalogueOverruns(r: real)
    ensures PrefabPickAsWritten(r, [1.0, 1.0], 1) == OutOfRange
    ensures PrefabPick(r, [1.0, 1.0]) != OutOfRange
  {
  }

  /**
   * An empty catalogue with a non-empty tile weight array: the total is 0,
   * the draw is 0, the zero entry 0 covers it and the catalogue is indexed
   * at 0. The corrected table is empty and picks nothing.
   */
  lemma AsWrittenEmptyCatalogueOverruns(tableLength: nat)
    requires tableLength > 0
    ensures PrefabPickAsWritten(0.0, [], tableLength) == OutOfRange
    ensures PrefabPick(0.0, []) == NoPick
  {
    var t := PrefabTableAsWritten([], tableLength);
    assert t.Some? && t.value[0] == 0.0;
    var o := Choose(0.0, t.value);
    assert o.Some?;
    assert o.value == 0;
  }

  /**
   * Where the as-written table does not overrun (the catalogue is not longer
   * than the weight array, not empty, with non-negative weights and an
   * in-range draw) it picks what the corrected table picks: the trailing
   * zeros are never reached.
   */
  lemma AsWrittenAgreesOtherwise(r: real, probs: seq<real>, tableLength: nat)
    requires |probs| <= tableLength
    requires |probs| > 0 && NonNegative(probs)
    requires 0.0 <= r <= Sum(probs)
    ensures PrefabPickAsWritten(r, probs, tableLength) == PrefabPick(r, probs)
  {
    var t := PrefabTableAsWritten(probs, tableLength).value;
    InRangeDrawMatches(probs, r);
    ChoosePrefix(r, Cumulative(probs), Zeros(tableLength - |probs|));
    assert t == Cumulative(probs) + Zeros(tableLength - |probs|);
  }
}
