/**
 * The population walk populateWorld, as specification functions over the
 * filled grid: which placement events each cell yields, in which order, and
 * how slow mode cuts them into per-frame batches.
 */
module Population {
  import opened Grid

  /** A request to the presentation layer: a catalogue tile, or the snow prefab. */
  datatype Event = PlaceTile(at: Cell, tile: int) | PlaceSnow(at: Cell)

  /** The events of one cell: a tile for values >= 0, snow for -2 in slow mode only. */
  function CellEvents(a: array3<int>, x: int, y: int, z: int, slow: bool): seq<Event>
    requires 0 <= x < a.Length0 && 0 <= y < a.Length1 && 0 <= z < a.Length2
    reads a
  {
    if a[x, y, z] >= 0 then [PlaceTile(Cell(x, y, z), a[x, y, z])]
    else if slow && a[x, y, z] == -2 then [PlaceSnow(Cell(x, y, z))]
    else []
  }

  /** The events of cells (x, y, 0) .. (x, y, n - 1). */
  function RowEvents(a: array3<int>, x: int, y: int, n: nat, slow: bool): seq<Event>
    requires 0 <= x < a.Length0 && 0 <= y < a.Length1 && n <= a.Length2
    reads a
  {
    if n == 0 then [] else RowEvents(a, x, y, n - 1, slow) + CellEvents(a, x, y, n - 1, slow)
  }

  /** Where the walk stands before row (x, y): every row of planes 0 .. x - 1, then rows (x, 0) .. (x, y - 1). */
  predicate RowPosition(a: array3<int>, x: int, y: int)
  {
    0 <= x <= a.Length0 && 0 <= y <= a.Length1 && (x == a.Length0 ==> y == 0)
  }

  /** The full rows the walk has finished before row (x, y), one event sequence per row. */
  function Rows(a: array3<int>, x: int, y: int, slow: bool): seq<seq<Event>>
    requires RowPosition(a, x, y)
    reads a
    decreases x, y
  {
    if y > 0 then Rows(a, x, y - 1, slow) + [RowEvents(a, x, y - 1, a.Length2, slow)]
    else if x > 0 then Rows(a, x - 1, a.Length1, slow)
    else []
  }

  /** The same rows' events, concatenated. */
  function EventsBefore(a: array3<int>, x: int, y: int, slow: bool): seq<Event>
    requires RowPosition(a, x, y)
    reads a
    decreases x, y
  {
    if y > 0 then EventsBefore(a, x, y - 1, slow) + RowEvents(a, x, y - 1, a.Length2, slow)
    else if x > 0 then EventsBefore(a, x - 1, a.Length1, slow)
    else []
  }

  function Flatten(rows: seq<seq<Event>>): seq<Event>
  {
    if rows == [] then [] else Flatten(rows[..|rows| - 1]) + rows[|rows| - 1]
  }

  /** Every event of the walk, in visiting order. */
  function Events(a: array3<int>, slow: bool): seq<Event>
    reads a
  {
    EventsBefore(a, a.Length0, 0, slow)
  }

  // ---------------------------------------------------------------------
  // Pacing: a counter of finished rows; reaching tilesPerFrame ends a frame.

  /** The batches of finished frames, the events of the current frame, and the row counter. */
  datatype Pacing = Pacing(batches: seq<seq<Event>>, pending: seq<Event>, counter: int)

  function Step(p: Pacing, row: seq<Event>, tilesPerFrame: int): Pacing
  {
    var pending, counter := p.pending + row, p.counter + 1;
    if counter >= tilesPerFrame then Pacing(p.batches + [pending], [], 0)
    else Pacing(p.batches, pending, counter)
  }

  function Paced(rows: seq<seq<Event>>, tilesPerFrame: int): Pacing
  {
    if rows == [] then Pacing([], [], 0)
    else Step(Paced(rows[..|rows| - 1], tilesPerFrame), rows[|rows| - 1], tilesPerFrame)
  }

  /** Pacing one more row is one more Step. */
  lemma PacedSnoc(rows: seq<seq<Event>>, row: seq<Event>, tilesPerFrame: int)
    ensures Paced(rows + [row], tilesPerFrame) == Step(Paced(rows, tilesPerFrame), row, tilesPerFrame)
  {
    assert (rows + [row])[..|rows|] == rows;
  }

  /** What each resumption of the slow walk emits: the yielded frames, then the tail. */
  function Frames(rows: seq<seq<Event>>, tilesPerFrame: int): seq<seq<Event>>
  {
    Paced(rows, tilesPerFrame).batches + [Paced(rows, tilesPerFrame).pending]
  }

  /** Euclidean division of a natural number by a positive one does not go below zero. */
  lemma QuotientNonNegative(n: nat, m: int)
    requires m > 0
    ensures n / m >= 0
  {
  }

  /**
   * C#'s integer division, which rounds toward zero: the remainder is smaller
   * than the divisor in magnitude and takes the sign of the dividend, and the
   * quotient is negative only when the operands' signs differ.
   */
  function TruncDiv(a: int, b: int): (r: int)
    requires b != 0
    ensures var m := (if b < 0 then -b else b); var rem := a - r * b;
              if a >= 0 then 0 <= rem < m else -m < rem <= 0
    ensures (a < 0) == (b < 0) ==> r >= 0
    ensures (a < 0) != (b < 0) ==> r <= 0
  {
    var q := (if a < 0 then -a else a) / (if b < 0 then -b else b);
    QuotientNonNegative(if a < 0 then -a else a, if b < 0 then -b else b);
    if (a < 0) == (b < 0) then q else -q
  }

  /**
   * The pacing rate: cells divided by revealing time times 600, as C#
   * integers. For a positive time it is the largest count of whole
   * `timeToRevealMap * 600` blocks that fit in the grid; for a negative one
   * it is not positive.
   */
  function TilesPerFrame(width: nat, height: nat, depth: nat, timeToRevealMap: int): (r: int)
    requires timeToRevealMap != 0
    ensures timeToRevealMap > 0 ==>
              var cells, b := width * height * depth, timeToRevealMap * 600;
              0 <= r && r * b <= cells < r * b + b
    ensures timeToRevealMap < 0 ==> r <= 0
  {
    var cells: nat := width * height * depth;
    TruncDiv(cells, timeToRevealMap * 600)
  }

  /** How many rows make one frame: tilesPerFrame, or 1 when it is not positive. */
  function Period(tilesPerFrame: int): nat
  {
    if tilesPerFrame <= 0 then 1 else tilesPerFrame
  }

  // ---------------------------------------------------------------------
  // Flattening

  lemma {:induction false} FlattenAppend(r1: seq<seq<Event>>, r2: seq<seq<Event>>)
    ensures Flatten(r1 + r2) == Flatten(r1) + Flatten(r2)
  {
    if r2 == [] {
      assert r1 + r2 == r1;
    } else {
      var init := r2[..|r2| - 1];
      assert (r1 + r2)[..|r1 + r2| - 1] == r1 + init;
      FlattenAppend(r1, init);
    }
  }

  lemma FlattenOne(r: seq<seq<Event>>, row: seq<Event>)
    ensures Flatten(r + [row]) == Flatten(r) + row
  {
    assert (r + [row])[..|r|] == r;
  }

  /** The finished rows concatenate to the events emitted so far. */
  lemma {:induction false} RowsFlatten(a: array3<int>, x: int, y: int, slow: bool)
    requires RowPosition(a, x, y)
    ensures Flatten(Rows(a, x, y, slow)) == EventsBefore(a, x, y, slow)
    decreases x, y
  {
    if y > 0 {
      RowsFlatten(a, x, y - 1, slow);
      FlattenOne(Rows(a, x, y - 1, slow), RowEvents(a, x, y - 1, a.Length2, slow));
    } else if x > 0 {
      RowsFlatten(a, x - 1, a.Length1, slow);
    }
  }

  // ---------------------------------------------------------------------
  // Which events are emitted

  /** The event a cell of the grid justifies. */
  ghost predicate Justified(a: array3<int>, e: Event, slow: bool)
    reads a
  {
    && InBounds(e.at, a.Length0, a.Length1, a.Length2)
    && match e
       case PlaceTile(c, t) => t >= 0 && a[c.x, c.y, c.z] == t
       case PlaceSnow(c) => slow && a[c.x, c.y, c.z] == -2
  }

  /** Cell c lies in a row the walk finishes before row (x, y). */
  predicate Earlier(c: Cell, x: int, y: int)
  {
    c.x < x || (c.x == x && c.y < y)
  }

  lemma {:induction false} RowMembers(a: array3<int>, x: int, y: int, n: nat, slow: bool, e: Event)
    requires 0 <= x < a.Length0 && 0 <= y < a.Length1 && n <= a.Length2
    ensures e in RowEvents(a, x, y, n, slow) <==>
            Justified(a, e, slow) && e.at.x == x && e.at.y == y && e.at.z < n
  {
    if n > 0 {
      RowMembers(a, x, y, n - 1, slow, e);
    }
  }

  lemma {:induction false} EventsBeforeMembers(a: array3<int>, x: int, y: int, slow: bool, e: Event)
    requires RowPosition(a, x, y)
    ensures e in EventsBefore(a, x, y, slow) <==> Justified(a, e, slow) && Earlier(e.at, x, y)
    decreases x, y
  {
    if y > 0 {
      EventsBeforeMembers(a, x, y - 1, slow, e);
      RowMembers(a, x, y - 1, a.Length2, slow, e);
    } else if x > 0 {
      EventsBeforeMembers(a, x - 1, a.Length1, slow, e);
    }
  }

  /**
   * The walk emits exactly the justified events: a tile event for each cell
   * holding a value >= 0, a snow event for each -2 cell in slow mode only,
   * and nothing else (so a -1 cell never emits).
   */
  lemma EventsAreJustified(a: array3<int>, slow: bool, e: Event)
    ensures e in Events(a, slow) <==> Justified(a, e, slow)
  {
    EventsBeforeMembers(a, a.Length0, 0, slow, e);
  }

  // ---------------------------------------------------------------------
  // Order

  /** The cells of a sequence of events, in order. */
  function Positions(s: seq<Event>): (r: seq<Cell>)
    ensures |r| == |s| && forall i :: 0 <= i < |s| ==> r[i] == s[i].at
  {
    seq(|s|, i requires 0 <= i < |s| => s[i].at)
  }

  /** Events in strictly ascending visiting order of their cells. */
  ghost predicate Ascending(s: seq<Event>)
  {
    Increasing(Positions(s))
  }

  lemma AscendingConcat(s: seq<Event>, t: seq<Event>)
    requires Ascending(s) && Ascending(t)
    requires forall e, f :: e in s && f in t ==> Before(e.at, f.at)
    ensures Ascending(s + t)
  {
    assert Positions(s + t) == Positions(s) + Positions(t);
    forall a, b | a in Positions(s) && b in Positions(t)
      ensures Before(a, b)
    {
      var i :| 0 <= i < |s| && Positions(s)[i] == a;
      var j :| 0 <= j < |t| && Positions(t)[j] == b;
      assert s[i] in s && t[j] in t;
    }
    IncreasingConcat(Positions(s), Positions(t));
  }

  /** Every event of s is at a cell of row (x, y) below depth n. */
  ghost predicate InRow(s: seq<Event>, x: int, y: int, n: int)
  {
    forall e :: e in s ==> e.at.x == x && e.at.y == y && 0 <= e.at.z < n
  }

  /** Every event of s is at a cell of a row the walk finishes before row (x, y). */
  ghost predicate AllEarlier(s: seq<Event>, x: int, y: int)
  {
    forall e :: e in s ==> Earlier(e.at, x, y)
  }

  lemma {:induction false} RowInside(a: array3<int>, x: int, y: int, n: nat, slow: bool)
    requires 0 <= x < a.Length0 && 0 <= y < a.Length1 && n <= a.Length2
    ensures InRow(RowEvents(a, x, y, n, slow), x, y, n)
  {
    if n > 0 {
      RowInside(a, x, y, n - 1, slow);
    }
  }

  lemma {:induction false} EventsBeforeInside(a: array3<int>, x: int, y: int, slow: bool)
    requires RowPosition(a, x, y)
    ensures AllEarlier(EventsBefore(a, x, y, slow), x, y)
    decreases x, y
  {
    if y > 0 {
      var init, row := EventsBefore(a, x, y - 1, slow), RowEvents(a, x, y - 1, a.Length2, slow);
      EventsBeforeInside(a, x, y - 1, slow);
      RowInside(a, x, y - 1, a.Length2, slow);
      forall e: Event | e in init + row
        ensures Earlier(e.at, x, y)
      {
        if e in init {
          assert Earlier(e.at, x, y - 1);
        } else {
          assert e in row;
        }
      }
    } else if x > 0 {
      EventsBeforeInside(a, x - 1, a.Length1, slow);
    }
  }

  /** An ascending walk over earlier rows, followed by an ascending row (x, y), stays ascending. */
  lemma AscendingRowAppend(s: seq<Event>, t: seq<Event>, x: int, y: int, n: int)
    requires Ascending(s) && Ascending(t)
    requires AllEarlier(s, x, y) && InRow(t, x, y, n)
    ensures Ascending(s + t)
  {
    assert forall e, f :: e in s && f in t ==> Before(e.at, f.at);
    AscendingConcat(s, t);
  }

  lemma {:induction false} RowAscending(a: array3<int>, x: int, y: int, n: nat, slow: bool)
    requires 0 <= x < a.Length0 && 0 <= y < a.Length1 && n <= a.Length2
    ensures Ascending(RowEvents(a, x, y, n, slow))
  {
    if n > 0 {
      var init, cell := RowEvents(a, x, y, n - 1, slow), CellEvents(a, x, y, n - 1, slow);
      RowAscending(a, x, y, n - 1, slow);
      RowInside(a, x, y, n - 1, slow);
      assert forall f :: f in cell ==> f.at == Cell(x, y, n - 1);
      AscendingConcat(init, cell);
    }
  }

  lemma {:induction false} EventsBeforeAscending(a: array3<int>, x: int, y: int, slow: bool)
    requires RowPosition(a, x, y)
    ensures Ascending(EventsBefore(a, x, y, slow))
    decreases x, y
  {
    if y > 0 {
      var init, row := EventsBefore(a, x, y - 1, slow), RowEvents(a, x, y - 1, a.Length2, slow);
      EventsBeforeAscending(a, x, y - 1, slow);
      RowAscending(a, x, y - 1, a.Length2, slow);
      EventsBeforeInside(a, x, y - 1, slow);
      RowInside(a, x, y - 1, a.Length2, slow);
      AscendingRowAppend(init, row, x, y - 1, a.Length2);
    } else if x > 0 {
      EventsBeforeAscending(a, x - 1, a.Length1, slow);
    }
  }

  /** Events come out in strictly ascending (x, y, z) order, so no cell emits twice. */
  lemma EventsAscending(a: array3<int>, slow: bool)
    ensures Ascending(Events(a, slow))
  {
    EventsBeforeAscending(a, a.Length0, 0, slow);
  }

  // ---------------------------------------------------------------------
  // Slow mode emits the immediate events plus the snow events

  function WithoutSnow(s: seq<Event>): seq<Event>
  {
    if s == [] then []
    else WithoutSnow(s[..|s| - 1]) + (if s[|s| - 1].PlaceSnow? then [] else [s[|s| - 1]])
  }

  lemma {:induction false} WithoutSnowMembers(s: seq<Event>, e: Event)
    ensures e in WithoutSnow(s) <==> e in s && e.PlaceTile?
  {
    if s != [] {
      assert s == s[..|s| - 1] + [s[|s| - 1]];
      WithoutSnowMembers(s[..|s| - 1], e);
    }
  }

  lemma {:induction false} WithoutSnowAscending(s: seq<Event>)
    requires Ascending(s)
    ensures Ascending(WithoutSnow(s))
  {
    if s != [] {
      var init, last := s[..|s| - 1], s[|s| - 1];
      WithoutSnowAscending(init);
      var kept := if last.PlaceSnow? then [] else [last];
      forall e, f | e in WithoutSnow(init) && f in kept
        ensures Before(e.at, f.at)
      {
        WithoutSnowMembers(init, e);
        var i :| 0 <= i < |init| && init[i] == e;
        assert s[i] == e && s[|s| - 1] == f;
      }
      AscendingConcat(WithoutSnow(init), kept);
    }
  }

  /** Strictly ascending sequences with the same members are equal. */
  lemma {:induction false} AscendingUnique(s: seq<Event>, t: seq<Event>)
    requires Ascending(s) && Ascending(t)
    requires forall e :: e in s <==> e in t
    ensures s == t
    decreases |s|
  {
    if t != [] {
      assert t[|t| - 1] in t;
    }
    if s != [] {
      assert s[|s| - 1] in t;
      var lastS, lastT := s[|s| - 1], t[|t| - 1];
      assert lastT in s;
      LastIsGreatest(s, lastT);
      LastIsGreatest(t, lastS);
      assert lastS == lastT;
      var s', t' := s[..|s| - 1], t[..|t| - 1];
      forall e
        ensures e in s' <==> e in t'
      {
        DropLast(s, e);
        DropLast(t, e);
      }
      AscendingUnique(s', t');
      assert s == s' + [lastS] && t == t' + [lastT];
    }
  }

  /** In an ascending sequence every member other than the last one comes before it. */
  lemma LastIsGreatest(s: seq<Event>, e: Event)
    requires Ascending(s) && e in s
    ensures e == s[|s| - 1] || Before(e.at, s[|s| - 1].at)
  {
  }

  /** Dropping the last element of an ascending sequence removes exactly that element. */
  lemma DropLast(s: seq<Event>, e: Event)
    requires Ascending(s) && s != []
    ensures e in s[..|s| - 1] <==> e in s && e != s[|s| - 1]
  {
    if e in s && e != s[|s| - 1] {
      var i :| 0 <= i < |s| && s[i] == e;
      assert s[..|s| - 1][i] == e;
    }
    if e in s[..|s| - 1] {
      var i :| 0 <= i < |s| - 1 && s[..|s| - 1][i] == e;
      assert Before(s[i].at, s[|s| - 1].at);
    }
  }

  /** Dropping the snow events from the slow walk gives exactly the immediate walk. */
  lemma SlowEventsWithoutSnowAreImmediate(a: array3<int>)
    ensures WithoutSnow(Events(a, true)) == Events(a, false)
  {
    EventsAscending(a, true);
    EventsAscending(a, false);
    WithoutSnowAscending(Events(a, true));
    forall e
      ensures e in WithoutSnow(Events(a, true)) <==> e in Events(a, false)
    {
      WithoutSnowMembers(Events(a, true), e);
      EventsAreJustified(a, true, e);
      EventsAreJustified(a, false, e);
    }
    AscendingUnique(WithoutSnow(Events(a, true)), Events(a, false));
  }

  // ---------------------------------------------------------------------
  // Properties of pacing

  /**
   * Frames lose and reorder nothing: the finished batches followed by the
   * current frame are exactly the rows' events, in order.
   */
  lemma {:induction false} PacedKeepsEvents(rows: seq<seq<Event>>, tilesPerFrame: int)
    ensures Flatten(Paced(rows, tilesPerFrame).batches) + Paced(rows, tilesPerFrame).pending == Flatten(rows)
  {
    if rows != [] {
      var init, row := rows[..|rows| - 1], rows[|rows| - 1];
      var p := Paced(init, tilesPerFrame);
      var q := Paced(rows, tilesPerFrame);
      assert q == Step(p, row, tilesPerFrame);
      assert rows == init + [row];
      PacedKeepsEvents(init, tilesPerFrame);
      FlattenOne(init, row);
      assert Flatten(rows) == Flatten(p.batches) + p.pending + row;
      if p.counter + 1 >= tilesPerFrame {
        FlattenOne(p.batches, p.pending + row);
        assert q.batches == p.batches + [p.pending + row] && q.pending == [];
      } else {
        assert q.batches == p.batches && q.pending == p.pending + row;
      }
    }
  }

  lemma FramesKeepEvents(rows: seq<seq<Event>>, tilesPerFrame: int)
    ensures Flatten(Frames(rows, tilesPerFrame)) == Flatten(rows)
  {
    var p := Paced(rows, tilesPerFrame);
    FlattenOne(p.batches, p.pending);
    PacedKeepsEvents(rows, tilesPerFrame);
  }

  /** Every finished frame used up Period(tilesPerFrame) rows; fewer than that are pending. */
  lemma {:induction false} PacedCount(rows: seq<seq<Event>>, tilesPerFrame: int)
    ensures var p, n := Paced(rows, tilesPerFrame), Period(tilesPerFrame);
            |rows| == |p.batches| * n + p.counter && 0 <= p.counter < n
  {
    if rows != [] {
      var p := Paced(rows[..|rows| - 1], tilesPerFrame);
      assert Paced(rows, tilesPerFrame) == Step(p, rows[|rows| - 1], tilesPerFrame);
      PacedCount(rows[..|rows| - 1], tilesPerFrame);
      var n := Period(tilesPerFrame);
      MulStep(|p.batches|, 1, n);
    }
  }

  /** The current frame holds the events of the rows after the last finished frame. */
  lemma {:induction false} PacedPending(rows: seq<seq<Event>>, tilesPerFrame: int)
    ensures var p, n := Paced(rows, tilesPerFrame), Period(tilesPerFrame);
            |p.batches| * n <= |rows| && p.pending == Flatten(rows[|p.batches| * n..])
  {
    PacedCount(rows, tilesPerFrame);
    if rows == [] {
      assert rows[0..] == [];
    } else {
      var init, row := rows[..|rows| - 1], rows[|rows| - 1];
      var p := Paced(init, tilesPerFrame);
      var q := Paced(rows, tilesPerFrame);
      assert q == Step(p, row, tilesPerFrame);
      PacedPending(init, tilesPerFrame);
      var n := Period(tilesPerFrame);
      var start := |p.batches| * n;
      if p.counter + 1 >= tilesPerFrame {
        assert |q.batches| * n == |rows| by {
          PacedCount(init, tilesPerFrame);
          MulStep(|p.batches|, 1, n);
        }
        assert rows[|rows|..] == [];
      } else {
        assert rows[start..] == init[start..] + [row];
        FlattenOne(init[start..], row);
      }
    }
  }

  /** The events of rows i*n .. (i+1)*n - 1, when they exist. */
  function Window(rows: seq<seq<Event>>, i: int, n: nat): seq<Event>
  {
    if 0 <= i * n <= (i + 1) * n <= |rows| then Flatten(rows[i * n..(i + 1) * n]) else []
  }

  /**
   * Every finished frame holds exactly Period(tilesPerFrame) rows: the i-th
   * frame is the events of rows i*P .. (i+1)*P - 1.
   */
  lemma {:induction false} PacedBatches(rows: seq<seq<Event>>, tilesPerFrame: int)
    ensures var p, n := Paced(rows, tilesPerFrame), Period(tilesPerFrame);
            forall i :: 0 <= i < |p.batches| ==> p.batches[i] == Window(rows, i, n)
  {
    var n := Period(tilesPerFrame);
    if rows != [] {
      var init, row := rows[..|rows| - 1], rows[|rows| - 1];
      var p := Paced(init, tilesPerFrame);
      var q := Paced(rows, tilesPerFrame);
      assert q == Step(p, row, tilesPerFrame);
      assert rows == init + [row];
      PacedBatches(init, tilesPerFrame);
      PacedCount(init, tilesPerFrame);
      var b := |p.batches|;
      forall i | 0 <= i < b
        ensures Window(rows, i, n) == Window(init, i, n)
      {
        WindowExtend(init, row, i, b, n);
      }
      if p.counter + 1 >= tilesPerFrame {
        PacedPending(init, tilesPerFrame);
        WindowLast(init, row, b, n);
        assert q.batches == p.batches + [p.pending + row];
      }
    }
  }

  lemma WindowExtend(init: seq<seq<Event>>, row: seq<Event>, i: int, b: nat, n: nat)
    requires 0 <= i < b && b * n <= |init|
    ensures Window(init + [row], i, n) == Window(init, i, n)
  {
    PeriodBound(i, b, n);
    assert (init + [row])[i * n..(i + 1) * n] == init[i * n..(i + 1) * n];
  }

  lemma WindowLast(init: seq<seq<Event>>, row: seq<Event>, b: nat, n: nat)
    requires |init| + 1 == b * n + n
    ensures Window(init + [row], b, n) == Flatten(init[b * n..]) + row
  {
    MulStep(b, 1, n);
    assert (init + [row])[b * n..(b + 1) * n] == init[b * n..] + [row];
    FlattenOne(init[b * n..], row);
  }

  lemma PeriodBound(i: int, b: int, n: nat)
    requires 0 <= i < b
    ensures 0 <= i * n && (i + 1) * n <= b * n
  {
    MulNonNegative(i, n);
    MulStep(i + 1, b - i - 1, n);
    MulNonNegative(b - i - 1, n);
  }

  /** 100 cells revealed over one second give tilesPerFrame 0: a yield after every row. */
  lemma SmallMapYieldsEveryRow()
    ensures TilesPerFrame(10, 1, 10, 1) == 0
    ensures Period(TilesPerFrame(10, 1, 10, 1)) == 1
  {
  }
}
