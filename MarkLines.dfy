/** The line-feature editor: a vertex buffer of image points and an index
    buffer of segments between them, edited by mouse events and loaded from
    and saved to a line file of `ax ay bx by` rows. */
module MarkLines {
  import opened LineFiles

  /** A segment: the indices of its start and end vertex in the vertex buffer. */
  type Segment = (int, int)

  /** The two buffers of the editor, as a value. */
  datatype Buffers = Buffers(vertices: seq<Point>, segments: seq<Segment>)

  /** Every segment refers to a vertex index below `n`. */
  predicate SegmentsValid(segments: seq<Segment>, n: int) {
    forall k :: 0 <= k < |segments| ==> 0 <= segments[k].0 < n && 0 <= segments[k].1 < n
  }

  predicate BuffersValid(b: Buffers) {
    SegmentsValid(b.segments, |b.vertices|)
  }

  // ---------------------------------------------------------------------------
  // search_point and search_lines

  /** search_point: the first vertex inside the closed box, or -1. */
  method SearchPoint(ptList: seq<Point>, x: real, y: real, radius: real) returns (index: int)
    ensures index == FirstInBox(ptList, x, y, radius)
    ensures index == -1 <==> forall i :: 0 <= i < |ptList| ==> !InBox(ptList[i], x, y, radius)
    ensures index != -1 ==> 0 <= index < |ptList| && InBox(ptList[index], x, y, radius)
    ensures forall j :: 0 <= j < index ==> !InBox(ptList[j], x, y, radius)
  {
    for i := 0 to |ptList|
      invariant forall j :: 0 <= j < i ==> !InBox(ptList[j], x, y, radius)
    {
      if InBox(ptList[i], x, y, radius) {
        return i;
      }
    }
    return -1;
  }

  predicate Touches(s: Segment, ptIndex: int) {
    s.0 == ptIndex || s.1 == ptIndex
  }

  /** The indices below `n` of all segments that start or end at `ptIndex`, ascending. */
  function AdjacentLines(lines: seq<Segment>, ptIndex: int, n: nat): (r: seq<int>)
    requires n <= |lines|
    ensures forall k :: 0 <= k < |r| ==> 0 <= r[k] < n && Touches(lines[r[k]], ptIndex)
    ensures forall k, m :: 0 <= k < m < |r| ==> r[k] < r[m]
    decreases n
  {
    if n == 0 then []
    else AdjacentLines(lines, ptIndex, n - 1) + (if Touches(lines[n - 1], ptIndex) then [n - 1] else [])
  }

  /** No adjacent segment below `n` is missed. */
  lemma {:induction false} AdjacentLinesComplete(lines: seq<Segment>, ptIndex: int, n: nat, i: int)
    requires n <= |lines|
    requires 0 <= i < n && Touches(lines[i], ptIndex)
    ensures i in AdjacentLines(lines, ptIndex, n)
  {
    var init := AdjacentLines(lines, ptIndex, n - 1);
    var tail := if Touches(lines[n - 1], ptIndex) then [n - 1] else [];
    assert AdjacentLines(lines, ptIndex, n) == init + tail;
    if i < n - 1 {
      AdjacentLinesComplete(lines, ptIndex, n - 1, i);
      var k :| 0 <= k < |init| && init[k] == i;
      assert (init + tail)[k] == i;
    } else {
      assert (init + tail)[|init|] == i;
    }
  }

  /** The number of segments at a vertex. */
  function Degree(lines: seq<Segment>, ptIndex: int): nat {
    |AdjacentLines(lines, ptIndex, |lines|)|
  }

  /** What search_lines returns: the first two adjacent segments, or all of them when there are fewer. */
  function FirstTwoAdjacent(lines: seq<Segment>, ptIndex: int): seq<int> {
    var all := AdjacentLines(lines, ptIndex, |lines|);
    if |all| <= 2 then all else all[..2]
  }

  /** Scanning further never reorders or drops what a shorter scan found. */
  lemma {:induction false} AdjacentLinesPrefix(lines: seq<Segment>, ptIndex: int, m: nat, n: nat)
    requires m <= n <= |lines|
    ensures |AdjacentLines(lines, ptIndex, m)| <= |AdjacentLines(lines, ptIndex, n)|
    ensures AdjacentLines(lines, ptIndex, m) == AdjacentLines(lines, ptIndex, n)[..|AdjacentLines(lines, ptIndex, m)|]
    decreases n - m
  {
    if m < n {
      AdjacentLinesPrefix(lines, ptIndex, m, n - 1);
      var a, b := AdjacentLines(lines, ptIndex, m), AdjacentLines(lines, ptIndex, n - 1);
      assert AdjacentLines(lines, ptIndex, n)[..|b|] == b;
      assert b[..|a|] == a;
    }
  }

  /** The first two of an ascending list of adjacent segments keep both properties. */
  lemma FirstTwoShape(lines: seq<Segment>, ptIndex: int)
    ensures var r := FirstTwoAdjacent(lines, ptIndex);
      |r| == (if Degree(lines, ptIndex) < 2 then Degree(lines, ptIndex) else 2) &&
      (forall k :: 0 <= k < |r| ==> 0 <= r[k] < |lines| && Touches(lines[r[k]], ptIndex)) &&
      (forall k, m :: 0 <= k < m < |r| ==> r[k] < r[m])
  {
    var all := AdjacentLines(lines, ptIndex, |lines|);
    var r := FirstTwoAdjacent(lines, ptIndex);
    assert forall k :: 0 <= k < |r| ==> r[k] == all[k];
  }

  /** search_lines returns the first two adjacent segments in ascending order (all of them when
      there are fewer than two), so any adjacent segment it leaves out comes after both. */
  lemma FirstTwoAdjacentSpec(lines: seq<Segment>, ptIndex: int)
    ensures var r := FirstTwoAdjacent(lines, ptIndex);
      |r| == (if Degree(lines, ptIndex) < 2 then Degree(lines, ptIndex) else 2) &&
      (forall k :: 0 <= k < |r| ==> 0 <= r[k] < |lines| && Touches(lines[r[k]], ptIndex)) &&
      (forall k, m :: 0 <= k < m < |r| ==> r[k] < r[m]) &&
      (forall i :: 0 <= i < |lines| && Touches(lines[i], ptIndex) && i !in r ==> |r| == 2 && r[1] < i)
  {
    FirstTwoShape(lines, ptIndex);
    var all := AdjacentLines(lines, ptIndex, |lines|);
    var r := FirstTwoAdjacent(lines, ptIndex);
    forall i | 0 <= i < |lines| && Touches(lines[i], ptIndex) && i !in r
      ensures |r| == 2 && r[1] < i
    {
      AdjacentLinesComplete(lines, ptIndex, |lines|, i);
      var k :| 0 <= k < |all| && all[k] == i;
      assert k >= 2;
      assert r[1] == all[1] < all[k];
    }
  }

  /** Once a scan of the first `n` segments has found two, the rest cannot change the answer. */
  lemma FirstTwoFound(lines: seq<Segment>, ptIndex: int, n: nat)
    requires n <= |lines| && |AdjacentLines(lines, ptIndex, n)| == 2
    ensures FirstTwoAdjacent(lines, ptIndex) == AdjacentLines(lines, ptIndex, n)
  {
    AdjacentLinesPrefix(lines, ptIndex, n, |lines|);
  }

  /** search_lines: the segments adjacent to `ptIndex`, stopping after the second one. */
  method SearchLines(lineList: seq<Segment>, ptIndex: int) returns (adjacentLines: seq<int>)
    ensures adjacentLines == FirstTwoAdjacent(lineList, ptIndex)
  {
    adjacentLines := [];
    for i := 0 to |lineList|
      invariant adjacentLines == AdjacentLines(lineList, ptIndex, i)
      invariant |adjacentLines| < 2
    {
      assert AdjacentLines(lineList, ptIndex, i + 1) ==
        AdjacentLines(lineList, ptIndex, i) + (if Touches(lineList[i], ptIndex) then [i] else []);
      if Touches(lineList[i], ptIndex) {
        adjacentLines := adjacentLines + [i];
      }
      if |adjacentLines| >= 2 {
        FirstTwoFound(lineList, ptIndex, i + 1);
        return;
      }
    }
  }

  // ---------------------------------------------------------------------------
  // Deleting the segments found by search_lines

  /** The elements of `s` whose index is not listed in `drop`, in their original order. */
  function Keep<T>(s: seq<T>, drop: seq<int>): (r: seq<T>)
    ensures |r| <= |s|
  {
    if |s| == 0 then []
    else Keep(s[..|s| - 1], drop) + (if |s| - 1 in drop then [] else [s[|s| - 1]])
  }

  /** Deleting never brings in an element that was not there. */
  lemma {:induction false} KeepFrom<T>(s: seq<T>, drop: seq<int>)
    ensures forall k :: 0 <= k < |Keep(s, drop)| ==> Keep(s, drop)[k] in s
  {
    if |s| > 0 {
      var init := s[..|s| - 1];
      KeepFrom(init, drop);
      var k0 := Keep(init, drop);
      var tail := if |s| - 1 in drop then [] else [s[|s| - 1]];
      assert Keep(s, drop) == k0 + tail;
      forall k | 0 <= k < |k0 + tail| ensures (k0 + tail)[k] in s {
        if k < |k0| {
          var j :| 0 <= j < |init| && init[j] == k0[k];
          assert s[j] == k0[k];
        } else {
          assert (k0 + tail)[k] == s[|s| - 1];
        }
      }
    }
  }

  lemma {:induction false} KeepNothing<T>(s: seq<T>, drop: seq<int>)
    requires forall i :: 0 <= i < |s| ==> i !in drop
    ensures Keep(s, drop) == s
  {
    if |s| > 0 {
      KeepNothing(s[..|s| - 1], drop);
      assert s[..|s| - 1] + [s[|s| - 1]] == s;
    }
  }

  lemma DeleteAtAppend<T>(k: seq<T>, tail: seq<T>, a: int)
    requires 0 <= a < |k|
    ensures DeleteAt(k + tail, a) == DeleteAt(k, a) + tail
  {
    assert (k + tail)[..a] == k[..a];
    assert (k + tail)[a + 1..] == k[a + 1..] + tail;
  }

  /** With every listed index past the end, nothing is deleted, and listing the last index too
      deletes just that one. */
  lemma KeepDeleteLast<T>(s: seq<T>, drop: seq<int>)
    requires |s| > 0
    requires forall d :: d in drop ==> d > |s| - 1
    ensures Keep(s, drop) == s
    ensures Keep(s, [|s| - 1] + drop) == s[..|s| - 1]
  {
    var n := |s| - 1;
    KeepNothing(s, drop);
    KeepNothing(s[..n], [n] + drop);
    assert n in [n] + drop;
  }

  /** Deleting index `a` from what a larger deletion set kept extends that set by `a`. */
  lemma {:induction false} KeepDeleteAt<T>(s: seq<T>, a: int, drop: seq<int>)
    requires 0 <= a < |s|
    requires forall d :: d in drop ==> d > a
    ensures |Keep(s, drop)| > a
    ensures Keep(s, [a] + drop) == DeleteAt(Keep(s, drop), a)
  {
    var n := |s| - 1;
    if a == n {
      KeepDeleteLast(s, drop);
      assert DeleteAt(s, a) == s[..n];
    } else {
      var init := s[..n];
      KeepDeleteAt(init, a, drop);
      var k := Keep(init, drop);
      var tail := if n in drop then [] else [s[n]];
      assert n in [a] + drop <==> n in drop;
      assert Keep(s, drop) == k + tail;
      assert Keep(s, [a] + drop) == Keep(init, [a] + drop) + tail;
      DeleteAtAppend(k, tail, a);
    }
  }

  /** Deleting a strictly ascending list of valid indices removes exactly that many elements. */
  lemma {:induction false} KeepLength<T>(s: seq<T>, drop: seq<int>)
    requires forall k :: 0 <= k < |drop| ==> 0 <= drop[k] < |s|
    requires forall k, m :: 0 <= k < m < |drop| ==> drop[k] < drop[m]
    ensures |Keep(s, drop)| == |s| - |drop|
  {
    if |drop| == 0 {
      KeepNothing(s, drop);
    } else {
      KeepLength(s, drop[1..]);
      KeepDeleteAt(s, drop[0], drop[1..]);
      assert [drop[0]] + drop[1..] == drop;
    }
  }

  /** Deleting segments keeps every remaining one pointing at a vertex. */
  lemma KeepValid(s: seq<Segment>, drop: seq<int>, n: int)
    requires SegmentsValid(s, n)
    ensures SegmentsValid(Keep(s, drop), n)
  {
    var r := Keep(s, drop);
    KeepFrom(s, drop);
    forall k | 0 <= k < |r| ensures 0 <= r[k].0 < n && 0 <= r[k].1 < n {
      var i :| 0 <= i < |s| && s[i] == r[k];
    }
  }

  // ---------------------------------------------------------------------------
  // load_lines and save_points

  /** One row of load_lines: append both endpoints, then link the first vertices within radius 1 of them. */
  function LoadRow(b: Buffers, row: Row): (r: Buffers)
    ensures |r.vertices| == |b.vertices| + 2 && |r.segments| == |b.segments| + 1
  {
    var vs := b.vertices + [Point(row.startX, row.startY), Point(row.endX, row.endY)];
    Buffers(vs, b.segments + [(FirstInBox(vs, row.startX, row.startY, 1.0), FirstInBox(vs, row.endX, row.endY, 1.0))])
  }

  /** A loaded row keeps both buffers as prefixes, appends its two endpoints, and adds a segment
      between vertices within radius 1 of them, neither past the one just appended for it. */
  lemma LoadRowSpec(b: Buffers, row: Row)
    ensures var r := LoadRow(b, row);
      r.vertices[..|b.vertices|] == b.vertices && r.segments[..|b.segments|] == b.segments &&
      r.vertices[|b.vertices|] == Point(row.startX, row.startY) &&
      r.vertices[|b.vertices| + 1] == Point(row.endX, row.endY) &&
      r.segments[|b.segments|] == (FirstInBox(r.vertices, row.startX, row.startY, 1.0),
                                   FirstInBox(r.vertices, row.endX, row.endY, 1.0)) &&
      0 <= r.segments[|b.segments|].0 <= |b.vertices| &&
      0 <= r.segments[|b.segments|].1 <= |b.vertices| + 1 &&
      InBox(r.vertices[r.segments[|b.segments|].0], row.startX, row.startY, 1.0) &&
      InBox(r.vertices[r.segments[|b.segments|].1], row.endX, row.endY, 1.0)
  {
    var vs := LoadRow(b, row).vertices;
    assert InBox(vs[|b.vertices|], row.startX, row.startY, 1.0);
    assert InBox(vs[|b.vertices| + 1], row.endX, row.endY, 1.0);
  }

  /** load_lines over already-parsed rows, processed in file order. */
  function LoadRows(b: Buffers, rows: seq<Row>): Buffers
    decreases |rows|
  {
    if |rows| == 0 then b else LoadRow(LoadRows(b, rows[..|rows| - 1]), rows[|rows| - 1])
  }

  lemma LoadRowsStep(b: Buffers, rows: seq<Row>, i: int)
    requires 0 <= i < |rows|
    ensures LoadRows(b, rows[..i + 1]) == LoadRow(LoadRows(b, rows[..i]), rows[i])
  {
    assert rows[..i + 1][..i] == rows[..i];
  }

  /** One loaded row keeps every segment index valid. */
  lemma LoadRowValid(b: Buffers, row: Row)
    requires BuffersValid(b)
    ensures BuffersValid(LoadRow(b, row))
  {
    var r := LoadRow(b, row);
    LoadRowSpec(b, row);
    forall k | 0 <= k < |r.segments|
      ensures 0 <= r.segments[k].0 < |r.vertices| && 0 <= r.segments[k].1 < |r.vertices|
    {
      if k < |b.segments| {
        assert r.segments[k] == r.segments[..|b.segments|][k];
      }
    }
  }

  /** Each loaded row appends two vertices and one segment, and every segment stays valid. */
  lemma {:induction false} LoadRowsShape(b: Buffers, rows: seq<Row>)
    requires BuffersValid(b)
    ensures var r := LoadRows(b, rows);
      |r.vertices| == |b.vertices| + 2 * |rows| && r.vertices[..|b.vertices|] == b.vertices &&
      |r.segments| == |b.segments| + |rows| && r.segments[..|b.segments|] == b.segments &&
      BuffersValid(r)
  {
    if |rows| > 0 {
      var prev := LoadRows(b, rows[..|rows| - 1]);
      LoadRowsShape(b, rows[..|rows| - 1]);
      LoadRowValid(prev, rows[|rows| - 1]);
      LoadRowSpec(prev, rows[|rows| - 1]);
      var r := LoadRow(prev, rows[|rows| - 1]);
      assert r.vertices[..|b.vertices|] == r.vertices[..|prev.vertices|][..|b.vertices|];
      assert r.segments[..|b.segments|] == r.segments[..|prev.segments|][..|b.segments|];
    }
  }

  /** In buffers `r` loaded on top of `b`, row `i` of the file, `row`, became vertices `n + 2i` and
      `n + 2i + 1` and segment `m + i`, whose two indices are the first vertices of `r` within
      radius 1 of the row's endpoints and are not past the vertices appended for that row. */
  predicate LoadedAt(b: Buffers, r: Buffers, row: Row, i: int) {
    var n, m := |b.vertices|, |b.segments|;
    0 <= i && n + 2 * i + 1 < |r.vertices| && m + i < |r.segments| &&
    r.vertices[n + 2 * i] == Point(row.startX, row.startY) &&
    r.vertices[n + 2 * i + 1] == Point(row.endX, row.endY) &&
    r.segments[m + i] == (FirstInBox(r.vertices, row.startX, row.startY, 1.0),
                          FirstInBox(r.vertices, row.endX, row.endY, 1.0)) &&
    0 <= r.segments[m + i].0 <= n + 2 * i && 0 <= r.segments[m + i].1 <= n + 2 * i + 1
  }

  /** Loading a further row leaves what an earlier row became unchanged. */
  lemma LoadedAtExtend(b: Buffers, prev: Buffers, row: Row, earlier: Row, i: int)
    requires LoadedAt(b, prev, earlier, i)
    ensures LoadedAt(b, LoadRow(prev, row), earlier, i)
  {
    var n, m := |b.vertices|, |b.segments|;
    var r := LoadRow(prev, row);
    var more := [Point(row.startX, row.startY), Point(row.endX, row.endY)];
    LoadRowSpec(prev, row);
    assert r.vertices == prev.vertices + more;
    FirstInBoxExtend(prev.vertices, more, earlier.startX, earlier.startY, 1.0);
    FirstInBoxExtend(prev.vertices, more, earlier.endX, earlier.endY, 1.0);
    assert r.segments[m + i] == r.segments[..|prev.segments|][m + i];
    assert r.vertices[n + 2 * i] == r.vertices[..|prev.vertices|][n + 2 * i];
    assert r.vertices[n + 2 * i + 1] == r.vertices[..|prev.vertices|][n + 2 * i + 1];
  }

  /** Row `i` of the file becomes vertices `n + 2i`, `n + 2i + 1` and segment `m + i`, whose two
      indices are the first vertices of the final buffer within radius 1 of the row's endpoints;
      neither index is past the vertices appended for that row. */
  lemma {:induction false} LoadRowsAt(b: Buffers, rows: seq<Row>, i: int)
    requires BuffersValid(b)
    requires 0 <= i < |rows|
    ensures |LoadRows(b, rows).vertices| == |b.vertices| + 2 * |rows|
    ensures |LoadRows(b, rows).segments| == |b.segments| + |rows|
    ensures LoadedAt(b, LoadRows(b, rows), rows[i], i)
  {
    LoadRowsShape(b, rows);
    var init := rows[..|rows| - 1];
    var prev := LoadRows(b, init);
    LoadRowsShape(b, init);
    if i == |rows| - 1 {
      LoadRowSpec(prev, rows[i]);
    } else {
      assert init[i] == rows[i];
      LoadRowsAt(b, init, i);
      LoadedAtExtend(b, prev, rows[|rows| - 1], rows[i], i);
    }
  }

  /** save_points: one row per segment, in index-buffer order, with the dereferenced coordinates. */
  function SaveRows(b: Buffers): seq<Row>
    requires BuffersValid(b)
  {
    seq(|b.segments|, k requires 0 <= k < |b.segments| =>
      var a, e := b.vertices[b.segments[k].0], b.vertices[b.segments[k].1];
      Row(a.x, a.y, e.x, e.y))
  }

  lemma SaveRowsAt(b: Buffers, k: int)
    requires BuffersValid(b) && 0 <= k < |b.segments|
    ensures |SaveRows(b)| == |b.segments|
    ensures var a, e := b.vertices[b.segments[k].0], b.vertices[b.segments[k].1];
      SaveRows(b)[k] == Row(a.x, a.y, e.x, e.y)
  {
  }

  /** The two rows agree to within `eps` in every coordinate. */
  predicate RowsNear(r: Row, s: Row, eps: real) {
    -eps <= r.startX - s.startX <= eps && -eps <= r.startY - s.startY <= eps &&
    -eps <= r.endX - s.endX <= eps && -eps <= r.endY - s.endY <= eps
  }

  /** Loading more rows never changes what the segments already there save as. */
  lemma LoadKeepsSaved(b: Buffers, rows: seq<Row>)
    requires BuffersValid(b)
    ensures BuffersValid(LoadRows(b, rows))
    ensures |SaveRows(LoadRows(b, rows))| == |b.segments| + |rows|
    ensures SaveRows(LoadRows(b, rows))[..|b.segments|] == SaveRows(b)
  {
    LoadRowsShape(b, rows);
    var r := LoadRows(b, rows);
    forall k | 0 <= k < |b.segments| ensures SaveRows(r)[k] == SaveRows(b)[k] {
      assert r.segments[k] == r.segments[..|b.segments|][k];
      assert r.vertices[b.segments[k].0] == r.vertices[..|b.vertices|][b.segments[k].0];
      assert r.vertices[b.segments[k].1] == r.vertices[..|b.vertices|][b.segments[k].1];
    }
  }

  /** The segment loaded from row `i` links two vertices within the merge radius 1 of the row's
      endpoints. */
  lemma LoadRowsNear(b: Buffers, rows: seq<Row>, i: int)
    requires BuffersValid(b)
    requires 0 <= i < |rows|
    ensures var r := LoadRows(b, rows);
      |b.segments| + i < |r.segments| &&
      0 <= r.segments[|b.segments| + i].0 < |r.vertices| && 0 <= r.segments[|b.segments| + i].1 < |r.vertices| &&
      InBox(r.vertices[r.segments[|b.segments| + i].0], rows[i].startX, rows[i].startY, 1.0) &&
      InBox(r.vertices[r.segments[|b.segments| + i].1], rows[i].endX, rows[i].endY, 1.0)
  {
    LoadRowsAt(b, rows, i);
  }

  /** Saving right after loading writes one row per loaded row, each within the merge radius 1
      of the row it came from. */
  lemma LoadThenSave(b: Buffers, rows: seq<Row>, i: int)
    requires BuffersValid(b)
    requires 0 <= i < |rows|
    ensures BuffersValid(LoadRows(b, rows))
    ensures |b.segments| + i < |SaveRows(LoadRows(b, rows))|
    ensures RowsNear(SaveRows(LoadRows(b, rows))[|b.segments| + i], rows[i], 1.0)
  {
    LoadRowsShape(b, rows);
    LoadRowsNear(b, rows, i);
    SaveRowsAt(LoadRows(b, rows), |b.segments| + i);
  }

  // ---------------------------------------------------------------------------
  // The editor state and its event handlers

  /** A release within this squared distance of the pending point ends the chain. */
  predicate NearPending(p: Point, x: real, y: real) {
    (x - p.x) * (x - p.x) + (y - p.y) * (y - p.y) < 25.0
  }

  /** The GUI object of the editor. `prevPt` is the pending start of a chain of segments and
      `dragPt` the vertex being dragged; -1 means none. */
  class Editor {
    var vertexBuffer: seq<Point>
    var indexBuffer: seq<Segment>
    var prevPt: int
    var dragPt: int

    ghost predicate Valid()
      reads this
    {
      SegmentsValid(indexBuffer, |vertexBuffer|) &&
      -1 <= prevPt < |vertexBuffer| && -1 <= dragPt < |vertexBuffer|
    }

    function Contents(): Buffers
      reads this
    {
      Buffers(vertexBuffer, indexBuffer)
    }

    /** GUI.__init__: empty buffers, no pending or dragged vertex, then load_lines.
        `lineFile` is None when the file cannot be opened. */
    constructor (lineFile: Option<seq<Row>>)
      ensures Valid()
      ensures prevPt == -1 && dragPt == -1
      ensures Contents() == if lineFile.None? then Buffers([], []) else LoadRows(Buffers([], []), lineFile.value)
    {
      vertexBuffer := [];
      indexBuffer := [];
      prevPt := -1;
      dragPt := -1;
      new;
      LoadLines(lineFile);
    }

    /** GUI.load_lines: a missing file leaves both buffers alone. */
    method LoadLines(lineFile: Option<seq<Row>>)
      requires Valid()
      modifies this
      ensures Valid()
      ensures prevPt == old(prevPt) && dragPt == old(dragPt)
      ensures Contents() == if lineFile.None? then old(Contents()) else LoadRows(old(Contents()), lineFile.value)
    {
      if lineFile.None? {
        return;
      }
      var data := lineFile.value;
      ghost var start := Contents();
      for i := 0 to |data|
        invariant Contents() == LoadRows(start, data[..i])
        invariant |vertexBuffer| >= |start.vertices|
        invariant Valid()
        invariant prevPt == old(prevPt) && dragPt == old(dragPt)
      {
        AppendRow(data[i]);
        LoadRowsStep(start, data, i);
        LoadRowsShape(start, data[..i + 1]);
      }
      assert data[..|data|] == data;
    }

    /** The body of the load_lines loop for one row. */
    method AppendRow(row: Row)
      modifies this
      ensures Contents() == LoadRow(old(Contents()), row)
      ensures prevPt == old(prevPt) && dragPt == old(dragPt)
    {
      vertexBuffer := vertexBuffer + [Point(row.startX, row.startY)];
      vertexBuffer := vertexBuffer + [Point(row.endX, row.endY)];
      var ptA := SearchPoint(vertexBuffer, row.startX, row.startY, 1.0);
      var ptB := SearchPoint(vertexBuffer, row.endX, row.endY, 1.0);
      indexBuffer := indexBuffer + [(ptA, ptB)];
      assert vertexBuffer == old(vertexBuffer) + [Point(row.startX, row.startY), Point(row.endX, row.endY)];
    }

    /** GUI.save_points, over rows instead of text. */
    method SavePoints() returns (rows: seq<Row>)
      requires Valid()
      ensures rows == SaveRows(Contents())
      ensures |rows| == |indexBuffer|
    {
      rows := [];
      for k := 0 to |indexBuffer|
        invariant |rows| == k
        invariant forall j :: 0 <= j < k ==> rows[j] == SaveRows(Contents())[j]
      {
        var (a, b) := indexBuffer[k];
        rows := rows + [Row(vertexBuffer[a].x, vertexBuffer[a].y, vertexBuffer[b].x, vertexBuffer[b].y)];
      }
    }

    /** The LBUTTONUP branch of the mouse callback. `refined` is the sub-pixel corner found near
        the click, used only when a new vertex is added. */
    method OnLeftButtonUp(x: int, y: int, refined: Point)
      requires Valid()
      modifies this
      ensures Valid()
      // Releasing after a drag only ends the drag.
      ensures old(dragPt) != -1 ==>
        dragPt == -1 && prevPt == old(prevPt) && Contents() == old(Contents())
      // A release close to the pending point only ends the chain.
      ensures old(dragPt) == -1 && old(prevPt) != -1 &&
              NearPending(old(vertexBuffer)[old(prevPt)], x as real, y as real) ==>
        prevPt == -1 && dragPt == -1 && Contents() == old(Contents())
      // Otherwise the click is resolved to a vertex within box radius 15, or a new one.
      ensures old(dragPt) == -1 &&
              !(old(prevPt) != -1 && NearPending(old(vertexBuffer)[old(prevPt)], x as real, y as real)) ==>
        var found := FirstInBox(old(vertexBuffer), x as real, y as real, 15.0);
        var curr := if found == -1 then |old(vertexBuffer)| else found;
        dragPt == -1 &&
        vertexBuffer == (if found == -1 then old(vertexBuffer) + [refined] else old(vertexBuffer)) &&
        if found != -1 && found == old(prevPt) then
          prevPt == old(prevPt) && indexBuffer == old(indexBuffer)
        else
          curr != old(prevPt) && prevPt == curr &&
          indexBuffer == old(indexBuffer) + (if old(prevPt) != -1 then [(old(prevPt), curr)] else [])
    {
      if dragPt != -1 {
        dragPt := -1;
        return;
      }
      if prevPt != -1 && NearPending(vertexBuffer[prevPt], x as real, y as real) {
        prevPt := -1;
        return;
      }
      var currPtIndex := SearchPoint(vertexBuffer, x as real, y as real, 15.0);
      if currPtIndex == -1 {
        vertexBuffer := vertexBuffer + [refined];
        currPtIndex := |vertexBuffer| - 1;
      } else if currPtIndex == prevPt {
        return;
      }
      if prevPt != -1 {
        indexBuffer := indexBuffer + [(prevPt, currPtIndex)];
      }
      prevPt := currPtIndex;
    }

    /** The RBUTTONUP branch: delete the (at most two) segments found at the vertex near the click. */
    method OnRightButtonUp(x: int, y: int)
      requires Valid()
      modifies this
      ensures Valid()
      ensures vertexBuffer == old(vertexBuffer) && dragPt == old(dragPt)
      ensures var p := FirstInBox(old(vertexBuffer), x as real, y as real, 4.0);
        if p == -1 then
          prevPt == old(prevPt) && indexBuffer == old(indexBuffer)
        else
          prevPt == -1 &&
          indexBuffer == Keep(old(indexBuffer), FirstTwoAdjacent(old(indexBuffer), p)) &&
          |indexBuffer| == |old(indexBuffer)| -
            (if Degree(old(indexBuffer), p) < 2 then Degree(old(indexBuffer), p) else 2)
    {
      var ptIndex := SearchPoint(vertexBuffer, x as real, y as real, 4.0);
      if ptIndex == -1 {
        return;
      }
      prevPt := -1;
      var adjLines := SearchLines(indexBuffer, ptIndex);
      FirstTwoAdjacentSpec(indexBuffer, ptIndex);
      DeleteLines(adjLines);
    }

    /** The `del` loop of the RBUTTONUP branch: delete the listed segments, highest index first. */
    method DeleteLines(adjLines: seq<int>)
      requires Valid()
      requires forall k :: 0 <= k < |adjLines| ==> 0 <= adjLines[k] < |indexBuffer|
      requires forall k, m :: 0 <= k < m < |adjLines| ==> adjLines[k] < adjLines[m]
      modifies this
      ensures Valid()
      ensures vertexBuffer == old(vertexBuffer) && prevPt == old(prevPt) && dragPt == old(dragPt)
      ensures indexBuffer == Keep(old(indexBuffer), adjLines)
      ensures |indexBuffer| == |old(indexBuffer)| - |adjLines|
    {
      ghost var orig := indexBuffer;
      KeepLength(orig, adjLines);
      KeepNothing(orig, []);
      assert adjLines[|adjLines|..] == [];
      var j := |adjLines|;
      while j > 0
        invariant 0 <= j <= |adjLines|
        invariant indexBuffer == Keep(orig, adjLines[j..])
        invariant vertexBuffer == old(vertexBuffer) && prevPt == old(prevPt) && dragPt == old(dragPt)
      {
        j := j - 1;
        assert adjLines[j..] == [adjLines[j]] + adjLines[j + 1..];
        KeepDeleteAt(orig, adjLines[j], adjLines[j + 1..]);
        indexBuffer := DeleteAt(indexBuffer, adjLines[j]);
      }
      assert adjLines[0..] == adjLines;
      KeepValid(orig, adjLines, |vertexBuffer|);
    }

    /** The MOUSEMOVE branch with the left button held: the first move picks the vertex near
        the pointer as the dragged one, and every move puts it at the refined position. */
    method OnMouseMove(x: int, y: int, leftButtonHeld: bool, refined: Point)
      requires Valid()
      modifies this
      ensures Valid()
      ensures indexBuffer == old(indexBuffer) && prevPt == old(prevPt)
      ensures |vertexBuffer| == |old(vertexBuffer)|
      ensures var d := if !leftButtonHeld then -1
                       else if old(dragPt) != -1 then old(dragPt)
                       else FirstInBox(old(vertexBuffer), x as real, y as real, 4.0);
        if d == -1 then
          vertexBuffer == old(vertexBuffer) && dragPt == old(dragPt)
        else
          dragPt == d && vertexBuffer == old(vertexBuffer)[d := refined]
    {
      if !leftButtonHeld {
        return;
      }
      if dragPt == -1 {
        var ptIndex := SearchPoint(vertexBuffer, x as real, y as real, 4.0);
        if ptIndex == -1 {
          return;
        }
        dragPt := ptIndex;
      }
      vertexBuffer := vertexBuffer[dragPt := refined];
    }
  }
}
