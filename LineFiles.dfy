/** Value types shared by the two marking tools and the two morph programs:
    image points, rows of a line file, and the closed-box point search that
    both marking tools use to resolve a click or a loaded coordinate. */
module LineFiles {

  datatype Option<T> = None | Some(value: T)

  /** A 2-D image coordinate; the morph helpers also use it as a vector. */
  datatype Point = Point(x: real, y: real)

  /** One row of a line file: the segment from (startX, startY) to (endX, endY). */
  datatype Row = Row(startX: real, startY: real, endX: real, endY: real)

  /** `p` lies in the closed axis-aligned box of half-width `radius` around (x, y). */
  predicate InBox(p: Point, x: real, y: real, radius: real) {
    x - radius <= p.x <= x + radius && y - radius <= p.y <= y + radius
  }

  /** The index of the first point of `pts` inside the box, or -1 when there is none. */
  function FirstInBox(pts: seq<Point>, x: real, y: real, radius: real): (r: int)
    ensures -1 <= r < |pts|
    ensures r == -1 <==> forall i :: 0 <= i < |pts| ==> !InBox(pts[i], x, y, radius)
    ensures 0 <= r ==> InBox(pts[r], x, y, radius)
    ensures 0 <= r ==> forall j :: 0 <= j < r ==> !InBox(pts[j], x, y, radius)
  {
    if |pts| == 0 then -1
    else if InBox(pts[0], x, y, radius) then 0
    else
      var k := FirstInBox(pts[1..], x, y, radius);
      if k == -1 then -1 else k + 1
  }

  /** Appending points never changes a search that already succeeds. */
  lemma {:induction false} FirstInBoxExtend(pts: seq<Point>, more: seq<Point>, x: real, y: real, radius: real)
    requires FirstInBox(pts, x, y, radius) != -1
    ensures FirstInBox(pts + more, x, y, radius) == FirstInBox(pts, x, y, radius)
  {
    var r := FirstInBox(pts, x, y, radius);
    assert (pts + more)[r] == pts[r];
    assert forall j :: 0 <= j < r ==> (pts + more)[j] == pts[j];
  }

  /** Python's `del s[i]`: the elements before `i` stay, the ones after move down by one. */
  function DeleteAt<T>(s: seq<T>, i: int): (r: seq<T>)
    requires 0 <= i < |s|
    ensures |r| == |s| - 1
    ensures forall k :: 0 <= k < |r| ==> r[k] == if k < i then s[k] else s[k + 1]
  {
    s[..i] + s[i + 1..]
  }
}
