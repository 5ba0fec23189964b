/** The point-pair marker: two aligned lists of corresponding points, one per
    image window, filled alternately (left, right, left, ...) by left clicks
    and thinned pairwise by right clicks. The two copies of the program in
    the repository differ only in the name of the list field. */
module MarkPair {
  import opened LineFiles

  /** search_point: the first point inside the closed box with its coordinates, else (-1, -1, -1). */
  method SearchPoint(ptlist: seq<Point>, x: real, y: real, radius: real) returns (index: int, px: real, py: real)
    ensures index == FirstInBox(ptlist, x, y, radius)
    ensures index == -1 ==> px == -1.0 && py == -1.0
    ensures index != -1 ==> 0 <= index < |ptlist| && px == ptlist[index].x && py == ptlist[index].y
  {
    for i := 0 to |ptlist|
      invariant forall j :: 0 <= j < i ==> !InBox(ptlist[j], x, y, radius)
    {
      if InBox(ptlist[i], x, y, radius) {
        return i, ptlist[i].x, ptlist[i].y;
      }
    }
    return -1, -1.0, -1.0;
  }

  /** One saved point file: a row `x y` per point, in list order. */
  method WritePoints(ptlist: seq<Point>) returns (rows: seq<(real, real)>)
    ensures |rows| == |ptlist|
    ensures forall i :: 0 <= i < |rows| ==> rows[i] == (ptlist[i].x, ptlist[i].y)
  {
    rows := [];
    for i := 0 to |ptlist|
      invariant |rows| == i
      invariant forall j :: 0 <= j < i ==> rows[j] == (ptlist[j].x, ptlist[j].y)
    {
      rows := rows + [(ptlist[i].x, ptlist[i].y)];
    }
  }

  /** The two lists read as one list of corresponding pairs. */
  function Pairs(left: seq<Point>, right: seq<Point>): (r: seq<(Point, Point)>)
    requires |left| == |right|
    ensures |r| == |left|
    ensures forall k :: 0 <= k < |r| ==> r[k] == (left[k], right[k])
  {
    seq(|left|, k requires 0 <= k < |left| => (left[k], right[k]))
  }

  /** Deleting the same index from both lists deletes exactly that pair and keeps the
      remaining pairs aligned and in order. */
  lemma DeleteBothIsDeletePair(left: seq<Point>, right: seq<Point>, index: int)
    requires |left| == |right| && 0 <= index < |left|
    ensures Pairs(DeleteAt(left, index), DeleteAt(right, index)) == DeleteAt(Pairs(left, right), index)
  {
    var a := Pairs(DeleteAt(left, index), DeleteAt(right, index));
    var b := DeleteAt(Pairs(left, right), index);
    assert |a| == |b|;
    assert forall k :: 0 <= k < |a| ==> a[k] == b[k];
  }

  /** A left click in each window, in turn, appends one pair. */
  lemma AppendBothIsAppendPair(left: seq<Point>, right: seq<Point>, p: Point, q: Point)
    requires |left| == |right|
    ensures Pairs(left + [p], right + [q]) == Pairs(left, right) + [(p, q)]
  {
    var a := Pairs(left + [p], right + [q]);
    var b := Pairs(left, right) + [(p, q)];
    assert |a| == |b|;
    assert forall k :: 0 <= k < |a| ==> a[k] == b[k];
  }

  /** The GUI object: `ptlist[side]` holds the points of window `side`, and `focus` says which
      window takes the next left click. */
  class PairMarker {
    var focus: int
    var ptlist: seq<seq<Point>>

    /** The left list is ahead by exactly one point while the right window has the focus. */
    ghost predicate Valid()
      reads this
    {
      |ptlist| == 2 && 0 <= focus <= 1 && |ptlist[0]| == |ptlist[1]| + focus
    }

    /** GUI.__init__: focus on the left window, both lists empty. */
    constructor ()
      ensures Valid()
      ensures focus == 0 && ptlist == [[], []]
    {
      focus := 0;
      ptlist := [[], []];
    }

    /** The LBUTTONDOWN branch of the mouse callback in window `side`. `refined` is the
        sub-pixel corner found near the click. */
    method OnLeftButtonDown(side: int, refined: Point)
      requires Valid()
      requires side == 0 || side == 1
      modifies this
      ensures Valid()
      ensures if side == old(focus) then
          ptlist == old(ptlist)[side := old(ptlist)[side] + [refined]] && focus == (old(focus) + 1) % 2
        else
          ptlist == old(ptlist) && focus == old(focus)
    {
      var f := focus;
      if side == f {
        ptlist := ptlist[f := ptlist[f] + [refined]];
        focus := (f + 1) % 2;
      }
    }

    /** The RBUTTONDOWN branch in window `side`: only while the left window has the focus, delete
        the pair whose point in this window is the first within box radius 3 of the click. */
    method OnRightButtonDown(side: int, x: int, y: int)
      requires Valid()
      requires side == 0 || side == 1
      modifies this
      ensures Valid()
      ensures focus == old(focus)
      ensures var index := FirstInBox(old(ptlist)[side], x as real, y as real, 3.0);
        if old(focus) == 0 && index >= 0 then
          ptlist == [DeleteAt(old(ptlist)[0], index), DeleteAt(old(ptlist)[1], index)] &&
          Pairs(ptlist[0], ptlist[1]) == DeleteAt(Pairs(old(ptlist)[0], old(ptlist)[1]), index)
        else
          ptlist == old(ptlist)
    {
      var f := focus;
      if f == 0 {
        var index, px, py := SearchPoint(ptlist[side], x as real, y as real, 3.0);
        if index >= 0 {
          DeleteBothIsDeletePair(ptlist[0], ptlist[1], index);
          ptlist := [DeleteAt(ptlist[0], index), DeleteAt(ptlist[1], index)];
        }
      }
    }

    /** GUI.save_points: the rows of the two point files. */
    method SavePoints() returns (rows0: seq<(real, real)>, rows1: seq<(real, real)>)
      requires Valid()
      ensures |rows0| == |ptlist[0]| && |rows1| == |ptlist[1]|
      ensures |rows0| == |rows1| + focus
      ensures forall i :: 0 <= i < |rows0| ==> rows0[i] == (ptlist[0][i].x, ptlist[0][i].y)
      ensures forall i :: 0 <= i < |rows1| ==> rows1[i] == (ptlist[1][i].x, ptlist[1][i].y)
    {
      rows0 := WritePoints(ptlist[0]);
      rows1 := WritePoints(ptlist[1]);
    }
  }
}
