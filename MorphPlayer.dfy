/** The interactive morph player: a timeline of frames 0 .. frameTotal driven by
    the keyboard and by a render step that advances with the wall clock, and
    the flat float buffers of feature lines that it loads once and
    interpolates for the debug overlay. */
module MorphPlayer {
  import opened LineFiles

  const FrameRate: int := 24
  const Duration: int := 3
  /** frameTotal as main sets it. */
  const FrameTotal: int := FrameRate * Duration
  const Escape: char := 27 as char

  /** C++ integer quotient, and the float-to-int conversion of n / d: truncation toward zero. */
  function TruncDiv(n: int, d: int): (q: int)
    requires d > 0
    ensures 0 <= n ==> 0 <= q && q * d <= n < q * d + d
    ensures n < 0 ==> q <= 0 && q * d - d < n <= q * d
  {
    if n >= 0 then
      EuclidBounds(n, d);
      n / d
    else
      EuclidBounds(-n, d);
      NegMul((-n) / d, d);
      -((-n) / d)
  }

  lemma EuclidBounds(n: int, d: int)
    requires 0 <= n && 0 < d
    ensures 0 <= n / d && (n / d) * d <= n < (n / d) * d + d
  {
    assert n == (n / d) * d + n % d;
  }

  lemma NegMul(q: int, d: int)
    ensures (-q) * d == -(q * d)
  {
  }

  /** C++ `%` on int: the remainder that goes with TruncDiv, carrying the sign of n. */
  function TruncRem(n: int, d: int): (r: int)
    requires d > 0
    ensures n == TruncDiv(n, d) * d + r
    ensures 0 <= n ==> 0 <= r < d
    ensures n < 0 ==> -d < r <= 0
  {
    n - TruncDiv(n, d) * d
  }

  /** The frame reached after `elapsed` milliseconds in `direction`: the real frame position
      frameNumber + elapsed / 1000 * direction * frameRate, truncated toward zero when it is
      stored back into the int frameNumber. */
  function Advance(frameNumber: int, elapsed: int, direction: int): (r: int)
    ensures var x := frameNumber as real + (elapsed * direction * FrameRate) as real / 1000.0;
      (0.0 <= x ==> r as real <= x < r as real + 1.0) && (x < 0.0 ==> r as real - 1.0 < x <= r as real)
  {
    var n := frameNumber * 1000 + elapsed * direction * FrameRate;
    var q := TruncDiv(n, 1000);
    assert frameNumber as real + (elapsed * direction * FrameRate) as real / 1000.0 == n as real / 1000.0;
    q
  }

  /** The player's global variables, as one value. */
  datatype PlayerState = PlayerState(
    frameNumber: int, frameTotal: int, blendType: int, isPlaying: bool,
    playDirection: int, lastTime: int, showDebugLines: bool, vidOpened: bool)

  /** What every key and render step keeps: the frame stays on the timeline, the direction is
      a unit step and the blend mode is one of cross-dissolve, source only, destination only. */
  predicate StateValid(s: PlayerState) {
    s.frameTotal == FrameTotal && 0 <= s.frameNumber <= s.frameTotal &&
    (s.playDirection == 1 || s.playDirection == -1) && 0 <= s.blendType < 3
  }

  /** The globals after main's initialisation and their static initialisers. */
  function InitialState(): (s: PlayerState)
    ensures StateValid(s) && s.frameNumber == 0 && !s.isPlaying && !s.vidOpened
  {
    PlayerState(0, FrameRate * Duration, 0, false, 1, 0, false, false)
  }

  /** The morph parameter handed to the shader: frameNumber / frameTotal. */
  function T(s: PlayerState): (t: real)
    requires StateValid(s)
    ensures 0.0 <= t <= 1.0
    ensures t == 0.0 <==> s.frameNumber == 0
    ensures t == 1.0 <==> s.frameNumber == s.frameTotal
  {
    s.frameNumber as real / s.frameTotal as real
  }

  predicate IsQuitKey(key: char) {
    key == 'q' || key == 'Q' || key == Escape
  }

  /** onKeyPress: the new globals, and whether the program exits. */
  function KeyStep(s: PlayerState, key: char, now: int): (r: (PlayerState, bool))
    ensures StateValid(s) ==> StateValid(r.0)
    ensures r.1 <==> IsQuitKey(key)
    ensures r.1 ==> r.0 == s
    ensures r.0.frameTotal == s.frameTotal
    // 'r': start or stop recording playback, always forward
    ensures (key == 'r' || key == 'R') ==> r.0 == s.(isPlaying := !s.isPlaying, lastTime := now,
      playDirection := 1, vidOpened := true)
    // 't': start or stop playback, turning round at either end of the timeline
    ensures (key == 't' || key == 'T') ==> r.0 == s.(isPlaying := !s.isPlaying, lastTime := now,
      playDirection := r.0.playDirection)
    ensures (key == 't' || key == 'T') && s.frameNumber <= 0 ==> r.0.playDirection == 1
    ensures (key == 't' || key == 'T') && 0 < s.frameNumber && s.frameNumber >= s.frameTotal ==>
      r.0.playDirection == -1
    ensures (key == 't' || key == 'T') && 0 < s.frameNumber < s.frameTotal ==>
      r.0.playDirection == s.playDirection
    // 'x': next blend mode
    ensures (key == 'x' || key == 'X') ==> r.0 == s.(blendType := r.0.blendType)
    ensures (key == 'x' || key == 'X') && 0 <= s.blendType < 3 ==>
      0 <= r.0.blendType < 3 && (r.0.blendType == s.blendType + 1 || (s.blendType == 2 && r.0.blendType == 0))
    // 'a' / 'd': one frame back / forward, clamped to the timeline
    ensures (key == 'a' || key == 'A' || key == 'd' || key == 'D') ==> r.0 == s.(frameNumber := r.0.frameNumber)
    ensures (key == 'a' || key == 'A') && 0 <= s.frameNumber ==>
      r.0.frameNumber == if s.frameNumber == 0 then 0 else s.frameNumber - 1
    ensures (key == 'd' || key == 'D') && s.frameNumber <= s.frameTotal ==>
      r.0.frameNumber == if s.frameNumber == s.frameTotal then s.frameTotal else s.frameNumber + 1
    // 'l': toggle the debug lines
    ensures (key == 'l' || key == 'L') ==> r.0 == s.(showDebugLines := !s.showDebugLines)
    // any other key
    ensures !(key in "rRtTxXaAdDlL") ==> r.0 == s
  {
    if key == 'r' || key == 'R' then
      (s.(vidOpened := true, isPlaying := !s.isPlaying, lastTime := now, playDirection := 1), false)
    else if key == 't' || key == 'T' then
      var dir := if s.frameNumber <= 0 then 1 else if s.frameNumber >= s.frameTotal then -1 else s.playDirection;
      (s.(isPlaying := !s.isPlaying, lastTime := now, playDirection := dir), false)
    else if key == 'x' || key == 'X' then
      (s.(blendType := TruncRem(s.blendType + 1, 3)), false)
    else if key == 'a' || key == 'A' then
      (s.(frameNumber := if s.frameNumber - 1 < 0 then 0 else s.frameNumber - 1), false)
    else if key == 'd' || key == 'D' then
      (s.(frameNumber := if s.frameNumber + 1 > s.frameTotal then s.frameTotal else s.frameNumber + 1), false)
    else if key == 'l' || key == 'L' then
      (s.(showDebugLines := !s.showDebugLines), false)
    else if IsQuitKey(key) then
      (s, true)
    else
      (s, false)
  }

  /** The state part of onRender at wall-clock time `currentTime` (milliseconds). */
  function RenderStep(s: PlayerState, currentTime: int): (r: PlayerState)
    ensures r.lastTime == currentTime
    ensures r == s.(frameNumber := r.frameNumber, isPlaying := r.isPlaying, vidOpened := r.vidOpened,
      lastTime := currentTime)
    ensures !s.isPlaying ==> r == s.(lastTime := currentTime)
    ensures StateValid(s) ==> StateValid(r)
    ensures StateValid(s) && s.isPlaying ==>
      var f := Advance(s.frameNumber, currentTime - s.lastTime, s.playDirection);
      (0 <= f <= s.frameTotal ==> r.frameNumber == f && r.isPlaying && r.vidOpened == s.vidOpened) &&
      (f < 0 ==> r.frameNumber == 0 && !r.isPlaying && !r.vidOpened) &&
      (s.frameTotal < f ==> r.frameNumber == s.frameTotal && !r.isPlaying && !r.vidOpened)
  {
    var moved :=
      if !s.isPlaying then s
      else
        var f := Advance(s.frameNumber, currentTime - s.lastTime, s.playDirection);
        var low := if f < 0 then s.(frameNumber := 0, isPlaying := false, vidOpened := false)
                   else s.(frameNumber := f);
        if low.frameNumber > low.frameTotal then
          low.(frameNumber := low.frameTotal, isPlaying := false, vidOpened := false)
        else low;
    moved.(lastTime := currentTime)
  }

  /** One press of 'x' moves to the next blend mode, wrapping from 2 to 0. */
  lemma NextBlendStep(s: PlayerState, now: int)
    requires 0 <= s.blendType < 3
    ensures KeyStep(s, 'x', now).0 == s.(blendType := if s.blendType == 2 then 0 else s.blendType + 1)
  {
  }

  /** Pressing 'x' three times gives back the blend mode it started from. */
  lemma BlendCycles(s: PlayerState, now: int)
    requires 0 <= s.blendType < 3
    ensures KeyStep(KeyStep(KeyStep(s, 'x', now).0, 'x', now).0, 'x', now).0 == s
  {
    NextBlendStep(s, now);
    var s1 := KeyStep(s, 'x', now).0;
    NextBlendStep(s1, now);
    var s2 := KeyStep(s1, 'x', now).0;
    NextBlendStep(s2, now);
  }

  /** 'd' then 'a' returns to the same frame unless the first press hit the end of the timeline. */
  lemma ForwardThenBack(s: PlayerState, now: int)
    requires StateValid(s) && s.frameNumber < s.frameTotal
    ensures KeyStep(KeyStep(s, 'd', now).0, 'a', now).0 == s
  {
  }

  /** Playback never moves against its direction. */
  lemma RenderFollowsDirection(s: PlayerState, currentTime: int)
    requires StateValid(s) && s.isPlaying && currentTime >= s.lastTime
    ensures s.playDirection == 1 ==> RenderStep(s, currentTime).frameNumber >= s.frameNumber
    ensures s.playDirection == -1 ==> RenderStep(s, currentTime).frameNumber <= s.frameNumber
  {
    var e := currentTime - s.lastTime;
    var n := s.frameNumber * 1000 + e * s.playDirection * FrameRate;
    assert Advance(s.frameNumber, e, s.playDirection) == TruncDiv(n, 1000);
    if s.playDirection == 1 {
      assert n >= s.frameNumber * 1000;
    } else {
      assert n <= s.frameNumber * 1000;
    }
  }

  /** Because every render step truncates toward zero, a forward step shorter than one frame
      period (elapsed * 24 < 1000 ms, so any step of up to 41 ms) never advances the timeline,
      however many such steps follow each other. */
  lemma ShortForwardStepStalls(s: PlayerState, currentTime: int)
    requires StateValid(s) && s.isPlaying && s.playDirection == 1
    requires 0 <= (currentTime - s.lastTime) * FrameRate < 1000
    ensures RenderStep(s, currentTime) == s.(lastTime := currentTime)
  {
    var e := currentTime - s.lastTime;
    var n := s.frameNumber * 1000 + e * s.playDirection * FrameRate;
    assert Advance(s.frameNumber, e, s.playDirection) == TruncDiv(n, 1000);
    assert s.frameNumber * 1000 <= n < s.frameNumber * 1000 + 1000;
  }

  /** The same short step played backward moves one whole frame down, and at frame 0 it neither
      moves nor stops playback. */
  lemma ShortBackwardStepDrops(s: PlayerState, currentTime: int)
    requires StateValid(s) && s.isPlaying && s.playDirection == -1
    requires 0 < (currentTime - s.lastTime) * FrameRate < 1000
    ensures s.frameNumber > 0 ==> RenderStep(s, currentTime) == s.(frameNumber := s.frameNumber - 1, lastTime := currentTime)
    ensures s.frameNumber == 0 ==> RenderStep(s, currentTime) == s.(lastTime := currentTime)
  {
    var e := currentTime - s.lastTime;
    var n := s.frameNumber * 1000 + e * s.playDirection * FrameRate;
    assert Advance(s.frameNumber, e, s.playDirection) == TruncDiv(n, 1000);
    assert s.frameNumber * 1000 - 1000 < n < s.frameNumber * 1000;
    if s.frameNumber > 0 {
      assert n > 0;
      assert TruncDiv(n, 1000) == s.frameNumber - 1;
    } else {
      assert TruncDiv(n, 1000) == 0;
    }
  }

  /** One row of a line file as InitLine stores it: four floats, y measured from the bottom
      edge of an image of height `height`. */
  function FlipRow(row: Row, height: real): (r: seq<real>)
    ensures |r| == 4
  {
    [row.startX, height - row.startY, row.endX, height - row.endY]
  }

  /** The vector InitLine builds from a line file: its rows flipped and concatenated in file order. */
  function Flatten(rows: seq<Row>, height: real): (r: seq<real>)
    ensures |r| == 4 * |rows|
  {
    if |rows| == 0 then [] else Flatten(rows[..|rows| - 1], height) + FlipRow(rows[|rows| - 1], height)
  }

  lemma {:induction false} FlattenAt(rows: seq<Row>, height: real, i: int)
    requires 0 <= i < |rows|
    ensures |Flatten(rows, height)| == 4 * |rows|
    ensures Flatten(rows, height)[4 * i..4 * i + 4] == FlipRow(rows[i], height)
  {
    var n := |rows| - 1;
    if i < n {
      FlattenAt(rows[..n], height, i);
      assert rows[..n][i] == rows[i];
      assert Flatten(rows, height)[4 * i..4 * i + 4] == Flatten(rows[..n], height)[4 * i..4 * i + 4];
    } else {
      assert Flatten(rows, height)[4 * i..4 * i + 4] == FlipRow(rows[n], height);
    }
  }

  /** Line i of a flat buffer (what drawLines reads back), in image coordinates. */
  function Unflatten(flat: seq<real>, height: real): (r: seq<Row>)
    requires |flat| % 4 == 0
    ensures |r| == |flat| / 4
  {
    seq(|flat| / 4, i requires 0 <= i < |flat| / 4 =>
      Row(flat[4 * i], height - flat[4 * i + 1], flat[4 * i + 2], height - flat[4 * i + 3]))
  }

  /** The y-flip loses nothing: the rows come back from the buffer unchanged and in order. */
  lemma FlattenRoundTrip(rows: seq<Row>, height: real)
    ensures Unflatten(Flatten(rows, height), height) == rows
  {
    var back := Unflatten(Flatten(rows, height), height);
    forall i | 0 <= i < |rows| ensures back[i] == rows[i] {
      FlattenAt(rows, height, i);
      var w := Flatten(rows, height)[4 * i..4 * i + 4];
      assert w[0] == Flatten(rows, height)[4 * i] && w[1] == Flatten(rows, height)[4 * i + 1];
      assert w[2] == Flatten(rows, height)[4 * i + 2] && w[3] == Flatten(rows, height)[4 * i + 3];
    }
  }

  /** Entry-wise linear blend: src weighted by 1 - t, dest by t. */
  function Lerp(src: seq<real>, dest: seq<real>, t: real): (r: seq<real>)
    requires |src| == |dest|
    ensures |r| == |src|
  {
    seq(|src|, i requires 0 <= i < |src| => src[i] * (1.0 - t) + dest[i] * t)
  }

  lemma LerpEnds(src: seq<real>, dest: seq<real>)
    requires |src| == |dest|
    ensures Lerp(src, dest, 0.0) == src
    ensures Lerp(src, dest, 1.0) == dest
  {
    assert forall i :: 0 <= i < |src| ==> Lerp(src, dest, 0.0)[i] == src[i];
    assert forall i :: 0 <= i < |src| ==> Lerp(src, dest, 1.0)[i] == dest[i];
  }

  /** The product of two non-negative reals, written with `*`, is non-negative. */
  lemma RawProductNonneg(a: real, b: real)
    requires 0.0 <= a && 0.0 <= b
    ensures 0.0 <= a * b
  {
  }

  /** For t in [0, 1] every interpolated coordinate lies between its two end values. */
  lemma LerpBetween(src: seq<real>, dest: seq<real>, t: real, i: int)
    requires |src| == |dest| && 0.0 <= t <= 1.0 && 0 <= i < |src|
    ensures src[i] <= dest[i] ==> src[i] <= Lerp(src, dest, t)[i] <= dest[i]
    ensures dest[i] <= src[i] ==> dest[i] <= Lerp(src, dest, t)[i] <= src[i]
  {
    var d := dest[i] - src[i];
    assert Lerp(src, dest, t)[i] == src[i] + d * t;
    if src[i] <= dest[i] {
      RawProductNonneg(d, t);
      RawProductNonneg(d, 1.0 - t);
    } else {
      RawProductNonneg(-d, t);
      RawProductNonneg(-d, 1.0 - t);
    }
  }

  /** interpolateLines: blends the first 4 * size floats of src and dest into out. Any of the
      three buffers may be the same array: each entry is read before it is written. */
  method InterpolateLines(src: array<real>, dest: array<real>, out: array<real>, size: nat, t: real)
    requires 4 * size <= src.Length && 4 * size <= dest.Length && 4 * size <= out.Length
    modifies out
    ensures out[..4 * size] == Lerp(old(src[..4 * size]), old(dest[..4 * size]), t)
    ensures out[4 * size..] == old(out[4 * size..])
    ensures out != src ==> src[..] == old(src[..])
    ensures out != dest ==> dest[..] == old(dest[..])
  {
    ghost var s0 := src[..4 * size];
    ghost var d0 := dest[..4 * size];
    for i := 0 to 4 * size
      invariant forall j :: 0 <= j < i ==> out[j] == s0[j] * (1.0 - t) + d0[j] * t
      invariant forall j :: i <= j < out.Length ==> out[j] == old(out[j])
      invariant forall j :: i <= j < 4 * size ==> src[j] == s0[j] && dest[j] == d0[j]
    {
      out[i] := src[i] * (1.0 - t) + dest[i] * t;
    }
    assert forall j :: 0 <= j < 4 * size ==> out[..4 * size][j] == Lerp(s0, d0, t)[j];
  }

  /** One fscanf loop of InitLine and the copy into a fresh float array. */
  method ReadLineFile(rows: seq<Row>, height: real) returns (buffer: array<real>)
    ensures fresh(buffer)
    ensures buffer[..] == Flatten(rows, height)
  {
    var lines: seq<real> := [];
    for i := 0 to |rows|
      invariant lines == Flatten(rows[..i], height)
    {
      assert rows[..i + 1][..i] == rows[..i];
      lines := lines + FlipRow(rows[i], height);
    }
    assert rows[..|rows|] == rows;
    buffer := new real[|lines|];
    for i := 0 to |lines|
      invariant forall j :: 0 <= j < i ==> buffer[j] == lines[j]
    {
      buffer[i] := lines[i];
    }
    assert buffer[..] == lines;
  }

  /** The program's globals. */
  class Player {
    var frameNumber: int
    var frameTotal: int
    var blendType: int
    var isPlaying: bool
    var playDirection: int
    var lastTime: int
    var showDebugLines: bool
    var vidOpened: bool
    var numLines: int
    var lineA: array<real>
    var lineB: array<real>
    var lineInterp: array<real>

    function State(): PlayerState
      reads this
    {
      PlayerState(frameNumber, frameTotal, blendType, isPlaying, playDirection, lastTime,
        showDebugLines, vidOpened)
    }

    /** The timeline invariant, and three buffers of 4 * numLines floats, the output apart
        from the two inputs. */
    ghost predicate Valid()
      reads this
    {
      StateValid(State()) && 0 <= numLines &&
      lineA.Length == 4 * numLines && lineB.Length == 4 * numLines && lineInterp.Length == 4 * numLines &&
      lineInterp != lineA && lineInterp != lineB
    }

    /** main's initialisation of the globals, before any line file is read. */
    constructor ()
      ensures Valid()
      ensures State() == InitialState()
      ensures numLines == 0
      ensures fresh(lineA) && fresh(lineB) && fresh(lineInterp)
    {
      frameNumber, frameTotal, blendType := 0, FrameRate * Duration, 0;
      isPlaying, playDirection, lastTime := false, 1, 0;
      showDebugLines, vidOpened := false, false;
      numLines := 0;
      lineA := new real[0];
      lineB := new real[0];
      lineInterp := new real[0];
    }

    /** InitLine over the already parsed rows of the two line files. `ok` is false exactly when
        the program stops with "Line count not equal". */
    method InitLine(rowsA: seq<Row>, rowsB: seq<Row>, imgHeight: int) returns (ok: bool)
      requires Valid()
      modifies this
      ensures State() == old(State())
      ensures fresh(lineA) && lineA[..] == Flatten(rowsA, imgHeight as real)
      ensures fresh(lineB) && lineB[..] == Flatten(rowsB, imgHeight as real)
      ensures ok <==> |rowsA| == |rowsB|
      ensures ok ==> Valid() && numLines == |rowsB| && fresh(lineInterp)
      ensures !ok ==> numLines == old(numLines) && lineInterp == old(lineInterp)
    {
      lineA := ReadLineFile(rowsA, imgHeight as real);
      lineB := ReadLineFile(rowsB, imgHeight as real);
      if lineA.Length != lineB.Length {
        return false;
      }
      numLines := lineB.Length / 4;
      lineInterp := new real[numLines * 4];
      return true;
    }

    /** The line buffers and their length, which no key affects. */
    twostate predicate LinesUnchanged()
      reads this
    {
      numLines == old(numLines) && lineA == old(lineA) && lineB == old(lineB) &&
      lineInterp == old(lineInterp)
    }

    /** Case 'r': start or stop recording playback, which always runs forward; the video
        writer is opened. */
    method ToggleRecording(now: int)
      modifies this
      ensures State() == old(State()).(vidOpened := true, isPlaying := !old(isPlaying), lastTime := now,
        playDirection := 1)
      ensures LinesUnchanged()
    {
      vidOpened := true;
      isPlaying := !isPlaying;
      lastTime := now;
      playDirection := 1;
    }

    /** Case 't': start or stop playback, turning forward at frame 0 and backward at the end. */
    method TogglePlayback(now: int)
      modifies this
      ensures State() == old(State()).(isPlaying := !old(isPlaying), lastTime := now,
        playDirection := if old(frameNumber) <= 0 then 1 else if old(frameNumber) >= old(frameTotal) then -1
          else old(playDirection))
      ensures LinesUnchanged()
    {
      isPlaying := !isPlaying;
      lastTime := now;
      if frameNumber <= 0 {
        playDirection := 1;
      } else if frameNumber >= frameTotal {
        playDirection := -1;
      }
    }

    /** Case 'x': the next blend mode. */
    method NextBlend()
      modifies this
      ensures State() == old(State()).(blendType := TruncRem(old(blendType) + 1, 3))
      ensures LinesUnchanged()
    {
      blendType := TruncRem(blendType + 1, 3);
    }

    /** Case 'a': one frame back, not below 0. */
    method StepBack()
      modifies this
      ensures State() == old(State()).(frameNumber := if old(frameNumber) - 1 < 0 then 0 else old(frameNumber) - 1)
      ensures LinesUnchanged()
    {
      frameNumber := frameNumber - 1;
      if frameNumber < 0 {
        frameNumber := 0;
      }
    }

    /** Case 'd': one frame forward, not past the last. */
    method StepForward()
      modifies this
      ensures State() == old(State()).(frameNumber :=
        if old(frameNumber) + 1 > old(frameTotal) then old(frameTotal) else old(frameNumber) + 1)
      ensures LinesUnchanged()
    {
      frameNumber := frameNumber + 1;
      if frameNumber > frameTotal {
        frameNumber := frameTotal;
      }
    }

    /** Case 'l': show or hide the debug lines. */
    method ToggleDebugLines()
      modifies this
      ensures State() == old(State()).(showDebugLines := !old(showDebugLines))
      ensures LinesUnchanged()
    {
      showDebugLines := !showDebugLines;
    }

    /** onKeyPress. `quit` is true when the program exits. */
    method OnKeyPress(key: char, now: int) returns (quit: bool)
      requires Valid()
      modifies this
      ensures Valid()
      ensures State() == KeyStep(old(State()), key, now).0
      ensures quit == KeyStep(old(State()), key, now).1
      ensures LinesUnchanged()
    {
      quit := false;
      if key == 'r' || key == 'R' {
        ToggleRecording(now);
      } else if key == 't' || key == 'T' {
        TogglePlayback(now);
      } else if key == 'x' || key == 'X' {
        NextBlend();
      } else if key == 'a' || key == 'A' {
        StepBack();
      } else if key == 'd' || key == 'D' {
        StepForward();
      } else if key == 'l' || key == 'L' {
        ToggleDebugLines();
      } else if IsQuitKey(key) {
        quit := true;
      }
    }

    /** The timeline part of onRender: while playing, move by the elapsed time and stop at
        either end of the timeline, closing the video. */
    method AdvanceFrame(currentTime: int)
      modifies this
      ensures State() == RenderStep(old(State()), currentTime).(lastTime := old(lastTime))
      ensures LinesUnchanged()
    {
      var elapsed := currentTime - lastTime;
      if isPlaying {
        frameNumber := Advance(frameNumber, elapsed, playDirection);
        if frameNumber < 0 {
          frameNumber := 0;
          isPlaying := false;
          vidOpened := false;
        }
        if frameNumber > frameTotal {
          frameNumber := frameTotal;
          isPlaying := false;
          vidOpened := false;
        }
      }
    }

    /** onRender at wall-clock time `currentTime`: advance and clamp the timeline, then, with
        the debug lines on, interpolate the line buffers at the frame's t. */
    method OnRender(currentTime: int) returns (t: real)
      requires Valid()
      modifies this, lineInterp
      ensures Valid()
      ensures State() == RenderStep(old(State()), currentTime)
      ensures t == T(State())
      ensures LinesUnchanged()
      ensures lineA[..] == old(lineA[..]) && lineB[..] == old(lineB[..])
      ensures showDebugLines ==> lineInterp[..] == Lerp(lineA[..], lineB[..], t)
      ensures !showDebugLines ==> lineInterp[..] == old(lineInterp[..])
    {
      AdvanceFrame(currentTime);
      t := frameNumber as real / frameTotal as real;
      if showDebugLines {
        InterpolateLines(lineA, lineB, lineInterp, numLines, t);
        assert lineA[..4 * numLines] == lineA[..] && lineB[..4 * numLines] == lineB[..];
        assert lineInterp[..4 * numLines] == lineInterp[..];
      }
      lastTime := currentTime;
    }
  }

  /** The image-size test of InitTexture as written: the heights are compared as
      `imgB->height != imgB->height`, which is never true. */
  predicate SizeMismatchAsWritten(widthA: int, heightA: int, widthB: int, heightB: int) {
    widthA != widthB || heightB != heightB
  }

  /** Two images of equal width and different heights pass the test as written. */
  lemma HeightMismatchMissed()
    ensures !SizeMismatchAsWritten(640, 480, 640, 360)
  {
  }

  /** The test the error message describes: the program stops unless both dimensions agree. */
  function SizeMismatch(widthA: int, heightA: int, widthB: int, heightB: int): (r: bool)
    ensures !r <==> (widthA, heightA) == (widthB, heightB)
  {
    widthA != widthB || heightA != heightB
  }

  /** The test as written stops the program only where the intended one does, and it lets through
      exactly the pairs of images that agree in width and differ in height. */
  lemma AsWrittenMissesOnlyHeight(widthA: int, heightA: int, widthB: int, heightB: int)
    ensures SizeMismatchAsWritten(widthA, heightA, widthB, heightB) ==> SizeMismatch(widthA, heightA, widthB, heightB)
    ensures SizeMismatch(widthA, heightA, widthB, heightB) && !SizeMismatchAsWritten(widthA, heightA, widthB, heightB)
      <==> widthA == widthB && heightA != heightB
  {
  }
}
