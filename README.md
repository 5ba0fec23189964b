# facemorphing: a verified model of the marking tools and the morph helpers

This project models the interactive core of the face-morphing repository in Dafny and proves properties of it:

- **The line editor** (`src/mark_lines.py`). It holds a vertex buffer of image points and an index buffer of segments between them. Left-button releases chain segments, a right-button release deletes at most the first two segments at the vertex it hits, and dragging with the left button moves a vertex. The buffers are loaded from and saved to a line file of `ax ay bx by` rows.
- **The point-pair marker** (`src/mark-pair.py`, and `src/mark_pair.py`, the same program with the list renamed `lineList`). Two windows take turns collecting corresponding points. While the left window has the focus, a right click in either window deletes the pair whose point in that window is the first one within box radius 3 of the click.
- **The OpenGL morph player** (`image_morphing/image_morphing/main.cpp`). Its globals form a timeline of frames `0 .. frameRate * duration`. The keyboard and a clock-driven render step move along it. The player also keeps the flat float buffers of feature lines that `InitLine` reads and `interpolateLines` blends for the debug overlay.
- **The geometric helpers of the Python Beier-Neely morpher** (`src/image_morph.py`): `perpendicular`, `interpolateLines`, `calcU`, the numerator of `calcV`, the distance case split of `imageMorph`, and `readLineData`.

## Modules

- `LineFiles.dfy` holds the shared values: points, line-file rows, the closed-box point search (`search_point`) and Python's `del s[i]`.
- `MarkLines.dfy` holds the editor.
  - Class `Editor` keeps its four fields: `vertexBuffer`, `indexBuffer`, `prevPt` and `dragPt`.
  - Each method is tied to value-level functions: `LoadRows`, `SaveRows`, `FirstTwoAdjacent` and `Keep`.
- `MarkPair.dfy` holds the pair marker, class `PairMarker` with `focus` and `ptlist`.
- `MorphPlayer.dfy` holds the player.
  - Class `Player` has the globals as fields and the line buffers as arrays.
  - Its methods are specified by the pure transitions `KeyStep` and `RenderStep` on a `PlayerState` value.
  - They are also specified by `Flatten` and `Lerp` on the buffers.
- `BeierNeely.dfy` holds the Python helpers as pure functions over exact reals.
  - Products are written through `Mul`.
  - `v` is modelled by its numerator, and distances by their squares, so no square root is needed.

## Behaviour of the code worth knowing

- **mark_lines.py.** Right-click deletion searches the vertex buffer with box radius 4 (`src/mark_lines.py:93`).
  - A release first ends a drag, then ends a chain when it lies within squared distance 25 of the pending point. Otherwise it snaps to a vertex within box radius 15 (`src/mark_lines.py:57-89`).
  - A drag starts on the first mouse move with the left button held, and it does not clear the pending point (`src/mark_lines.py:103-111`).
- **main.cpp.** `frameNumber` is an `int`, so the render step stores the real position truncated toward zero (`image_morphing/image_morphing/main.cpp:204`).
  - As a result, forward steps shorter than one frame period never advance the timeline (`ShortForwardStepStalls`).
  - Backward steps of the same length drop a whole frame (`ShortBackwardStepDrops`).
  - Line 137 writes `blendType = ++blendType % 3`: one increment and one assignment to the same variable. That is undefined before C++11 and equals `(blendType + 1) % 3` since C++11; the model uses `(blendType + 1) % 3`.
- **image_morph.py.** `interpolateLines` weights the source lines by `t` (`src/image_morph.py:208-209`). This is the reverse of the player, which weights its first buffer by `1 - t` (`InterpolateLinesIsReversedLerp`).

## Model

| member | source | states |
|---|---|---|
| LineFiles.FirstInBox | src/mark_lines.py:23-34 | the index of the first point in the closed box of the given radius, or -1 exactly when no point is in it |
| LineFiles.FirstInBoxExtend | src/mark_lines.py:29-33 | appending points never changes a search that already found a point |
| LineFiles.DeleteAt | src/mark-pair.py:59-60 | `del s[i]` shortens by one, keeps the elements before `i` and shifts the rest down |
| MarkLines.SearchPoint | src/mark_lines.py:23-34 | the loop returns the first vertex in the box, or -1 exactly when none is in it |
| MarkLines.AdjacentLines | src/mark_lines.py:15-17 | the ascending indices of segments touching the vertex |
| MarkLines.AdjacentLinesComplete | src/mark_lines.py:15-17 | no touching segment is missed |
| MarkLines.AdjacentLinesPrefix | src/mark_lines.py:15-19 | scanning further only appends to what a shorter scan found |
| MarkLines.FirstTwoFound | src/mark_lines.py:18-19 | once the scan has found two touching segments, the segments not yet scanned cannot change the answer |
| MarkLines.FirstTwoAdjacentSpec | src/mark_lines.py:13-20 | search_lines returns min(degree, 2) touching segments, ascending, and every touching segment it leaves out comes after both |
| MarkLines.SearchLines | src/mark_lines.py:13-20 | the early-return loop computes exactly the first two touching segments |
| MarkLines.Keep | src/mark_lines.py:97-99 | the kept segments are never more than the buffer held |
| MarkLines.KeepFrom | src/mark_lines.py:97-99 | every kept segment was in the buffer |
| MarkLines.KeepValid | src/mark_lines.py:97-99 | deleting segments keeps every remaining segment index a vertex |
| MarkLines.KeepNothing | src/mark_lines.py:97-99 | deleting no listed index keeps the buffer |
| MarkLines.KeepDeleteAt | src/mark_lines.py:97-99 | deleting a lower index after the higher ones is one `del` on what they kept |
| MarkLines.KeepLength | src/mark_lines.py:97-99 | deleting an ascending list of valid indices removes exactly that many segments |
| MarkLines.LoadRow | src/mark_lines.py:144-148 | one row appends two vertices and one segment |
| MarkLines.LoadRowSpec | src/mark_lines.py:144-148 | one row keeps both buffers as prefixes, appends its two endpoints in order, and adds a segment between the first vertices within radius 1 of them, neither past the vertex just appended for it |
| MarkLines.LoadRowValid | src/mark_lines.py:144-148 | one row keeps every segment index a vertex |
| MarkLines.LoadRowsStep | src/mark_lines.py:143-148 | the rows are processed one after another in file order |
| MarkLines.LoadRowsShape | src/mark_lines.py:143-148 | n rows append 2n vertices and n segments, keep the old buffers as prefixes and keep every segment index valid |
| MarkLines.LoadedAtExtend | src/mark_lines.py:143-148 | loading a further row leaves what an earlier row became unchanged, because the point search keeps finding the earlier vertex |
| MarkLines.LoadRowsAt | src/mark_lines.py:143-148 | row i becomes vertices n+2i and n+2i+1 and segment m+i, which links the first vertices of the final buffer near its endpoints |
| MarkLines.LoadRowsNear | src/mark_lines.py:143-148 | the segment loaded from row i links two vertices within radius 1 of the row's endpoints |
| MarkLines.SaveRowsAt | src/mark_lines.py:150-154 | saved row k holds the coordinates of the two vertices of segment k |
| MarkLines.LoadKeepsSaved | src/mark_lines.py:143-153 | loading more rows never changes how the existing segments save |
| MarkLines.LoadThenSave | src/mark_lines.py:136-154 | saving right after loading writes one row per loaded row, each within 1 of the row it came from in every coordinate |
| MarkLines.Editor.constructor | src/mark_lines.py:127-132 | empty buffers and no pending or dragged vertex, then the lines of the file when it opens |
| MarkLines.Editor.LoadLines | src/mark_lines.py:136-148 | a missing file changes nothing; otherwise the buffers become LoadRows of the old ones |
| MarkLines.Editor.AppendRow | src/mark_lines.py:144-148 | one loop iteration is exactly LoadRow |
| MarkLines.Editor.SavePoints | src/mark_lines.py:150-154 | one row per segment, in index-buffer order, with the coordinates of its two vertices |
| MarkLines.Editor.OnLeftButtonUp | src/mark_lines.py:57-89 | a release ends a drag, or ends the chain near the pending point, or snaps to or adds a vertex and links it to the pending one, keeping the buffers valid |
| MarkLines.Editor.OnRightButtonUp | src/mark_lines.py:92-100 | with a vertex within radius 4, clears the pending point and deletes its first min(degree, 2) segments; otherwise nothing changes |
| MarkLines.Editor.DeleteLines | src/mark_lines.py:97-99 | deleting from the highest index down removes exactly the listed segments and keeps every other one in order |
| MarkLines.Editor.OnMouseMove | src/mark_lines.py:103-111 | with the left button held, only the dragged vertex moves, to the refined point; no vertex near means no change |
| MarkPair.SearchPoint | src/mark-pair.py:13-27 | (i, px, py) of the first point in the closed box, else (-1, -1, -1) |
| MarkPair.WritePoints | src/mark-pair.py:90-94 | one `x y` row per point, in list order |
| MarkPair.DeleteBothIsDeletePair | src/mark_pair.py:57-60 | deleting the same index from both lists deletes exactly that pair and keeps the rest aligned |
| MarkPair.AppendBothIsAppendPair | src/mark_pair.py:45-52 | a left click in each window in turn appends one pair |
| MarkPair.PairMarker.constructor | src/mark-pair.py:82-84 | focus on the left window and two empty lists |
| MarkPair.PairMarker.OnLeftButtonDown | src/mark-pair.py:45-52 | only the window with the focus appends the refined point and passes the focus on; the left list stays ahead by at most one |
| MarkPair.PairMarker.OnRightButtonDown | src/mark-pair.py:55-60 | only with the focus on the left window, and only for a point within box radius 3, deletes that index from both lists, which removes one pair |
| MarkPair.PairMarker.SavePoints | src/mark-pair.py:89-102 | the two point files have one row per point and differ in length by the focus |
| MorphPlayer.TruncDiv | image_morphing/image_morphing/main.cpp:204 | the quotient truncated toward zero, with the bounds for either sign |
| MorphPlayer.TruncRem | image_morphing/image_morphing/main.cpp:137 | C's remainder: n = q d + r, with r carrying the sign of n |
| MorphPlayer.Advance | image_morphing/image_morphing/main.cpp:200-204 | the new frame is the real position frameNumber + elapsed/1000 * direction * frameRate truncated toward zero |
| MorphPlayer.InitialState | image_morphing/image_morphing/main.cpp:507-512 | frame 0, not playing, no video open, and a valid state |
| MorphPlayer.T | image_morphing/image_morphing/main.cpp:218 | t lies in [0, 1]; it is 0 exactly at frame 0 and 1 exactly at the last frame |
| MorphPlayer.KeyStep | image_morphing/image_morphing/main.cpp:112-177 | every key's effect on the globals, which keys quit, and that valid states stay valid |
| MorphPlayer.RenderStep | image_morphing/image_morphing/main.cpp:196-239 | advance while playing, clamp to [0, frameTotal] and stop playback and video at either end, always record the time, and keep the state valid |
| MorphPlayer.NextBlendStep | image_morphing/image_morphing/main.cpp:135-137 | from a valid mode, 'x' moves to the next one and wraps from 2 to 0 |
| MorphPlayer.BlendCycles | image_morphing/image_morphing/main.cpp:135-137 | three presses of 'x' restore the state |
| MorphPlayer.ForwardThenBack | image_morphing/image_morphing/main.cpp:147-161 | 'd' then 'a' below the last frame restores the state |
| MorphPlayer.RenderFollowsDirection | image_morphing/image_morphing/main.cpp:202-204 | playback never moves against its direction |
| MorphPlayer.ShortForwardStepStalls | image_morphing/image_morphing/main.cpp:200-204 | a forward step shorter than one frame period leaves the frame unchanged |
| MorphPlayer.ShortBackwardStepDrops | image_morphing/image_morphing/main.cpp:200-210 | the same step backward drops one whole frame, and at frame 0 it neither moves nor stops |
| MorphPlayer.FlattenAt | image_morphing/image_morphing/main.cpp:461-469 | entries 4i..4i+3 of the buffer are row i with both y values flipped |
| MorphPlayer.FlattenRoundTrip | image_morphing/image_morphing/main.cpp:463-468 | the flip loses nothing: reading the buffer back gives the rows in order |
| MorphPlayer.LerpEnds | image_morphing/image_morphing/main.cpp:595 | t = 0 gives the first buffer and t = 1 the second |
| MorphPlayer.LerpBetween | image_morphing/image_morphing/main.cpp:595 | for t in [0, 1] each blended value lies between its two end values |
| MorphPlayer.InterpolateLines | image_morphing/image_morphing/main.cpp:592-596 | writes exactly the first 4·size entries with the blend of the old inputs, leaves the rest, and changes no input it does not alias |
| MorphPlayer.ReadLineFile | image_morphing/image_morphing/main.cpp:460-473 | a fresh array holding the flipped rows in file order |
| MorphPlayer.Player.constructor | image_morphing/image_morphing/main.cpp:504-512 | the initial globals and empty, freshly allocated line buffers |
| MorphPlayer.Player.InitLine | image_morphing/image_morphing/main.cpp:454-502 | both buffers are the flipped files; it fails exactly on unequal line counts, and otherwise numLines is the count and the output buffer is fresh |
| MorphPlayer.Player.ToggleRecording | image_morphing/image_morphing/main.cpp:116-123 | 'r' marks the video open, toggles playback, records the time and plays forward, and changes nothing else |
| MorphPlayer.Player.TogglePlayback | image_morphing/image_morphing/main.cpp:124-133 | 't' toggles playback and records the time, turning forward at frame 0 and backward at the last frame, and changes nothing else |
| MorphPlayer.Player.NextBlend | image_morphing/image_morphing/main.cpp:135-145 | 'x' changes only the blend mode, to its successor modulo 3 |
| MorphPlayer.Player.StepBack | image_morphing/image_morphing/main.cpp:147-153 | 'a' changes only the frame, one back but not below 0 |
| MorphPlayer.Player.StepForward | image_morphing/image_morphing/main.cpp:155-161 | 'd' changes only the frame, one forward but not past the last |
| MorphPlayer.Player.ToggleDebugLines | image_morphing/image_morphing/main.cpp:163-167 | 'l' changes only whether the debug lines are shown |
| MorphPlayer.Player.OnKeyPress | image_morphing/image_morphing/main.cpp:112-177 | the globals change as KeyStep says, and the line buffers do not change |
| MorphPlayer.Player.AdvanceFrame | image_morphing/image_morphing/main.cpp:200-216 | the frame, playback and video flags become those of RenderStep, with the line buffers and the recorded time unchanged |
| MorphPlayer.Player.OnRender | image_morphing/image_morphing/main.cpp:196-239 | the globals change as RenderStep says and t is the new frame's; with debug lines on, the output buffer holds the blend at t |
| MorphPlayer.HeightMismatchMissed | image_morphing/image_morphing/main.cpp:251 | the test as written accepts a 640x480 and a 640x360 image |
| MorphPlayer.SizeMismatch | image_morphing/image_morphing/main.cpp:251-256 | the program stops exactly when the sizes differ |
| MorphPlayer.AsWrittenMissesOnlyHeight | image_morphing/image_morphing/main.cpp:251 | the test as written lets through exactly the pairs with equal widths and different heights |
| BeierNeely.Perpendicular | src/image_morph.py:9-10 | orthogonal to its input and of the same squared length |
| BeierNeely.PerpendicularTwice | src/image_morph.py:9-10 | applying it twice negates the vector |
| BeierNeely.PerpendicularLinear | src/image_morph.py:9-10 | it commutes with scaling |
| BeierNeely.InterpolateLines | src/image_morph.py:203-211 | one line per source line, in order, each blending source by t and destination by 1 - t |
| BeierNeely.InterpolateLinesEnds | src/image_morph.py:208-209 | t = 1 gives the source lines and t = 0 the destination lines |
| BeierNeely.BlendLineIsReversedLerp | src/image_morph.py:208-209 | one blended line is the player's blend with the two lines exchanged |
| BeierNeely.InterpolateLinesIsReversedLerp | src/image_morph.py:203-211 | flattened, the Python interpolation is the player's with the two line sets exchanged |
| BeierNeely.CalcU | src/image_morph.py:251-257 | there is no value exactly when P = Q, where numpy divides by zero |
| BeierNeely.CalcUValue | src/image_morph.py:251-257 | u = ((X - P)·(Q - P)) / \|Q - P\|², the same value written with calcV's vectors |
| BeierNeely.CalcUProjects | src/image_morph.py:251-257 | X - P - u(Q - P) is orthogonal to the line: u locates the foot of the perpendicular |
| BeierNeely.CalcUOnLine | src/image_morph.py:251-257 | the point P + s(Q - P) has u = s |
| BeierNeely.CalcUAtEnds | src/image_morph.py:251-257 | u is 0 at X = P and 1 at X = Q |
| BeierNeely.CalcVNumeratorAtEnds | src/image_morph.py:272-279 | the numerator of v is 0 at X = P and at X = Q |
| BeierNeely.Decomposition | src/image_morph.py:251-279 | X - P = u(Q - P) + (v/\|Q - P\|)·perpendicular(Q - P), so u and v determine X |
| BeierNeely.ChooseDistance | src/image_morph.py:122-129 | Q when u ≥ 1, P when u ≤ 0, otherwise the perpendicular; the cases are exhaustive and u ≥ 1 wins |
| BeierNeely.SqDistance | src/image_morph.py:122-129 | the squared distance has a value exactly when P ≠ Q |
| BeierNeely.Lagrange | src/image_morph.py:251-279 | \|Q - P\|² \|X - P\|² is the square of calcU's numerator plus the square of calcV's numerator |
| BeierNeely.OffsetIdentity | src/image_morph.py:122-129 | \|Q - P\|² times the squared distance from X to the point with parameter s is v's numerator squared plus the square of (u - s)\|Q - P\|² |
| BeierNeely.SqDistanceAttained | src/image_morph.py:122-129 | the chosen squared distance is the distance to the segment point at the clamped parameter |
| BeierNeely.SqDistanceIsNearest | src/image_morph.py:122-129 | the chosen distance is the distance from X to the nearest point of segment PQ |
| BeierNeely.ReadLineData | src/image_morph.py:282-291 | one line per row |
| BeierNeely.ReadLineDataRoundTrip | src/image_morph.py:287-291 | row (x, y, u, v) becomes the line from (x, y) to (u, v), in row order |

## Left out

- Graphics: GL, GLUT and GLEW in main.cpp. This covers context setup, textures, shaders, quad and line drawing and framebuffer checks, which are foreign graphics calls.
  - `MakeMorphImage` and the shader are not part of this model.
  - Only the size test of `InitTexture` is modelled, as a finding.
- Video output: the video writer in main.cpp, except the `vidOpened` flag. Opening, closing and writing frames is file output.
- Timer callback: the GLUT timer callback `onUpdate`. Render steps are method calls with the clock value as a parameter, and `glutGet(GLUT_ELAPSED_TIME)` is that parameter.
- Line-file parsing: the `fscanf` and `np.genfromtxt` parsing and the text formatting of saved rows. Files are sequences of parsed rows.
  - The behaviour of `fscanf` on a malformed row is not modelled.
  - Neither is `genfromtxt`'s one-dimensional result for a file of a single row.
- Quit steps: program exit and the exit on unequal line counts. Quit is a returned flag and `InitLine` returns `false`.
- Floating point: float and double rounding. All coordinates are exact reals, and frame times are integer milliseconds.
- Corner refinement: `cv.FindCornerSubPix`, a foreign sub-pixel refinement. Each handler takes its result as the parameter `refined`.
- Display: drawing, windows, `WaitKey` event loops and console messages.
- `imageMorph`: its pixel loop, weights, `calcXPrime`, sampling and cross-dissolve in image_morph.py. These are floating-point numerics over whole images.
- `morphMain` and the module-level driver code: these are file and video I/O.
- BeierNeely.CalcU: for P = Q numpy yields NaN, and `imageMorph` then falls into the "otherwise" branch. The model has no value there instead of modelling NaN.
- BeierNeely.SqDistance: distances are squared, because `la.norm` and `abs(v)` take square roots. v is modelled by its numerator `(X - P)·perpendicular(Q - P)`, without the division by `|Q - P|`.
- BeierNeely.InterpolateLines: the requires `|sourceLines| <= |destinationLines|` excludes the case where `destinationLines` is shorter, in which `interpolateLines` raises IndexError at `src/image_morph.py:208`; the driver never compares the two line counts before `morphMain()`, and the model does not capture that error.
- MorphPlayer.KeyStep: the 'x' case keeps `blendType` in {0, 1, 2} only for a value already in that range; the program never produces another.
- MarkLines.Editor.OnLeftButtonUp: the `print` of the added line is left out.

## Findings

| source | as written | input that shows it | evidently intended | confidence | as-written member | corrected member |
|---|---|---|---|---|---|---|
| image_morphing/image_morphing/main.cpp:251 | the height test compares `imgB->height` with itself, so it is never true | image A 640x480, image B 640x360: the program goes on with images of different heights | stop unless both width and height agree, as the message "Image size not identical" says | not executed | MorphPlayer.HeightMismatchMissed | MorphPlayer.SizeMismatch |
