# Web screen saver, modelled in Dafny

`web-screen-saver.js` is a browser script that shows a ribbon animation after
five minutes without user input. Three ribbons are drawn on a full-window
canvas. Each ribbon has four points that wander over the canvas and bounce
off its edges. Each point remembers its last 30 positions, and the ribbon is
drawn as one closed curve per remembered depth, fading with age. The next
mouse, key, scroll or touch event removes the canvas and restarts the idle
countdown.

The model has seven modules, one file each:

- `config.dfy` (`Config`): the script's constants.
- `trail.dfy` (`Trail`): a point's trail, a bounded queue of positions with the newest first.
- `kinematics.dfy` (`Kinematics`): one frame of a point's motion, as pure functions on a `Motion` value. The motion is turned, accelerated, speed-clamped, moved and bounced.
- `color.dfy` (`Color`): base hues, stroke hues (JavaScript's truncating `%`) and opacity.
- `render.dfy` (`Render`): the strokes one ribbon yields for one frame, as values.
- `points.dfy` (`Points`): the class `Point`. Its fields are updated in place each frame, exactly as the script mutates its point objects. `PointState` is a value snapshot of a point, and `StepState` / `StepStates` state one frame on snapshots.
- `saver.dfy` (`Saver`): the class `ScreenSaver`. It holds the idle monitor's flags and the ribbon groups, and has one method per handler of the script: `resetTimer`, `startScreensaver`, `stopScreensaver`, `handleResize`, `initLineGroups` and `animate`.

The DOM becomes boolean fields: whether the style element and the canvas exist, and whether each is attached. The idle timers become a count of the timers that are scheduled and neither fired nor cleared, and the `requestAnimationFrame` handle becomes a flag. Everything the script reads from `Math.random`, `Math.cos`, `Math.sin`, `Math.sqrt` and `Date.now` arrives as a parameter. `Seed` carries the values for a new point, `Draw` the values for one point in one frame, and `now` the clock.

`ScreenSaver.Valid()` is the class invariant. It says:

- the effect is active exactly when the style and the canvas are attached and a frame is requested;
- at most one idle timer is pending, and none while the effect is active;
- there are none or three groups of four points, and no point is shared between two places;
- every trail holds `min(frames, 30)` positions, where `frames` counts the frames run since the groups were created.

The last point gives a second fact as a consequence: all trails of a group have one length, so the renderer's `history[i]` reads stay in bounds.

## Model

| member | source | states |
|---|---|---|
| Trail.Push | web-screen-saver.js:142-143 | the new position is in front, the older entries follow shifted by one, and the trail grows by one up to a cap of 30 entries |
| Trail.TrailOfRecent | web-screen-saver.js:142-143 | a trail that started empty and saw n positions holds min(n, 30) entries, and they are the most recent positions, newest first |
| Kinematics.LimitSpeed | web-screen-saver.js:124-131 | the clamp changes only the velocity, keeps its direction (it only rescales it by a positive factor), and leaves a speed already in [2, 5] alone |
| Kinematics.Turn | web-screen-saver.js:119 | only the heading changes, by at least -NOISE_SCALE / 2 and less than NOISE_SCALE / 2 for a random value in [0, 1) |
| Kinematics.Accelerate | web-screen-saver.js:120-121 | only the velocity changes, and by a push of length 0.2 when the cosine and sine inputs belong to one angle |
| Kinematics.StoppedByPush | web-screen-saver.js:120-121 | the push stops a point only if the point was moving at exactly 0.2 |
| Kinematics.AcceleratedMoves | web-screen-saver.js:119-127 | a point moving at speed 2 or more still moves after the push, so the square root of line 124 is of a positive number and the divisions of lines 126-130 are defined |
| Kinematics.LimitSpeedBounds | web-screen-saver.js:124-131 | after the clamp the squared speed lies between 2² and 5²: a speed below 2 becomes exactly 2, one above 5 exactly 5, and one in range is kept |
| Kinematics.Integrate | web-screen-saver.js:133-134 | the point travels exactly its speed; velocity and heading are kept |
| Kinematics.BounceX | web-screen-saver.js:137-138 | afterwards x lies in [0, width]; a point past an edge is put on it, its vx is reversed and its heading becomes PI - heading; a point inside is unchanged |
| Kinematics.BounceY | web-screen-saver.js:139-140 | afterwards y lies in [0, height]; a point past an edge is put on it, its vy is reversed and its heading is negated; a point inside is unchanged |
| Kinematics.Bounce | web-screen-saver.js:137-140 | the point ends inside the canvas, each velocity component is flipped exactly when its axis was left, and the speed is kept |
| Kinematics.BounceHeading | web-screen-saver.js:137-140 | the heading is mirrored once for each axis that was left |
| Kinematics.BounceIdempotent | web-screen-saver.js:137-140 | handling the edges again changes nothing |
| Kinematics.Advance | web-screen-saver.js:119-140 | one frame of motion ends inside the canvas, with the speed the clamp gave |
| Kinematics.AdvanceBounds | web-screen-saver.js:119-140 | after one frame the point lies inside the canvas and its speed lies in [2, 5] |
| Kinematics.AdvanceInsideKeepsVelocity | web-screen-saver.js:119-140 | a step that stays inside the canvas keeps the clamped velocity and only moves the point |
| Color.Rem360 | web-screen-saver.js:107 | JavaScript's `% 360`: the result has the sign of the dividend and is less than 360 in magnitude; a dividend already within range is returned unchanged |
| Color.BaseHue | web-screen-saver.js:105-108 | a group's base hue lies in [0, 360) |
| Color.HueSpacing | web-screen-saver.js:87-107 | one step of 120 degrees from a group's base hue gives the next group's, and from the last group's gives the first's |
| Color.Opacity | web-screen-saver.js:150 | opacity lies in (0, 0.5] for every drawn depth, and is 0.5 exactly at depth 0 |
| Color.OpacityFades | web-screen-saver.js:150 | an older depth is strictly more transparent |
| Color.StrokeHue | web-screen-saver.js:151 | the stroke hue lies in (-360, 360), and in [0, 360) once now/60 is at least twice the depth |
| Render.Mid | web-screen-saver.js:160-161 | the end point of a curve is equidistant from its two points on each axis |
| Render.Next | web-screen-saver.js:159 | the next point round the ribbon is in range and wraps from the last point to point 0 |
| Render.Segments | web-screen-saver.js:157-159 | one index pair per curve, three in all for four points, every index in range |
| Render.SegmentsCloseTheCycle | web-screen-saver.js:157-163 | the curves visit points 1 to 3 in turn, and the last one heads back to point 0, so the path is closed |
| Render.CurveAt | web-screen-saver.js:157-162 | the curve over segment c has point c + 1 as its control point and ends halfway to the point after it round the ribbon |
| Render.StrokeAt | web-screen-saver.js:149-165 | the path at one depth starts at point 0, curve c runs through point c + 1, the last curve ends halfway between point 3 and point 0, and the opacity lies in (0, 0.5] |
| Render.Strokes | web-screen-saver.js:147-148 | one stroke per depth the trails reach, capped at 30, with depths falling from the oldest to 0 |
| Render.StrokesLayering | web-screen-saver.js:147-166 | one stroke per depth the trails reach, capped at 30, drawn oldest first with strictly rising opacity; the newest stroke starts at point 0's latest position with opacity 0.5; every stroke has three curves, and the last curve ends at the midpoint of point 3 and point 0 |
| Points.Point.constructor | web-screen-saver.js:95-102 | the new point holds the given motion and an empty trail |
| Points.Point.Step | web-screen-saver.js:119-143 | one frame in place: the new state is Advance of the old one, the new position is pushed on the trail, the point is inside the canvas and its speed lies in [2, 5] |
| Points.Point.Steer | web-screen-saver.js:119-131 | the fields take the turned, accelerated and clamped velocity and heading |
| Points.Point.Move | web-screen-saver.js:133-140 | the fields take the moved and bounced state |
| Points.Point.Remember | web-screen-saver.js:142-143 | the history becomes Push of the old history and the current position |
| Points.StepState | web-screen-saver.js:119-143 | after one frame the point lies inside the canvas, its new position heads its trail, the older entries follow, and the trail grows by one up to 30 |
| Points.StepStates | web-screen-saver.js:117-144 | every point of a sequence takes its frame; each ends inside the canvas with its new position at the head of its trail |
| Points.StepStatesTrails | web-screen-saver.js:142-143 | trails that all hold min(n, 30) positions all hold min(n + 1, 30) after a frame |
| Points.StepEach | web-screen-saver.js:117-144 | every point of a group takes one step, with its own draw, and the group's snapshot becomes StepStates of the old one |
| Saver.Spawn | web-screen-saver.js:94-101 | a new point starts at speed 2 when the cosine and sine inputs belong to one angle |
| Saver.SpawnInViewport | web-screen-saver.js:94-100 | with random values in [0, 1), a new point lies inside the viewport and its heading in [0, 2 PI) |
| Saver.Spawned | web-screen-saver.js:95-102 | one new point state per seed, each with an empty trail |
| Saver.SpawnedAll | web-screen-saver.js:91-103 | one list of new point states per group, all trails empty |
| Saver.SpawnGroup | web-screen-saver.js:92-103 | four fresh point objects, holding the spawned states, each recorded in its own slot |
| Saver.SpawnGroups | web-screen-saver.js:89-109 | three groups of four fresh points, group g with base hue BaseHue(startOffset, g), each point recorded under its own group and index |
| Saver.StepAllTrails | web-screen-saver.js:142-143 | across all groups, trails of min(n, 30) positions hold min(n + 1, 30) positions after a frame |
| Saver.TrailsUniform | web-screen-saver.js:147-158 | four trails of one common length can be rendered |
| Saver.RenderGroup | web-screen-saver.js:147-167 | the loop over depths 29 down to 0 produces exactly the strokes Strokes describes for the group's trails |
| Saver.ScreenSaver.constructor | web-screen-saver.js:2-12 | the script starts inactive, with no timer, frame, style, canvas or groups |
| Saver.ScreenSaver.StopScreensaver | web-screen-saver.js:69-82 | afterwards the effect is off, no frame is requested, and the style and the canvas are detached; when all of that already held, nothing changes (stopping twice is stopping once) |
| Saver.ScreenSaver.ResetTimer | web-screen-saver.js:34-38 | afterwards the effect is off, the previously pending idle timer is cleared, and exactly one idle timer of 300000 ms is pending |
| Saver.ScreenSaver.RemoveStyle | web-screen-saver.js:74-76 | removing the style needs it attached, which the guard of line 74 ensures; afterwards it is detached |
| Saver.ScreenSaver.RemoveCanvas | web-screen-saver.js:79-81 | removing the canvas needs it attached, which the guard of line 79 ensures; afterwards it is detached |
| Saver.ScreenSaver.Init | web-screen-saver.js:19-20 | at page load the first idle timer is armed: afterwards the effect is off and exactly one timer of 300000 ms is pending |
| Saver.ScreenSaver.HandleResize | web-screen-saver.js:27-32 | while active with a canvas, the canvas takes the new viewport size; otherwise the size is kept; the points are untouched |
| Saver.ScreenSaver.InitLineGroups | web-screen-saver.js:84-110 | three groups of four fresh points with empty trails, the spawned positions and headings, and base hues 120 degrees apart from the random offset |
| Saver.ScreenSaver.Show | web-screen-saver.js:41-64 | the effect is marked active, and the style and a canvas of the viewport's size are created and attached |
| Saver.ScreenSaver.StartScreensaver | web-screen-saver.js:40-67 | afterwards the effect is on with style, canvas and next frame in place, fresh groups have run exactly one frame from their spawned states, and the strokes drawn are those of the new trails |
| Saver.ScreenSaver.IdleTimerFires | web-screen-saver.js:37 | when the pending idle timer fires, no timer is pending any more and the effect starts as StartScreensaver states |
| Saver.ScreenSaver.StepGroup | web-screen-saver.js:117-144 | every point of one group takes one step, and the points of the other groups are unchanged |
| Saver.ScreenSaver.GroupDistinct | web-screen-saver.js:92-103 | the points of one group are distinct objects |
| Saver.ScreenSaver.OthersApart | web-screen-saver.js:92-109 | no point of one group belongs to another group |
| Saver.ScreenSaver.UniformTrails | web-screen-saver.js:147-158 | under the invariant, every group's trails have the common length that the renderer's indexing needs |
| Saver.ScreenSaver.Animate | web-screen-saver.js:112-171 | when inactive, nothing changes and nothing is drawn; when active, every point of every group takes one step, the trail invariant is kept with one more frame, the next frame is requested, and the strokes are those of the new trails |
| Saver.ScreenSaver.StepFrame | web-screen-saver.js:114-145 | one frame's motion: all groups step, the frame count rises by one and the invariant holds again |
| Saver.ScreenSaver.StepGroups | web-screen-saver.js:116-145 | the snapshot of all groups becomes StepAll of the old snapshot, and the screen saver's own fields are unchanged |
| Saver.ScreenSaver.DrawGroups | web-screen-saver.js:147-168 | every group can be rendered, and the strokes are DrawAll of the current snapshot |

`Saver.StepAll` and `Saver.DrawAll`, through which the group-level rows are stated, only apply `StepStates` and `Strokes` to each group in turn, group g with its own draws and its own base hue.

## Left out

- Event registration is not modelled. `init`, run by `window.onload` (lines 19-25, 173), arms the first idle timer with `resetTimer()`, which `Init` models, and registers the handlers. After that, input events are calls to `ResetTimer`, and resize events are calls to `HandleResize`. The script does not reset the idle timer on resize, and neither does the model.
- DOM details are left out: the style text, the canvas's CSS, `getContext`, `clearRect`, `strokeStyle` strings and `lineWidth` (lines 43-64, 114, 152-153, 164-165). Only whether the style and canvas exist and are attached is kept. The drawing calls become `Stroke` values.
- Timer handles and animation-frame handles are not modelled. `setTimeout` adds one to `pendingTimers` and records `timerDelay`, and `clearTimeout` of the one kept handle cancels that timer. `requestAnimationFrame` and `cancelAnimationFrame` become `frameRequested`. The passage of time is the caller choosing when to call `IdleTimerFires` and `Animate`.
- `Math.random`, `Math.cos`, `Math.sin`, `Math.sqrt` and `Date.now` are inputs. Nothing requires the cosine and sine inputs to belong to one angle. `Accelerate` and `Spawn` state the lengths they give when they do. The square-root input must be the exact positive root, as `Fits` states.
- The clock is read once per frame, as the single input `now`. The script calls `Date.now()` again for every stroke it draws (line 151), so strokes of one frame can differ by a millisecond tick in their hue; the model gives them all the same clock value.
- Points.Point.Step demands, through `Fits`, a positive speed after the push; a zero speed would make the script divide by zero at lines 126-127. The script never reaches that case. A point spawns at speed 2 (`Spawn`), every frame leaves its speed in [2, 5] (`AdvanceBounds`), and `AcceleratedMoves` shows that the push then leaves a positive speed. `Fits` itself does not record that history.
- Numbers are mathematical reals, not IEEE doubles. Rounding is not modelled, and `Math.PI` is its 16-digit decimal literal.
- Canvas width and height are natural numbers, as DOM canvas dimensions are.
- Stopping keeps the groups, as lines 69-82 do. The invariant therefore allows zero or three groups whenever the effect is off.
- The model does not track the style and canvas elements left behind by an earlier session. The script creates new ones on every start and drops the old detached ones.
- Saver.ScreenSaver.Animate moves all groups first and then draws them, whereas the script draws each group right after moving its points. No point is shared between groups and drawing changes no point, so the final state and the strokes are the same.
