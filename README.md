# vedo applications: a verified model

This is a Dafny model of the state machines and arithmetic behind the
interactive applications in vedo's `vedo/applications.py`. Scene objects,
meshes and widgets are reduced to the values these applications read and
write. The model covers:

- **`Animation`.** The transition methods (`fade_in`, `change_color`,
  `move`, `rotate`, `mesh_erode`, …) book timed events. `_parse` fills in
  omitted arguments from the previous call and quantises times to
  `time_resolution`. `play` sorts the events stably by time, replays them
  on the scene objects, and renders a frame whenever the clock advances by
  more than `eps`.
- **`AnimationPlayer`.** A frame index is stepped through
  `[min_value, max_value)` by a timer, a play/pause button, two step
  buttons and a slider. In loop mode the index wraps. Otherwise it is
  clamped and playback pauses.
- **`MorphPlotter` and `MorphByLandmarkPlotter`.** These edit lists of
  landmark pairs. The first alternates picks between the source and target
  meshes. The second moves the selected target point with the arrow and
  normal keys by a step that the `+`/`-` keys change.
- **`SplinePlotter` and `FreeHandCutPlotter`.** These edit a list of
  control points. The free-hand cutter also cuts the mesh along the drawn
  line, undoes one edit, and names the saved file.
- **Smaller pieces:**
  - `ImageEditor`: the 8-bit pixel arithmetic and the saved file's name.
  - `Browser`: the one-object-per-list slider.
  - `Slicer3DPlotter`: the colour-range clamp and its slice sliders.
  - `Clock`: the modular hour and minute arithmetic.

Each module is in its own file:

- `wrappers.dfy`: `Option` and `Result`.
- `pyops.dfy`: the Python list, string and `os.path` semantics the
  applications rely on.
- `quantize.dfy`: `int()`, time quantisation, `np.linspace` and linear
  interpolation.
- `events.dfy`: events, their playback on the scene, the stable sort and
  the frame rule.
- `booking.dfy`: the events each transition books.
- `animation.dfy`: the `Animation` class.
- `player.dfy`: the `AnimationPlayer` class.
- `morph.dfy`, `landmark.dfy`, `spline.dfy`, `freehand.dfy`,
  `image_edit.dfy`, `browser.dfy`, `slicer.dfy` and `clock.dfy`: the other
  applications.

Times, positions and values are exact `real`s. Python's `int()` on a float
truncates toward zero, and the model does the same (`Quantize.Trunc`).

## Model

| member | source | states |
|---|---|---|
| PyOps.PyIndex | vedo/applications.py:997-1012 | `targets[pid]` accepts exactly `-n <= pid < n`, and a negative index counts from the end |
| PyOps.PyPrefix | vedo/applications.py:617-619 | `xs[:k]` is a prefix of `xs` of length `k`, or `len + k` for negative `k`, clipped at both ends |
| PyOps.RemoveAllAbsent | vedo/applications.py:2186 | `str.replace` leaves a string without occurrences unchanged |
| PyOps.RemoveAllKeeps | vedo/applications.py:2186 | `str.replace` never introduces a character that was absent |
| PyOps.RemoveAllTail | vedo/applications.py:2186-2187 | removing a border-free pattern from `s + pat`, where `s` does not contain it, gives back `s` |
| PyOps.AfterLast | vedo/applications.py:2184 | the position after the last `c`: nothing after it is `c`, and it is 0 exactly when `c` is absent |
| PyOps.FirstIndex | vedo/applications.py:2494 | the first `c`: nothing before it is `c`, and it is the length exactly when `c` is absent |
| PyOps.Basename | vedo/applications.py:2184 | `os.path.basename` is a '/'-free suffix of the path |
| PyOps.AfterLastConcat | vedo/applications.py:2184-2185 | the last '/' or '.' of `a + b` lies in `b` whenever `b` has one |
| PyOps.BasenameOf | vedo/applications.py:2184 | the base name of `dir/name` is `name` |
| PyOps.SplitExt | vedo/applications.py:2185 | `os.path.splitext` splits the name into two parts that concatenate back to it, the second empty or a dot with no other dot |
| PyOps.FirstField | vedo/applications.py:2494 | `split('.')[0]` is a dot-free prefix |
| PyOps.LastField | vedo/applications.py:2494 | `split('.')[-1]` is a dot-free suffix |
| PyOps.RoundHalfEven | vedo/applications.py:3094 | `round(x)` is the nearest integer, with halves going to the even one |
| Quantize.Trunc | vedo/applications.py:2591-2592 | `int(x)` rounds toward zero |
| Quantize.Steps | vedo/applications.py:2591-2592 | `int(x/res + 0.5)` is the nearest whole number of steps for `x/res >= 0` |
| Quantize.Linspace | vedo/applications.py:2595 | `np.linspace(a, b, num)` has `num` values, starting at `a` and ending at `b` |
| Quantize.SamplesAreSteps | vedo/applications.py:2591-2595 | the `k`-th sample of a quantised interval is `t + k*res` |
| Quantize.Lerp | vedo/applications.py:2620 | interpolation takes `y0` at `x0` and `y1` at `x1` |
| Quantize.LerpAtStep | vedo/applications.py:2620 | at the `k`-th of `n` steps, interpolation is `k/n` of the way |
| Quantize.LerpMonotone | vedo/applications.py:2620 | inside its interval, interpolation stays between its end values and keeps their order |
| Events.Perform | vedo/applications.py:2621-2875 | the playback branches: fade-in never lowers alpha, fade-out never raises it, erosion changes nothing, and move and rotate touch only the first performer |
| Events.ApplyFrom | vedo/applications.py:2895-2896 | replaying an event keeps the set of scene objects |
| Events.ApplyLeavesOthers | vedo/applications.py:2895-2896 | replaying an event changes no object outside its performers |
| Events.ApplyIgnoresTime | vedo/applications.py:2895-2896 | playback does not depend on the event's time |
| Events.Replay | vedo/applications.py:2893-2896 | replaying a list keeps the set of scene objects |
| Events.FadeInNeverLowers | vedo/applications.py:2621-2627 | a fade-in event never lowers any object's alpha |
| Events.FadeOutNeverRaises | vedo/applications.py:2635-2640 | a fade-out event never raises any object's alpha |
| Events.FadeOutsNeverRaise | vedo/applications.py:2635-2640 | replaying fade-outs leaves every alpha at or below where it started |
| Events.ApplyEstablishes | vedo/applications.py:2895-2896 | when every place of `o` among an event's performers leaves it satisfying a property, so does playing the event |
| Events.ReplayEstablishes | vedo/applications.py:2893-2896 | when the last event of a list leaves `o` satisfying a property, so does replaying the list |
| Events.ApplyScalesOnce | vedo/applications.py:2843-2845 | a scale event acts on a performer listed once as one playback of it, wherever it stands |
| Events.ReplayPlaysAll | vedo/applications.py:2893-2896 | replaying scale events, each listing `o` once, leaves `o` as the events acting on it in order |
| Events.PlayAllScales | vedo/applications.py:2843-2845 | scaling one event after another multiplies the scale by the product of the factors |
| Events.ReplayScales | vedo/applications.py:2843-2845 | scale events compound: the product of their factors multiplies the scale |
| Events.ChangeAlphaSets | vedo/applications.py:2652-2653 | an alpha-setting event sets each of its performers to its value |
| Events.ReplayLastAlpha | vedo/applications.py:2652-2653 | after alpha-setting events that all include `o`, `o` has the last one's alpha |
| Events.InsertSorts | vedo/applications.py:2880 | insertion keeps a list sorted by time and adds exactly one event |
| Events.SortSorts | vedo/applications.py:2880 | `sorted(events, key=time)` is ordered by time and a permutation of the events |
| Events.SortKeepsMembers | vedo/applications.py:2880 | sorting keeps the length and the members |
| Events.AtConcat | vedo/applications.py:2880 | the events at time `t` of a concatenation are those of each part, in order |
| Events.InsertStable | vedo/applications.py:2880 | insertion keeps the order among events of equal time |
| Events.SortStable | vedo/applications.py:2880 | the sort is stable: events at equal times keep their booking order |
| Events.SortSorted | vedo/applications.py:2880 | sorting a sorted list changes nothing |
| Events.FrameTimes | vedo/applications.py:2898-2908 | at most one frame per event |
| Events.PlaybackMeaning | vedo/applications.py:2892-2908 | the replay loop ends in the scene of applying every event in turn, renders once per frame time and pauses the video at most once per frame |
| Events.ReplayStep | vedo/applications.py:2893-2908 | one turn of the replay loop: apply, render if `dt > eps`, pause if `dt > res + eps` |
| Events.FramesAfter | vedo/applications.py:2898-2908 | on sorted events every frame comes more than `eps` after the start |
| Events.FramesSpaced | vedo/applications.py:2898-2908 | on sorted events consecutive frames are more than `eps` apart |
| Booking.ParseSpec | vedo/applications.py:2565-2605 | `_parse` falls back to the previous targets, raises RuntimeError without any, fails on a zero resolution, and on a negative sample count (`nsteps < -1`) otherwise; it succeeds exactly in the remaining cases, booking `nsteps + 1` samples |
| Booking.ParseQuantises | vedo/applications.py:2591-2595 | the start is `int(t/res + 0.5)*res`; samples are `res` apart from the start to start plus duration; a zero duration gives one sample and `nsteps = -1` gives none |
| Booking.SamplesQuantised | vedo/applications.py:2591-2595 | the samples `_parse` returns are `res` apart from the start |
| Booking.RequantiseStable | vedo/applications.py:2591 | a non-negative start already on the grid stays where it is |
| Booking.AlphaEvents | vedo/applications.py:2615-2655 | one alpha event per sample, at the sample's time, for the parsed targets |
| Booking.AlphaBetweenFallsShort | vedo/applications.py:2644-2655 | as written, `change_alpha_between` can never raise an object to `alpha2` |
| Booking.AlphaBetweenEndsAtAlpha2 | vedo/applications.py:2644-2655 | corrected, it leaves every target at `alpha2` |
| Booking.FadeInRamp | vedo/applications.py:2615-2620 | fade-in alphas are `k/n`, rising from 0 to 1 |
| Booking.FadeOutRamp | vedo/applications.py:2630-2635 | fade-out alphas are `1 - k/n`, falling from 1 to 0 |
| Booking.ColorsAt | vedo/applications.py:2656-2675 | one interpolated colour per target |
| Booking.ColorEvents | vedo/applications.py:2656-2675 | one colour event per sample, with one colour per target |
| Booking.Colours | vedo/applications.py:2664-2665 | the targets' colours read at booking time, one per target |
| Booking.ColorEndpoints | vedo/applications.py:2656-2675 | a colour change starts at each target's own colour and ends at `c` |
| Booking.BackColorsAt | vedo/applications.py:2676-2699 | a target without a back face gets no back colour |
| Booking.BackColorEvents | vedo/applications.py:2676-2699 | one back-colour event per sample, `None` exactly for targets without a back face |
| Booking.WireEvents | vedo/applications.py:2700-2719 | the wireframe and surface switches book one event at the start time |
| Booking.WidthsAt | vedo/applications.py:2724-2729 | one interpolated width per target |
| Booking.LineWidthEvents | vedo/applications.py:2720-2734 | one width event per sample, with one width per target |
| Booking.StylePars | vedo/applications.py:2754-2794 | exactly the five named lighting styles have coefficients |
| Booking.LightingEvents | vedo/applications.py:2754-2794 | an unknown style raises exactly when a coefficient is read; otherwise one event per sample |
| Booking.LightsAt | vedo/applications.py:2754-2794 | one set of interpolated coefficients per target |
| Booking.MoveEvents | vedo/applications.py:2795-2815 | one position event per sample |
| Booking.MoveEndsAtTarget | vedo/applications.py:2801-2811 | the last booked position is `pt`, in both styles |
| Booking.RotateEvents | vedo/applications.py:2816-2824 | every sample turns by `angle / len(rng)` |
| Booking.TotalTurnEqual | vedo/applications.py:2822-2824 | equal increments add up to their count times the increment |
| Booking.RotateSumsToAngle | vedo/applications.py:2822-2824 | the booked increments add up to `angle` |
| Booking.ScaleEvents | vedo/applications.py:2835-2846 | one scale event per sample |
| Booking.ScaleToEvents | vedo/applications.py:2835-2846 | corrected `scale`: one absolute scale event per sample, interpolated from 1 to `factor` |
| Booking.LineWidthEndsAt | vedo/applications.py:2720-2734 | after `change_line_width` every target has width `lw` |
| Booking.LightingEndsAt | vedo/applications.py:2754-2794 | after `change_lighting` with a named style every target has that style's coefficients |
| Booking.BackColorEndsAt | vedo/applications.py:2676-2699 | after `change_backcolor` a target with a back face has back colour `c` |
| Booking.ScaleCompounds | vedo/applications.py:2835-2846 | as written, a target ends at its scale times the product of every sampled factor |
| Booking.ScaleOvershoots | vedo/applications.py:2835-2846 | as written, `scale(factor=2)` over three samples leaves a target of scale 1 at scale 3 |
| Booking.ScaleToEndsAtFactor | vedo/applications.py:2835-2846 | corrected, `scale` leaves every target at scale `factor` |
| Booking.ErodeEvents | vedo/applications.py:2847-2875 | erosion books at most one event per sample, only with point lists no longer than the mesh |
| Booking.ErodeStep | vedo/applications.py:2869-2874 | one sample of erosion: booked only for a positive radius and a small enough point list |
| Booking.BackColours | vedo/applications.py:2684-2693 | one back colour per target |
| Booking.LineWidths | vedo/applications.py:2726-2728 | one width per target |
| Booking.Lightings | vedo/applications.py:2773-2783 | one set of coefficients per target |
| Booking.BookingsMeaning | vedo/applications.py:2754-2875 | which transitions raise and with what error, and that every booked event is for the parsed targets at a parsed sample |
| AnimationClass.AddNew | vedo/applications.py:2601-2603 | the old `objects` come first, unchanged; each new entry is a target not already there; the new entries follow the order of their first appearance among the targets; no entry repeats |
| AnimationClass.Animation.Register | vedo/applications.py:2601-2603 | `objects` becomes `AddNew` of the old list and the targets |
| AnimationClass.Animation.constructor | vedo/applications.py:2540-2563 | booking mode on, no events, nothing remembered |
| AnimationClass.Animation.Parse | vedo/applications.py:2565-2605 | `_parse` returns `ParseSpec` and records the start, duration and targets, with the new objects added |
| AnimationClass.Animation.Book | vedo/applications.py:2615-2875 | a transition parses, then appends exactly its bookings; `change_alpha_between` is booked under `fade_out`, as written |
| AnimationClass.Animation.Append | vedo/applications.py:2615-2875 | appends the transition's bookings, or raises its error; alpha-between events go under `fade_out`, as written |
| AnimationClass.Animation.FadeIn | vedo/applications.py:2615-2620 | books the fade-in events |
| AnimationClass.Animation.SwitchOn | vedo/applications.py:2607-2609 | a fade-in of zero duration |
| AnimationClass.Animation.FadeOut | vedo/applications.py:2630-2635 | books the fade-out events |
| AnimationClass.Animation.SwitchOff | vedo/applications.py:2611-2613 | a fade-out of zero duration |
| AnimationClass.Animation.ChangeAlphaBetween | vedo/applications.py:2644-2650 | as written, books the interpolated alphas under `fade_out`, whose playback never raises alpha |
| AnimationClass.Animation.AppendAlpha | vedo/applications.py:2619-2621 | the loop appends exactly the alpha events |
| AnimationClass.Animation.ChangeColor | vedo/applications.py:2656-2675 | books the colour events |
| AnimationClass.Animation.ChangeLineColor | vedo/applications.py:2735-2753 | books the line-colour events |
| AnimationClass.Animation.AppendColors | vedo/applications.py:2662-2670 | the loop appends exactly the colour events |
| AnimationClass.Animation.ChangeBackcolor | vedo/applications.py:2676-2699 | books the back-colour events |
| AnimationClass.Animation.AppendBackColors | vedo/applications.py:2683-2694 | the loop appends exactly the back-colour events |
| AnimationClass.Animation.ChangeToWireframe | vedo/applications.py:2700-2709 | books one wireframe event |
| AnimationClass.Animation.ChangeToSurface | vedo/applications.py:2710-2719 | books one surface event |
| AnimationClass.Animation.ChangeLineWidth | vedo/applications.py:2720-2734 | books the width events |
| AnimationClass.Animation.AppendWidths | vedo/applications.py:2724-2729 | the loop appends exactly the width events |
| AnimationClass.Animation.ChangeLighting | vedo/applications.py:2754-2794 | books the lighting events, or raises for an unknown style |
| AnimationClass.Animation.AppendLights | vedo/applications.py:2771-2784 | the loop appends exactly the lighting events, or raises |
| AnimationClass.Animation.Move | vedo/applications.py:2795-2815 | books the move events, or raises without a target |
| AnimationClass.Animation.AppendMoves | vedo/applications.py:2804-2811 | the loop appends exactly the move events |
| AnimationClass.Animation.Rotate | vedo/applications.py:2816-2824 | books the rotate events |
| AnimationClass.Animation.AppendTurns | vedo/applications.py:2822-2824 | the loop appends exactly the rotate events |
| AnimationClass.Animation.Scale | vedo/applications.py:2835-2846 | books the scale events |
| AnimationClass.Animation.AppendScales | vedo/applications.py:2839-2841 | the loop appends exactly the scale events |
| AnimationClass.Animation.MeshErode | vedo/applications.py:2847-2875 | books the erosion events, or raises without a target or for a corner index outside -8..7 |
| AnimationClass.Animation.AppendErosion | vedo/applications.py:2869-2874 | the loop appends exactly the erosion events |
| AnimationClass.Animation.Dispatch | vedo/applications.py:2895-2896 | playing an event applies it; it raises IndexError exactly for a move, or a rotate about `x`, `y` or `z`, without performers; a rotate about any other axis does nothing |
| AnimationClass.Animation.Play | vedo/applications.py:2877-2919 | `play` sorts stably, raises on an empty list without a total duration or on an event that raises (a move, or a rotate about `x`, `y` or `z`, without targets), and renders and records the frames of `Playback`; booking mode is on again at the end; the total duration is stored before any event is replayed, and a raising `play` closes no video |
| AnimationClass.Animation.PlaySorted | vedo/applications.py:2881-2919 | the same, after the sort: it fails exactly when some event is a move, or a rotate about `x`, `y` or `z`, without targets |
| AnimationClass.Animation.FixDuration | vedo/applications.py:2886-2887 | without a total duration, it is last time minus first time, raising on an empty list |
| AnimationClass.Animation.Finish | vedo/applications.py:2913-2919 | two final renders, the video closed with one more frame, booking mode on |
| AnimationClass.Animation.SortEvents | vedo/applications.py:2880 | the events sorted stably by time |
| AnimationClass.Animation.PlayEvent | vedo/applications.py:2895-2906 | one event applied, rendered and recorded by the `eps` rule; it raises exactly for a move, or a rotate about `x`, `y` or `z`, without targets |
| AnimationClass.Animation.Render | vedo/applications.py:2898-2906 | a render and a video frame when `dt > eps`, and a pause when `dt > res + eps` |
| AnimationClass.Animation.ReplayEvents | vedo/applications.py:2892-2911 | the loop's scene, renders, frames and pauses are those of `Playback`, or it stops at the first move or `x`/`y`/`z` rotate without targets |
| AnimationClass.Animation.Advance | vedo/applications.py:2893-2908 | one iteration keeps the loop's invariant, and raises exactly for a move or an `x`/`y`/`z` rotate without targets |
| PlayerClass.LandingInRange | vedo/applications.py:3072-3090 | `set_frame` on a non-empty range lands in `[min, max-1]` and leaves an index inside the range alone |
| PlayerClass.TicksAdd | vedo/applications.py:3096-3097 | timer ticks compose |
| PlayerClass.LoopRun | vedo/applications.py:3074-3078 | in loop mode the ticks count up one index each inside the range |
| PlayerClass.LoopCycle | vedo/applications.py:3074-3078 | a full round of ticks in loop mode returns to the start index |
| PlayerClass.ClampTicks | vedo/applications.py:3079-3085 | outside loop mode the ticks stop at the last index |
| PlayerClass.StepBackUndoesStep | vedo/applications.py:3062-3070 | in loop mode one step forward and one back return to the same index |
| PlayerClass.AnimationPlayer.constructor | vedo/applications.py:2967-3037 | the index starts one below the range, the interval is at least 1, and the player is paused with no timer |
| PlayerClass.AnimationPlayer.Pause | vedo/applications.py:3039-3045 | not playing, no timer left, button showing play |
| PlayerClass.AnimationPlayer.Resume | vedo/applications.py:3047-3053 | a fresh timer of `int(dt)` ms replaces any old one; playing |
| PlayerClass.AnimationPlayer.Toggle | vedo/applications.py:3055-3060 | flips playing, with a timer exactly while playing |
| PlayerClass.AnimationPlayer.SetFrame | vedo/applications.py:3072-3090 | the index lands by the wrap or clamp rule, pausing when clamped; the callback runs exactly when the index changes |
| PlayerClass.AnimationPlayer.OneForward | vedo/applications.py:3062-3065 | pause, then one index on (wrapping in loop mode, clamped otherwise); a new index moves the slider and calls the frame function once with it, an unchanged one does neither |
| PlayerClass.AnimationPlayer.OneBackward | vedo/applications.py:3067-3070 | pause, then one index back (wrapping in loop mode, clamped otherwise); a new index moves the slider and calls the frame function once with it, an unchanged one does neither |
| PlayerClass.AnimationPlayer.SliderMoved | vedo/applications.py:3092-3094 | pause, then the slider value rounded half-to-even; a new index moves the slider and calls the frame function once with it |
| PlayerClass.AnimationPlayer.Tick | vedo/applications.py:3096-3097 | one timer tick: the next index, wrapped in loop mode; outside loop mode it pauses at the last frame; a new index moves the slider and calls the frame function once |
| PlayerClass.AnimationPlayer.Stop | vedo/applications.py:3099-3117 | no timer left |
| MorphPlot.DeleteLastPairs | vedo/applications.py:611-625 | key `d` leaves both lists as prefixes of equal length, and does nothing exactly when no point is unpaired and a list is empty |
| MorphPlot.MorphPlotter.constructor | vedo/applications.py:489-551 | empty lists, the source to pick, automatic warping on |
| MorphPlot.MorphPlotter.Update | vedo/applications.py:554-573 | warps exactly when automatic warping is on and the lists are ready |
| MorphPlot.MorphPlotter.OnClick | vedo/applications.py:575-590 | a source pick starts a pair and a target pick completes it, so picking alternates; after either pick the source is warped exactly when auto-warping is on and the lists are ready |
| MorphPlot.MorphPlotter.KeyClear | vedo/applications.py:594-605 | both lists emptied, the source to pick |
| MorphPlot.MorphPlotter.KeyDelete | vedo/applications.py:611-625 | the lists become `DeleteLast` of the old ones, and alternation is restored with every point paired; unless the key returns early, the source is warped exactly when auto-warping is on and the lists are ready |
| MorphPlot.MorphPlotter.KeyFixed | vedo/applications.py:627-632 | over the source with every point paired, the point becomes a pair of itself, and the source is warped exactly when auto-warping is on and the lists are ready |
| MorphPlot.MorphPlotter.KeyMorph | vedo/applications.py:634-639 | warps exactly when the lists are ready |
| LandmarkPlot.Opposite | vedo/applications.py:997-1012 | each move key has a different opposite |
| LandmarkPlot.ShiftBack | vedo/applications.py:997-1012 | a move and then the opposite move put the point back |
| LandmarkPlot.ArrowMovesOneAxis | vedo/applications.py:997-1002 | an arrow key changes one coordinate, by exactly the step |
| LandmarkPlot.StepKeys | vedo/applications.py:1037-1042 | the step stays non-negative, `+` grows it and `-` shrinks it |
| LandmarkPlot.GrowShrink | vedo/applications.py:1037-1042 | `+` then `-` (or the reverse) leaves 99% of the step |
| LandmarkPlot.DeleteAsWrittenKeepsPairs | vedo/applications.py:965-971 | as written, key `d` deletes nothing from lists of equal length |
| LandmarkPlot.DeletePairUndoesAdd | vedo/applications.py:923-929 | the corrected `d` undoes `o` |
| LandmarkPlot.LandmarkMorpher.constructor | vedo/applications.py:763-870 | each initial point is its own target, the step is 10 and nothing is selected |
| LandmarkPlot.LandmarkMorpher.DoMorph | vedo/applications.py:871-894 | warps from the sources on screen to the targets, then the targets become the sources |
| LandmarkPlot.LandmarkMorpher.Click | vedo/applications.py:896-911 | records the closest target's index, and its point when the index exists |
| LandmarkPlot.LandmarkMorpher.KeyAdd | vedo/applications.py:923-948 | over the mesh, the point becomes a new landmark in every list; off the mesh every landmark list is unchanged |
| LandmarkPlot.LandmarkMorpher.KeyClear | vedo/applications.py:950-963 | every landmark list emptied |
| LandmarkPlot.LandmarkMorpher.KeyDelete | vedo/applications.py:965-985 | as written: the lists become `DeleteAsWritten` of the old ones, which is both lists unchanged, since `o` keeps them equally long; the screen is redrawn unless the lists are empty |
| LandmarkPlot.LandmarkMorpher.KeyMove | vedo/applications.py:986-1027 | without a selection nothing happens; an index out of range raises; otherwise the selected target moves one step, and with morphing on change the mesh is warped and the moved targets become the sources on screen, which are otherwise unchanged |
| LandmarkPlot.LandmarkMorpher.KeyMorph | vedo/applications.py:1029-1030 | warps now |
| LandmarkPlot.LandmarkMorpher.KeyStep | vedo/applications.py:1037-1043 | the step grows or shrinks by a tenth, never below 0 |
| SplinePlot.DrawsCurveMeans | vedo/applications.py:2312-2316 | a spline needs three points and a line two; a zero line width draws neither |
| SplinePlot.RemoveAt | vedo/applications.py:2287-2291 | `pop(pid)` removes that point and shifts the later ones down |
| SplinePlot.RemoveAtUndoesAppend | vedo/applications.py:2284-2295 | clicking a new point and then clicking it again restores the list |
| SplinePlot.SplinePlotter.constructor | vedo/applications.py:2211-2274 | the initial points, nothing on screen |
| SplinePlot.SplinePlotter.Update | vedo/applications.py:2306-2328 | the points are redrawn with the curve above `minnr` points; a failing spline drops the last point and shows nothing |
| SplinePlot.SplinePlotter.SetPoints | vedo/applications.py:2276-2282 | the control points become the new points and the screen is redrawn from them; when the spline fit fails the last point is dropped and nothing is shown |
| SplinePlot.SplinePlotter.LeftClick | vedo/applications.py:2284-2297 | a click on a point removes exactly that point, a click elsewhere on an object appends it, and the screen is redrawn from the new points |
| SplinePlot.SplinePlotter.RightClick | vedo/applications.py:2299-2304 | over an object with points, the last point is removed and the screen redrawn from the rest |
| SplinePlot.SplinePlotter.KeyClear | vedo/applications.py:2330-2335 | the points are cleared and nothing is on screen |
| FreeHandCut.SavedName | vedo/applications.py:2182-2189 | the saved name has no directory part |
| FreeHandCut.MarkerBorderless | vedo/applications.py:2186-2187 | `_edited` has no border, so a trailing one is removed whole |
| FreeHandCut.SplitAtExtension | vedo/applications.py:2185 | `splitext` of a plain stem plus an extension splits at the join |
| FreeHandCut.SavedNameMarks | vedo/applications.py:2182-2189 | `dir/stem.ext` is saved as `stem_edited.ext` |
| FreeHandCut.SavedNameStable | vedo/applications.py:2182-2189 | saving the saved file again gives the same name |
| FreeHandCut.FreeHandCutter.constructor | vedo/applications.py:2029-2063 | the input mesh, not drawing, no points |
| FreeHandCut.FreeHandCutter.RightClick | vedo/applications.py:2081-2095 | toggles draw mode; leaving it closes the line through more than two points |
| FreeHandCut.FreeHandCutter.MouseMove | vedo/applications.py:2097-2119 | in draw mode a point not near the last one grows the line, and from three points on the open line is shown |
| FreeHandCut.FreeHandCutter.KeyCut | vedo/applications.py:2122-2141 | with a line, the mesh is cut along it and the old mesh kept for undo; draw mode ends and the line is cleared |
| FreeHandCut.FreeHandCutter.KeyLargest | vedo/applications.py:2143-2156 | the largest region is kept, and the old mesh kept for undo |
| FreeHandCut.FreeHandCutter.KeyUndo | vedo/applications.py:2158-2167 | the mesh goes back one edit, draw mode ends and the line is cleared |
| FreeHandCut.FreeHandCutter.KeyClear | vedo/applications.py:2169-2173 | the line is cleared |
| FreeHandCut.FreeHandCutter.KeySave | vedo/applications.py:2182-2189 | the mesh is written under `SavedName` |
| ImageEdit.ToByte | vedo/applications.py:2462 | `clip(0, 255).astype(uint8)` is the floor of a value in range, and 0 or 255 outside it |
| ImageEdit.ToByteMonotone | vedo/applications.py:2462 | the cast keeps the order |
| ImageEdit.ToByteBounds | vedo/applications.py:2462 | a pixel value below (above) a float stays below (above) its cast |
| ImageEdit.LuminosityDirection | vedo/applications.py:2460-2469 | a factor of at least 1 never darkens, and one of at most 1 never brightens |
| ImageEdit.LuminosityMonotone | vedo/applications.py:2460-2469 | a non-negative factor keeps the order of pixels |
| ImageEdit.ContrastDirection | vedo/applications.py:2471-2482 | a factor above 1 moves pixels away from the median, and one below 1 moves them toward it |
| ImageEdit.StretchAway | vedo/applications.py:2471-2482 | stretching about the median by a factor of at least 1 moves a value away from it |
| ImageEdit.StretchToward | vedo/applications.py:2471-2482 | stretching about the median by a factor of at most 1 moves a value towards it |
| ImageEdit.ScaleLuminosity | vedo/applications.py:2461-2462 | every pixel of the buffer is replaced by its scaled value |
| ImageEdit.ScaleContrast | vedo/applications.py:2472-2474 | every pixel of the buffer is replaced by its value scaled around `m` |
| ImageEdit.Brighter | vedo/applications.py:2460-2464 | `Ctrl+o`: no pixel gets darker |
| ImageEdit.Darker | vedo/applications.py:2465-2469 | `Ctrl+l`: no pixel gets brighter |
| ImageEdit.MoreContrast | vedo/applications.py:2471-2476 | `O`: pixels move away from the median |
| ImageEdit.LessContrast | vedo/applications.py:2477-2482 | `L`: pixels move toward the median |
| ImageEdit.SaveName | vedo/applications.py:2492-2495 | the saved name has no directory part |
| ImageEdit.FirstFieldOf | vedo/applications.py:2494 | the text before the first dot of `stem.rest` is `stem` |
| ImageEdit.LastFieldOf | vedo/applications.py:2494 | the text after the last dot of `front.ext` is `ext` |
| ImageEdit.SaveNameOfStemExt | vedo/applications.py:2492-2495 | `dir/stem.ext` is saved as `stem_edited.ext` |
| ImageEdit.SaveNameStacks | vedo/applications.py:2492-2495 | a name already marked gets a second marker |
| ImageEdit.SaveNameWithoutDot | vedo/applications.py:2492-2495 | a name without a dot is used whole as the extension too |
| BrowserApp.Arrange | vedo/applications.py:1884-1893 | nested lists must all have the first one's length; a non-empty flat list becomes the only row |
| BrowserApp.OnlyAt | vedo/applications.py:1910-1919 | the row of flags with only the `k`-th on |
| BrowserApp.OneShownPerRow | vedo/applications.py:1910-1919 | each row shows exactly one object when `k` is an index, and none otherwise |
| BrowserApp.Browser.constructor | vedo/applications.py:1884-1897 | every object starts shown and no index has been handled |
| BrowserApp.Browser.SliderMoved | vedo/applications.py:1900-1918 | a repeated index changes nothing; a new one shows exactly object `k` of every list, raising when there are no lists |
| SlicerApp.ClampRange | vedo/applications.py:137-143 | the clamped range lies within the old one, and each half is at most 0.9 of the other side |
| SlicerApp.ClampRangeInside | vedo/applications.py:137-143 | with the mean in range, the clamped range contains the mean |
| SlicerApp.ShownValues | vedo/applications.py:184-221 | a slice is shown exactly for slider values in `[1, dim)`, so both ends hide it |
| SlicerApp.SliceAxis.Unset | vedo/applications.py:149-155 | the x and y sliders start with no index and no slice shown |
| SlicerApp.SliceAxis.Middle | vedo/applications.py:151-160 | the z slider starts at the middle slice, which is shown |
| SlicerApp.SliceAxis.Slide | vedo/applications.py:184-195 | a repeated index changes nothing; a new one is shown exactly when `0 < i < dim` |
| ClockFace.HalfDays | vedo/applications.py:3172-3174 | `t` is in `[0, 2)` |
| ClockFace.SecondsTurn | vedo/applications.py:3181-3183 | the seconds fraction is in `[0, 1)` |
| ClockFace.HalfDaysPeriodic | vedo/applications.py:3172-3174 | a day later, or 60 minutes more, reads the same |
| ClockFace.AfternoonOneTurnMore | vedo/applications.py:3172-3174 | twelve hours on from the morning is one more turn of the hour hand |
| ClockFace.MinuteHandShowsMinutes | vedo/applications.py:3172-3177 | the minute hand at `12t` turns is `m/60` past the whole turns |
| ClockFace.HourHandShowsHours | vedo/applications.py:3172-3176 | the hour hand moves a twelfth of a turn per hour, minutes included |
| ClockFace.Face | vedo/applications.py:3163-3183 | with no hours and minutes, the local time with seconds; exactly one of them missing raises; otherwise a seconds hand only when given |

## Left out

- Rendering, cameras, text, widgets and buttons (`add`, `remove`, `render`, `show`, slider and button construction, status messages, colours on screen): a render is recorded as the scene it shows, or not at all.
- Video encoding and the progress bar of `Animation.play`: a video is recorded as its frames and pauses, and the progress bar is left out.
- Mesh, volume and image library calls (`warp`, `closest_point`, `cut_with_mesh`, `extract_largest_region`, `Spline`, `compute_normals`, the image filters, `np.median`, `np.histogram`, `np.log`): their results are parameters or are recorded as the inputs they were given.
- `lin_interpolate` belongs to `vedo.utils`, which is not part of this model. `Quantize.Lerp` is ordinary linear interpolation, and it gives `y0` on an empty interval. No stated property relies on that case.
- Floating point: all arithmetic is exact over reals, so rounding of float times and pixel products is not modelled.
- AnimationClass.Animation.Play: when an event raises part way through, the scene and renders left by the events before it are not stated. The total duration it stored and the finished videos are stated. The `Video` the source opened and leaves unclosed is not modelled: `videos` holds only the videos that `play` closes.
- `Animation`'s transition methods (`FadeIn`, `SwitchOn`, `FadeOut`, `SwitchOff`, `ChangeAlphaBetween`, `ChangeColor`, `ChangeLineColor`, `ChangeBackcolor`, `ChangeToWireframe`, `ChangeToSurface`, `ChangeLineWidth`, `ChangeLighting`, `Move`, `Rotate`, `Scale`, `MeshErode`) require booking mode. After a `play` that raised, booking mode stays off in the source. A user's call to a transition then runs its playback branch on the last event's performers and values instead of booking. That path is not modelled.
- `Events.Props.angles` sums the angles of `rotate_x`, `rotate_y` and `rotate_z` per axis. Rotations about different axes do not commute in the source, but here a rotation about x then y gives the same orientation as y then x.
- `BrowserApp.Browser.shown` keeps one flag per list position. In the source, an object listed twice in one row gets `on()` and `off()` in turn, and the last call wins: for the row `[A, A]` at index 0 the source hides `A`, while the model marks position 0 shown.
- `Animation.mesh_erode` has no playback branch: its events replay as nothing, as in the source.
- `Animation`'s checks that `move`, `rotate` and `mesh_erode` get one target only log a message, so they are not modelled.
- `MorphPlotter` keys `w` (wireframe toggle) and `g` (intermediate shapes, a least-squares fit in scipy) are not modelled.
- `MorphByLandmarkPlotter`:
  - custom `move_keys` are not modelled. Keys are the eight standard ones after normalisation.
  - `Ctrl+s`, `q`, `r` and `l` are display or file operations and are not modelled.
  - the point clouds are sequences, so aliasing between `sources` and the drawn clouds is not modelled.
  - rows of `targets` as Python objects are not modelled. A move key does `self.targets[pid] += [...]`. On a tuple row that raises `TypeError`. On a list row it extends the row to six entries instead of moving the point, and `sources[pid]` with it when the row is shared.
- LandmarkPlot.LandmarkMorpher.KeyMove: `sources` and `targets` are separate sequences here. In the source the two lists usually share their rows: key `o` appends the same picked point to both, `__init__` copies the same `init_pts` rows into both, and after `m` (`self.sources = list(self.targets)`) every row is shared. An arrow or normal key then moves `sources[pid]` too. The ensures `!morphingOnChange ==> sources == old(sources)` holds only without that sharing.
- `FreeHandCutPlotter.init` stores the points as a numpy array, on which a later `append` fails. It is not modelled. Key `r` and `start` are display operations.
- `ImageEditor`'s other keys (enhance, median, mirror, flip, rotate, binarize, invert, smooth, denoise, reset) call the image library, and are not modelled.
- `Browser`: the slider title text and `play` (a timer) are not modelled. The constructor's state comes before the first `slider_function()` call, which is `SliderMoved` with the slider's initial value.
- `Slicer3DPlotter`: the histogram, the colour maps, the 3-D slider variant, `Slicer3DTwinPlotter` and the button are not modelled. The log-scale mean is a parameter.
- ClockFace.HalfDays: takes whole hours and minutes. A float argument is truncated by `int()` first, which is not modelled. The hand angles (`cos`, `sin`) and the elapsed-time counter are not modelled either.
- `IsosurfaceBrowser`, `RayCastPlotter`, `Slicer2DPlotter` and `MorphBySplinesPlotter` are mostly wiring of library calls, and are not modelled.

## Findings

| source | as written | input that shows it | evidently intended | confidence | as-written member | corrected member |
|---|---|---|---|---|---|---|
| vedo/applications.py:2650 | `change_alpha_between` books its events under `fade_out`, whose playback only ever lowers alpha | `change_alpha_between(0.2, 1.0)` on an object whose alpha is 0.2: it stays at 0.2 | the events call back `change_alpha_between`, whose playback sets alpha to the interpolated value, ending at `alpha2` | not executed | Booking.AlphaBetweenFallsShort | Booking.AlphaBetweenEndsAtAlpha2 |
| vedo/applications.py:965-971 | key `d` pops a point only when one list is longer by one, but `o` always appends to both lists | press `o` once over the mesh, then `d`: both lists still hold the point | `d` deletes the last point pair, as its comment says | not executed | LandmarkPlot.DeleteAsWrittenKeepsPairs | LandmarkPlot.DeletePairUndoesAdd |
| vedo/applications.py:2836-2845 | `scale` books the factors interpolated from 1 to `factor`, and playback multiplies the current scale by each of them (`a.scale(s)` is relative) | `scale(factor=2, t=0, duration=1)` at resolution 0.5 on an object of scale 1: the factors 1, 1.5 and 2 leave it at scale 3 | the object ends at scale `factor`, as its docstring promises: each sample sets the scale | not executed | Booking.ScaleOvershoots | Booking.ScaleToEndsAtFactor |
