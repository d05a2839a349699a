/**
 * The booking side of `Animation` (vedo/applications.py:2565-2875): how
 * `_parse` fills in and quantises the time, duration and targets of a call,
 * and which events each transition method appends for the parsed call.
 */
module Booking {
  import opened Wrappers
  import opened Quantize
  import opened Events
  import opened PyOps

  /** What a declaration call raises. */
  datatype AnimError =
    | MissingTargets        // RuntimeError: no targets given and none remembered
    | ZeroDivision          // time_resolution == 0
    | NegativeSampleCount   // np.linspace with a negative number of samples
    | IndexError            // acts[0] of an empty target list, or a corner index out of range
    | UnboundStyle          // an unknown lighting style leaves `pars` unassigned

  /** The result of `_parse`: targets, quantised start and duration, and the sample times. */
  datatype Parsed = Parsed(acts: seq<ObjId>, t: real, duration: real, rng: seq<real>)

  /**
   * `_parse`: omitted arguments fall back to the previous call's start time,
   * duration and targets (0.0 for an unset or zero time or duration); the
   * start is rounded to the nearest multiple of `res`, the duration to a
   * whole number of steps, and the samples run from the start to its end.
   */
  function ParseSpec(lastT: Option<real>, lastDuration: Option<real>, lastActs: Option<seq<ObjId>>,
                     res: real, acts: Option<seq<ObjId>>, t: Option<real>, duration: Option<real>)
    : (r: Result<Parsed, AnimError>)
    ensures acts.None? && (lastActs.None? || lastActs.value == []) ==> r == Failure(MissingTargets)
    ensures (acts.Some? || (lastActs.Some? && lastActs.value != [])) && res == 0.0 ==> r == Failure(ZeroDivision)
    ensures r.Failure? <==>
      || (acts.None? && (lastActs.None? || lastActs.value == []))
      || res == 0.0
      || Steps(duration.GetOr(lastDuration.GetOr(0.0)), res) < -1
    ensures (acts.Some? || (lastActs.Some? && lastActs.value != [])) && res != 0.0 &&
            Steps(duration.GetOr(lastDuration.GetOr(0.0)), res) < -1 ==>
              r == Failure(NegativeSampleCount)
    ensures r.Success? ==> res != 0.0
    ensures r.Success? ==> r.value.acts == if acts.Some? then acts.value else lastActs.value
    ensures r.Success? ==> |r.value.rng| == Steps(duration.GetOr(lastDuration.GetOr(0.0)), res) + 1
  {
    var t0 := t.GetOr(lastT.GetOr(0.0));
    var d0 := duration.GetOr(lastDuration.GetOr(0.0));
    if acts.None? && (lastActs.None? || lastActs.value == []) then Failure(MissingTargets)
    else
      var objs := if acts.Some? then acts.value else lastActs.value;
      if res == 0.0 then Failure(ZeroDivision)
      else
        var q := Steps(t0, res) as real * res;
        var n := Steps(d0, res);
        if n + 1 < 0 then Failure(NegativeSampleCount)
        else Success(Parsed(objs, q, n as real * res, Linspace(q, q + n as real * res, n + 1)))
  }

  /** The samples of a parsed call are `n + 1` consecutive multiples of `res` from its start. */
  predicate Quantised(p: Parsed, res: real, n: nat) {
    && |p.rng| == n + 1
    && p.duration == n as real * res
    && forall k :: 0 <= k <= n ==> p.rng[k] == p.t + k as real * res
  }

  /**
   * A successful `_parse` books `nsteps + 1` samples, `nsteps = int(duration/res + 0.5)`:
   * the first at the quantised start, each `res` after the previous, the last
   * at the start plus the quantised duration (one sample for a zero duration).
   */
  lemma ParseQuantises(lastT: Option<real>, lastDuration: Option<real>, lastActs: Option<seq<ObjId>>,
                       res: real, acts: Option<seq<ObjId>>, t: Option<real>, duration: Option<real>)
    requires ParseSpec(lastT, lastDuration, lastActs, res, acts, t, duration).Success?
    ensures var p := ParseSpec(lastT, lastDuration, lastActs, res, acts, t, duration).value;
      var n := Steps(duration.GetOr(lastDuration.GetOr(0.0)), res);
      && n >= -1
      && p.t == Steps(t.GetOr(lastT.GetOr(0.0)), res) as real * res
      && (n == -1 ==> p.rng == [])
      && (n >= 0 ==> Quantised(p, res, n) && p.rng[0] == p.t && p.rng[n] == p.t + p.duration)
  {
    var n := Steps(duration.GetOr(lastDuration.GetOr(0.0)), res);
    var objs := if acts.Some? then acts.value else lastActs.value;
    var q := Steps(t.GetOr(lastT.GetOr(0.0)), res) as real * res;
    var p := ParseSpec(lastT, lastDuration, lastActs, res, acts, t, duration).value;
    ParseValue(lastT, lastDuration, lastActs, res, acts, t, duration);
    if n >= 0 {
      assert Quantised(p, res, n) by {
        SamplesQuantised(objs, q, n, res);
      }
      assert p.rng[0] == p.t && p.rng[n] == p.t + p.duration by {
        if n == 0 {
          assert p.duration == 0.0;
        }
      }
    }
  }

  /** Helper for `ParseQuantises`: the successful branch of `ParseSpec`, unfolded. */
  lemma ParseValue(lastT: Option<real>, lastDuration: Option<real>, lastActs: Option<seq<ObjId>>,
                   res: real, acts: Option<seq<ObjId>>, t: Option<real>, duration: Option<real>)
    requires ParseSpec(lastT, lastDuration, lastActs, res, acts, t, duration).Success?
    ensures res != 0.0
    ensures var n := Steps(duration.GetOr(lastDuration.GetOr(0.0)), res);
      var q := Steps(t.GetOr(lastT.GetOr(0.0)), res) as real * res;
      && n >= -1
      && ParseSpec(lastT, lastDuration, lastActs, res, acts, t, duration).value
         == Parsed(if acts.Some? then acts.value else lastActs.value, q, n as real * res, Linspace(q, q + n as real * res, n + 1))
  {
  }

  lemma SamplesQuantised(objs: seq<ObjId>, q: real, n: nat, res: real)
    ensures Quantised(Parsed(objs, q, n as real * res, Linspace(q, q + n as real * res, n + 1)), res, n)
  {
    var p := Parsed(objs, q, n as real * res, Linspace(q, q + n as real * res, n + 1));
    forall k | 0 <= k <= n ensures p.rng[k] == p.t + k as real * res {
      SamplesAreSteps(p.t, n, res, k);
    }
  }

  /** A non-negative time that is already a whole number of steps is left where it is. */
  lemma RequantiseStable(m: nat, res: real)
    requires res != 0.0
    ensures Steps(m as real * res, res) as real * res == m as real * res
  {
    assert m as real * res / res == m as real;
    assert (m as real + 0.5).Floor == m;
  }

  // ---------------------------------------------------------------------------
  // The events each transition books for a parsed call.

  /** The value `lin_interpolate(tt, [t, t + duration], [y0, y1])`. */
  function Along(p: Parsed, tt: real, y0: real, y1: real): real {
    Lerp(tt, p.t, p.t + p.duration, y0, y1)
  }

  function ColorAlong(p: Parsed, tt: real, c1: Color, c2: Color): Color {
    Color(Along(p, tt, c1.r, c2.r), Along(p, tt, c1.g, c2.g), Along(p, tt, c1.b, c2.b))
  }

  /** One event per sample with a single alpha value interpolated from `a1` to `a2`. */
  function AlphaEvents(p: Parsed, action: Action, a1: real, a2: real): (r: seq<Event>)
    ensures |r| == |p.rng|
    ensures forall k :: 0 <= k < |r| ==>
      r[k].time == p.rng[k] && r[k].action == action && r[k].targets == p.acts && r[k].payload.Alpha?
  {
    seq(|p.rng|, k requires 0 <= k < |p.rng| => Event(p.rng[k], action, p.acts, Alpha(Along(p, p.rng[k], a1, a2))))
  }

  /** `fade_in`: alpha from 0 to 1. */
  function FadeInEvents(p: Parsed): seq<Event> {
    AlphaEvents(p, FadeIn, 0.0, 1.0)
  }

  /** `fade_out`: alpha from 1 to 0. */
  function FadeOutEvents(p: Parsed): seq<Event> {
    AlphaEvents(p, FadeOut, 1.0, 0.0)
  }

  /** `change_alpha_between` as written: the events carry the `fade_out` action. */
  function AlphaBetweenEvents(p: Parsed, alpha1: real, alpha2: real): seq<Event> {
    AlphaEvents(p, FadeOut, alpha1, alpha2)
  }

  /** `change_alpha_between` calling back its own playback branch, which sets alpha outright. */
  function AlphaBetweenEventsFixed(p: Parsed, alpha1: real, alpha2: real): seq<Event> {
    AlphaEvents(p, ChangeAlpha, alpha1, alpha2)
  }

  /**
   * As written, `change_alpha_between` can never raise an object's alpha:
   * its events replay as fade-outs. An object starting below `alpha2` ends
   * below it, where the corrected booking leaves it at `alpha2`.
   */
  lemma AlphaBetweenFallsShort(scene: Scene, p: Parsed, res: real, n: nat, alpha1: real, alpha2: real, o: ObjId)
    requires Quantised(p, res, n) && n >= 1 && res != 0.0
    requires o in scene && o in p.acts && scene[o].alpha < alpha2
    ensures Replay(scene, AlphaBetweenEvents(p, alpha1, alpha2))[o].alpha < alpha2
    ensures Replay(scene, AlphaBetweenEventsFixed(p, alpha1, alpha2))[o].alpha == alpha2
  {
    FadeOutsNeverRaise(scene, AlphaBetweenEvents(p, alpha1, alpha2));
    AlphaBetweenEndsAtAlpha2(scene, p, res, n, alpha1, alpha2, o);
  }

  /** Corrected, `change_alpha_between` leaves every target at `alpha2` once its interval is over. */
  lemma AlphaBetweenEndsAtAlpha2(scene: Scene, p: Parsed, res: real, n: nat, alpha1: real, alpha2: real, o: ObjId)
    requires Quantised(p, res, n) && n >= 1 && res != 0.0
    requires o in scene && o in p.acts
    ensures Replay(scene, AlphaBetweenEventsFixed(p, alpha1, alpha2))[o].alpha == alpha2
  {
    var evs := AlphaEvents(p, ChangeAlpha, alpha1, alpha2);
    assert forall e <- evs :: e.action == ChangeAlpha && e.payload.Alpha? && o in e.targets;
    ReplayLastAlpha(scene, evs, o);
    assert evs[n].payload.a == Lerp(p.rng[n], p.t, p.t + p.duration, alpha1, alpha2);
    assert p.rng[n] == p.t + p.duration;
    assert p.duration != 0.0 by {
      assert p.duration == n as real * res;
      assert n as real * res != 0.0;
    }
  }

  /** The payload of fade-in at the `k`-th of `n` steps is `k/n`: it rises from 0 to 1 and never falls. */
  lemma FadeInRamp(p: Parsed, res: real, n: nat)
    requires Quantised(p, res, n) && n >= 1 && res != 0.0
    ensures var evs := FadeInEvents(p);
      && |evs| == n + 1
      && (forall k :: 0 <= k <= n ==> evs[k].payload.a == k as real / n as real)
      && evs[0].payload.a == 0.0 && evs[n].payload.a == 1.0
      && (forall j, k :: 0 <= j <= k <= n ==> evs[j].payload.a <= evs[k].payload.a)
  {
    var evs := FadeInEvents(p);
    forall k | 0 <= k <= n ensures evs[k].payload.a == k as real / n as real {
      LerpAtStep(p.t, n, res, k, 0.0, 1.0);
    }
    forall j, k | 0 <= j <= k <= n ensures evs[j].payload.a <= evs[k].payload.a {
      assert j as real / n as real <= k as real / n as real;
    }
  }

  /** The payload of fade-out at the `k`-th of `n` steps is `1 - k/n`: it falls from 1 to 0 and never rises. */
  lemma FadeOutRamp(p: Parsed, res: real, n: nat)
    requires Quantised(p, res, n) && n >= 1 && res != 0.0
    ensures var evs := FadeOutEvents(p);
      && |evs| == n + 1
      && (forall k :: 0 <= k <= n ==> evs[k].payload.a == 1.0 - k as real / n as real)
      && evs[0].payload.a == 1.0 && evs[n].payload.a == 0.0
      && (forall j, k :: 0 <= j <= k <= n ==> evs[j].payload.a >= evs[k].payload.a)
  {
    var evs := FadeOutEvents(p);
    forall k | 0 <= k <= n ensures evs[k].payload.a == 1.0 - k as real / n as real {
      LerpAtStep(p.t, n, res, k, 1.0, 0.0);
    }
    forall j, k | 0 <= j <= k <= n ensures evs[j].payload.a >= evs[k].payload.a {
      assert j as real / n as real <= k as real / n as real;
    }
  }

  /** The per-target colours at sample time `tt`: each target's own colour interpolated to `c2`. */
  function ColorsAt(p: Parsed, tt: real, c2: Color, start: seq<Color>): (r: seq<Color>)
    ensures |r| == |start|
  {
    seq(|start|, i requires 0 <= i < |start| => ColorAlong(p, tt, start[i], c2))
  }

  /** `change_color` and `change_line_color`: per target, the colour read at booking time interpolated to `c2`. */
  function ColorEvents(p: Parsed, action: Action, c2: Color, start: seq<Color>): (r: seq<Event>)
    requires |start| == |p.acts|
    ensures |r| == |p.rng|
    ensures forall k :: 0 <= k < |r| ==>
      r[k].time == p.rng[k] && r[k].action == action && r[k].targets == p.acts
      && r[k].payload.Colors? && |r[k].payload.cs| == |p.acts|
  {
    seq(|p.rng|, k requires 0 <= k < |p.rng| => Event(p.rng[k], action, p.acts, Colors(ColorsAt(p, p.rng[k], c2, start))))
  }

  /** The current colours of the targets, as `a.color()` (or `a.linecolor()`) reads them. */
  function Colours(acts: seq<ObjId>, scene: Scene, ofLines: bool): (r: seq<Color>)
    requires Known(acts, scene)
    ensures |r| == |acts|
  {
    seq(|acts|, i requires 0 <= i < |acts| => if ofLines then scene[acts[i]].lineColor else scene[acts[i]].color)
  }

  /** Over a non-empty interval the colour change starts at each target's own colour and ends at `c2`. */
  lemma ColorEndpoints(p: Parsed, action: Action, c2: Color, start: seq<Color>, res: real, n: nat, i: nat)
    requires |start| == |p.acts| && i < |p.acts|
    requires Quantised(p, res, n) && n >= 1 && res != 0.0
    ensures var evs := ColorEvents(p, action, c2, start);
      evs[0].payload.cs[i] == start[i] && evs[n].payload.cs[i] == c2
  {
    assert p.t + p.duration != p.t by {
      assert p.duration == n as real * res;
      assert n as real * res != 0.0;
    }
    assert p.rng[0] == p.t + 0 as real * res == p.t;
    assert p.rng[n] == p.t + p.duration;
  }

  /** The per-target back colours at sample time `tt`; `None` for a target without a back-face property. */
  function BackColorsAt(p: Parsed, tt: real, c2: Color, start: seq<Option<Color>>): (r: seq<Option<Color>>)
    ensures |r| == |start|
    ensures forall i :: 0 <= i < |start| ==> (r[i].Some? <==> start[i].Some?)
  {
    seq(|start|, i requires 0 <= i < |start| =>
      match start[i]
      case Some(c1) => Some(ColorAlong(p, tt, c1, c2))
      case None => None)
  }

  /** `change_backcolor`: targets without a back-face property get `None`. */
  function BackColorEvents(p: Parsed, c2: Color, start: seq<Option<Color>>): (r: seq<Event>)
    requires |start| == |p.acts|
    ensures |r| == |p.rng|
    ensures forall k :: 0 <= k < |r| ==>
      r[k].time == p.rng[k] && r[k].action == ChangeBackcolor && r[k].targets == p.acts
      && r[k].payload.BackColors? && |r[k].payload.bs| == |p.acts|
      && forall i :: 0 <= i < |p.acts| ==> (r[k].payload.bs[i].Some? <==> start[i].Some?)
  {
    seq(|p.rng|, k requires 0 <= k < |p.rng| => Event(p.rng[k], ChangeBackcolor, p.acts, BackColors(BackColorsAt(p, p.rng[k], c2, start))))
  }

  /** `change_to_wireframe` / `change_to_surface`: a single event at the start time. */
  function WireEvents(p: Parsed, on: bool): (r: seq<Event>)
    ensures |r| == 1 && r[0].time == p.t && r[0].targets == p.acts && r[0].payload == Wire(on)
    ensures r[0].action == if on then ToWireframe else ToSurface
  {
    [Event(p.t, if on then ToWireframe else ToSurface, p.acts, Wire(on))]
  }

  /** The per-target line widths at sample time `tt`. */
  function WidthsAt(p: Parsed, tt: real, lw: real, start: seq<real>): (r: seq<real>)
    ensures |r| == |start|
  {
    seq(|start|, i requires 0 <= i < |start| => Along(p, tt, start[i], lw))
  }

  /** `change_line_width`: per target, its width at booking time interpolated to `lw`. */
  function LineWidthEvents(p: Parsed, lw: real, start: seq<real>): (r: seq<Event>)
    requires |start| == |p.acts|
    ensures |r| == |p.rng|
    ensures forall k :: 0 <= k < |r| ==>
      r[k].time == p.rng[k] && r[k].action == LineWidth && r[k].targets == p.acts
      && r[k].payload.Widths? && |r[k].payload.ws| == |p.acts|
  {
    seq(|p.rng|, k requires 0 <= k < |p.rng| => Event(p.rng[k], LineWidth, p.acts, Widths(WidthsAt(p, p.rng[k], lw, start))))
  }

  /** The coefficients of the named lighting styles; any other name leaves `pars` unassigned. */
  function StylePars(style: string): (r: Option<Light>)
    ensures r.Some? <==> style in ["metallic", "plastic", "shiny", "glossy", "default"]
  {
    if style == "metallic" then Some(Light(0.1, 0.3, 1.0, 10.0))
    else if style == "plastic" then Some(Light(0.3, 0.4, 0.3, 5.0))
    else if style == "shiny" then Some(Light(0.2, 0.6, 0.8, 50.0))
    else if style == "glossy" then Some(Light(0.1, 0.7, 0.9, 90.0))
    else if style == "default" then Some(Light(0.1, 1.0, 0.05, 5.0))
    else None
  }

  /**
   * `change_lighting`: per target, its four coefficients interpolated to
   * those of the style. An unknown style raises as soon as a coefficient is
   * needed, that is unless there is no sample or no target.
   */
  function LightingEvents(p: Parsed, pars: Option<Light>, start: seq<Light>): (r: Result<seq<Event>, AnimError>)
    requires |start| == |p.acts|
    ensures r.Failure? <==> pars.None? && |p.rng| > 0 && |p.acts| > 0
    ensures r.Success? ==> (
      && |r.value| == |p.rng|
      && forall k :: 0 <= k < |r.value| ==>
        r.value[k].time == p.rng[k] && r.value[k].action == Lighting && r.value[k].targets == p.acts
        && r.value[k].payload.Lights? && |r.value[k].payload.ls| == |p.acts|)
  {
    if pars.None? && |p.rng| > 0 && |p.acts| > 0 then Failure(UnboundStyle)
    else
      var to := pars.GetOr(Light(0.0, 0.0, 0.0, 0.0));  // only read when there is a target
      Success(seq(|p.rng|, k requires 0 <= k < |p.rng| => Event(p.rng[k], Lighting, p.acts, Lights(LightsAt(p, p.rng[k], to, start)))))
  }

  /** The per-target coefficients at sample time `tt`, each interpolated to those of `to`. */
  function LightsAt(p: Parsed, tt: real, to: Light, start: seq<Light>): (r: seq<Light>)
    ensures |r| == |start|
  {
    seq(|start|, i requires 0 <= i < |start| =>
      Light(Along(p, tt, start[i].ambient, to.ambient),
            Along(p, tt, start[i].diffuse, to.diffuse),
            Along(p, tt, start[i].specular, to.specular),
            Along(p, tt, start[i].specularPower, to.specularPower)))
  }

  /**
   * `move`: with `n` samples the `i`-th of them (counting from 1) is at
   * `cpos + dv*i` with `dv = (pt - cpos)/n`, or at `cpos + dv*i*(i/n)^2`
   * in the "quad" style.
   */
  function MovePosition(cpos: Vec3, pt: Vec3, n: nat, i: nat, quad: bool): Vec3
    requires n >= 1
  {
    var dv := pt.Minus(cpos).Times(1.0 / n as real);
    var x := i as real / n as real;
    if quad then cpos.Plus(dv.Times(i as real).Times(x * x)) else cpos.Plus(dv.Times(i as real))
  }

  function MoveEvents(p: Parsed, cpos: Vec3, pt: Vec3, quad: bool): (r: seq<Event>)
    ensures |r| == |p.rng|
    ensures forall k :: 0 <= k < |r| ==>
      r[k].time == p.rng[k] && r[k].action == Move && r[k].targets == p.acts && r[k].payload.Position?
  {
    var n := |p.rng|;
    seq(n, j requires 0 <= j < n => Event(p.rng[j], Move, p.acts, Position(MovePosition(cpos, pt, n, j + 1, quad))))
  }

  lemma ScaledBack(a: real, b: real, n: nat)
    requires n >= 1
    ensures a + (b - a) * (1.0 / n as real) * n as real == b
  {
    assert (1.0 / n as real) * n as real == 1.0;
    assert (b - a) * (1.0 / n as real) * n as real == (b - a) * ((1.0 / n as real) * n as real);
  }

  /** The last position `move` books is the target point, in both styles. */
  lemma MoveEndsAtTarget(p: Parsed, cpos: Vec3, pt: Vec3, quad: bool)
    requires |p.rng| >= 1
    ensures var evs := MoveEvents(p, cpos, pt, quad);
      evs[|evs| - 1].payload.p == pt
  {
    var n := |p.rng|;
    assert (n as real / n as real) == 1.0;
    ScaledBack(cpos.x, pt.x, n);
    ScaledBack(cpos.y, pt.y, n);
    ScaledBack(cpos.z, pt.z, n);
  }

  /** `rotate`: every sample turns by `angle / len(rng)`. */
  function RotateEvents(p: Parsed, axis: Axis, angle: real): (r: seq<Event>)
    ensures |r| == |p.rng|
    ensures forall k :: 0 <= k < |r| ==>
      r[k].time == p.rng[k] && r[k].action == Rotate && r[k].targets == p.acts
      && r[k].payload == Turn(axis, angle / |p.rng| as real)
  {
    var n := |p.rng|;
    seq(n, k requires 0 <= k < n => Event(p.rng[k], Rotate, p.acts, Turn(axis, angle / n as real)))
  }

  /** The sum of the turns of a list of rotate events. */
  function TotalTurn(evs: seq<Event>): real {
    if evs == [] then 0.0
    else (if evs[0].payload.Turn? then evs[0].payload.angle else 0.0) + TotalTurn(evs[1..])
  }

  lemma {:induction false} TotalTurnEqual(evs: seq<Event>, c: real)
    requires forall e <- evs :: e.payload.Turn? && e.payload.angle == c
    ensures TotalTurn(evs) == |evs| as real * c
  {
    if evs != [] {
      TotalTurnEqual(evs[1..], c);
    }
  }

  /** The increments `rotate` books add up to the requested angle. */
  lemma RotateSumsToAngle(p: Parsed, axis: Axis, angle: real)
    requires |p.rng| >= 1
    ensures TotalTurn(RotateEvents(p, axis, angle)) == angle
  {
    var n := |p.rng|;
    TotalTurnEqual(RotateEvents(p, axis, angle), angle / n as real);
    assert n as real * (angle / n as real) == angle;
  }

  /** `scale`: the factor interpolated from 1 to `factor`. */
  function ScaleEvents(p: Parsed, factor: real): (r: seq<Event>)
    ensures |r| == |p.rng|
    ensures forall k :: 0 <= k < |r| ==>
      r[k].time == p.rng[k] && r[k].action == Scale && r[k].targets == p.acts && r[k].payload.Factor?
  {
    seq(|p.rng|, k requires 0 <= k < |p.rng| => Event(p.rng[k], Scale, p.acts, Factor(Along(p, p.rng[k], 1.0, factor))))
  }

  /**
   * `scale` as evidently intended: each sample sets the scale to the
   * interpolated factor instead of multiplying the current scale by it.
   */
  function ScaleToEvents(p: Parsed, factor: real): (r: seq<Event>)
    ensures |r| == |p.rng|
    ensures forall k :: 0 <= k < |r| ==>
      r[k].time == p.rng[k] && r[k].action == ScaleTo && r[k].targets == p.acts && r[k].payload.Factor?
  {
    seq(|p.rng|, k requires 0 <= k < |p.rng| => Event(p.rng[k], ScaleTo, p.acts, Factor(Along(p, p.rng[k], 1.0, factor))))
  }

  // ---------------------------------------------------------------------------
  // Where a transition leaves its targets once all its events are played.

  /** Over a non-empty interval the last sample is at the end of the interval. */
  lemma AlongAtEnd(p: Parsed, res: real, n: nat, y0: real, y1: real)
    requires Quantised(p, res, n) && n >= 1 && res != 0.0
    ensures Along(p, p.rng[n], y0, y1) == y1
  {
    assert p.t + p.duration != p.t by {
      assert p.duration == n as real * res;
      assert n as real * res != 0.0;
    }
    assert p.rng[n] == p.t + p.duration;
  }

  /** After `change_line_width` every target has the requested width. */
  lemma LineWidthEndsAt(scene: Scene, p: Parsed, lw: real, start: seq<real>, res: real, n: nat, o: ObjId)
    requires |start| == |p.acts| && Quantised(p, res, n) && n >= 1 && res != 0.0
    requires o in scene && o in p.acts
    ensures Replay(scene, LineWidthEvents(p, lw, start))[o].lineWidth == lw
  {
    var evs := LineWidthEvents(p, lw, start);
    var last := evs[|evs| - 1];
    forall j | 0 <= j < |start| ensures last.payload.ws[j] == lw {
      AlongAtEnd(p, res, n, start[j], lw);
    }
    ReplayEstablishes(scene, evs, o, (x: Props) => x.lineWidth == lw);
  }

  /**
   * After `change_lighting` with a known style every target has the
   * coefficients of that style.
   */
  lemma LightingEndsAt(scene: Scene, p: Parsed, pars: Option<Light>, start: seq<Light>, res: real, n: nat, o: ObjId)
    requires |start| == |p.acts| && Quantised(p, res, n) && n >= 1 && res != 0.0
    requires o in scene && o in p.acts && pars.Some?
    ensures LightingEvents(p, pars, start).Success?
    ensures Replay(scene, LightingEvents(p, pars, start).value)[o].light == pars.value
  {
    var evs := LightingEvents(p, pars, start).value;
    var last := evs[|evs| - 1];
    var to := pars.value;
    forall j | 0 <= j < |start| ensures last.payload.ls[j] == to {
      AlongAtEnd(p, res, n, start[j].ambient, to.ambient);
      AlongAtEnd(p, res, n, start[j].diffuse, to.diffuse);
      AlongAtEnd(p, res, n, start[j].specular, to.specular);
      AlongAtEnd(p, res, n, start[j].specularPower, to.specularPower);
    }
    ReplayEstablishes(scene, evs, o, (x: Props) => x.light == to);
  }

  /**
   * After `change_backcolor` a target that has a back-face property at every
   * place it takes among the targets has the requested back colour.
   */
  lemma BackColorEndsAt(scene: Scene, p: Parsed, c2: Color, start: seq<Option<Color>>, res: real, n: nat, o: ObjId)
    requires |start| == |p.acts| && Quantised(p, res, n) && n >= 1 && res != 0.0
    requires o in scene && o in p.acts
    requires forall j :: 0 <= j < |p.acts| && p.acts[j] == o ==> start[j].Some?
    ensures Replay(scene, BackColorEvents(p, c2, start))[o].backColor == Some(c2)
  {
    var evs := BackColorEvents(p, c2, start);
    var last := evs[|evs| - 1];
    forall j | 0 <= j < |start| && start[j].Some? ensures last.payload.bs[j] == Some(c2) {
      var c1 := start[j].value;
      AlongAtEnd(p, res, n, c1.r, c2.r);
      AlongAtEnd(p, res, n, c1.g, c2.g);
      AlongAtEnd(p, res, n, c1.b, c2.b);
    }
    ReplayEstablishes(scene, evs, o, (x: Props) => x.backColor == Some(c2));
  }

  /**
   * As written, `scale` multiplies the current scale by every sampled factor
   * in turn: a target listed once ends at its scale times the product of
   * all of them.
   */
  lemma ScaleCompounds(scene: Scene, p: Parsed, factor: real, o: ObjId)
    requires o in scene && Occurrences(p.acts, o) == 1
    ensures Replay(scene, ScaleEvents(p, factor))[o].scale == scene[o].scale * Factors(ScaleEvents(p, factor))
  {
    ReplayScales(scene, ScaleEvents(p, factor), o);
  }

  /**
   * `scale(factor=2)` over one time unit at a resolution of 0.5 samples the
   * factors 1, 1.5 and 2, and leaves a target of scale 1 at scale 3, not 2.
   */
  lemma ScaleOvershoots(scene: Scene, o: ObjId)
    requires o in scene && scene[o].scale == 1.0
    ensures ParseSpec(None, None, None, 0.5, Some([o]), Some(0.0), Some(1.0)) == Success(Parsed([o], 0.0, 1.0, [0.0, 0.5, 1.0]))
    ensures Replay(scene, ScaleEvents(Parsed([o], 0.0, 1.0, [0.0, 0.5, 1.0]), 2.0))[o].scale == 3.0
  {
    assert Steps(0.0, 0.5) == 0 && Steps(1.0, 0.5) == 2;
    assert Linspace(0.0, 0.0 + 2 as real * 0.5, 2 + 1) == [0.0, 0.5, 1.0] by {
      SamplesAreSteps(0.0, 2, 0.5, 1);
    }
    var p := Parsed([o], 0.0, 1.0, [0.0, 0.5, 1.0]);
    var evs := ScaleEvents(p, 2.0);
    assert Occurrences(p.acts, o) == 1 by {
      assert p.acts[1..] == [];
    }
    ScaleCompounds(scene, p, 2.0, o);
    assert evs[0].payload.f == 1.0 && evs[1].payload.f == 1.5 && evs[2].payload.f == 2.0 by {
      assert Along(p, 0.5, 1.0, 2.0) == 1.0 + (0.5 - 0.0) / (1.0 - 0.0) * (2.0 - 1.0) == 1.5;
    }
    assert Factors(evs[2..]) == 2.0 by {
      assert evs[2..][1..] == [];
    }
    assert evs[1..][1..] == evs[2..];
    assert Factors(evs) == 3.0;
  }

  /** The corrected `scale` leaves every target at the requested factor. */
  lemma ScaleToEndsAtFactor(scene: Scene, p: Parsed, factor: real, res: real, n: nat, o: ObjId)
    requires Quantised(p, res, n) && n >= 1 && res != 0.0
    requires o in scene && o in p.acts
    ensures Replay(scene, ScaleToEvents(p, factor))[o].scale == factor
  {
    AlongAtEnd(p, res, n, 1.0, factor);
    ReplayEstablishes(scene, ScaleToEvents(p, factor), o, (x: Props) => x.scale == factor);
  }

  /**
   * `mesh_erode` from the `k`-th sample on: the radius grows from `dmin` to
   * `1.01 * diag`; a sample is kept only when its radius is positive and the
   * points found within it (`query`, the wrapped library's search) are no
   * more than the mesh has.
   */
  function ErodeEvents(p: Parsed, k: nat, dmin: real, diag: real, npoints: nat, query: real -> seq<nat>): (r: seq<Event>)
    requires k <= |p.rng|
    ensures |r| <= |p.rng| - k
    ensures forall e <- r :: (e.action == MeshErode && e.targets == p.acts && e.payload.PointIds?
      && |e.payload.ids| <= npoints && e.time in p.rng[k..])
    decreases |p.rng| - k
  {
    if k == |p.rng| then []
    else
      var d := Along(p, p.rng[k], dmin, diag * 1.01);
      var rest := ErodeEvents(p, k + 1, dmin, diag, npoints, query);
      assert forall e <- rest :: e.time in p.rng[k..] by {
        assert p.rng[k + 1..] <= p.rng[k..][1..];
      }
      if d > 0.0 && |query(d)| <= npoints then [Event(p.rng[k], MeshErode, p.acts, PointIds(query(d)))] + rest
      else rest
  }

  lemma ErodeStep(p: Parsed, k: nat, dmin: real, diag: real, npoints: nat, query: real -> seq<nat>)
    requires k < |p.rng|
    ensures var d := Along(p, p.rng[k], dmin, diag * 1.01);
      ErodeEvents(p, k, dmin, diag, npoints, query)
        == (if d > 0.0 && |query(d)| <= npoints then [Event(p.rng[k], MeshErode, p.acts, PointIds(query(d)))] else [])
           + ErodeEvents(p, k + 1, dmin, diag, npoints, query)
  {
  }

  /** `corners[corner]` for the eight corners of a bounding box, with Python's negative indices. */
  predicate CornerIndexOk(corner: int) {
    -8 <= corner < 8
  }
  // ---------------------------------------------------------------------------
  // What the targets' properties read at booking time.

  function BackColours(acts: seq<ObjId>, scene: Scene): (r: seq<Option<Color>>)
    requires Known(acts, scene)
    ensures |r| == |acts|
  {
    seq(|acts|, i requires 0 <= i < |acts| => scene[acts[i]].backColor)
  }

  function LineWidths(acts: seq<ObjId>, scene: Scene): (r: seq<real>)
    requires Known(acts, scene)
    ensures |r| == |acts|
  {
    seq(|acts|, i requires 0 <= i < |acts| => scene[acts[i]].lineWidth)
  }

  function Lightings(acts: seq<ObjId>, scene: Scene): (r: seq<Light>)
    requires Known(acts, scene)
    ensures |r| == |acts|
  {
    seq(|acts|, i requires 0 <= i < |acts| => scene[acts[i]].light)
  }

  /** A transition method of `Animation` with its own arguments (those other than targets, time and duration). */
  datatype Call =
    | FadeInCall
    | FadeOutCall
    | AlphaBetweenCall(alpha1: real, alpha2: real)
    | ColorCall(c: Color)
    | BackColorCall(bc: Color)
    | WireCall(on: bool)
    | LineWidthCall(lw: real)
    | LineColorCall(lc: Color)
    | LightingCall(style: string)
    | MoveCall(pt: Vec3, style: string)
    | RotateCall(axis: Axis, angle: real)
    | ScaleCall(factor: real)
      /** `dmin` is the distance from the corner to the mesh, `query` the points within a radius of it. */
    | ErodeCall(corner: int, dmin: real, diag: real, npoints: nat, query: real -> seq<nat>)

  /**
   * The events a transition books for a parsed call, or the exception it
   * raises after parsing: every event targets the parsed objects, and all
   * but the wireframe/surface switch happen at one of the sample times.
   */
  function Bookings(call: Call, p: Parsed, scene: Scene): Result<seq<Event>, AnimError>
    requires Known(p.acts, scene)
  {
    match call
    case FadeInCall => Success(FadeInEvents(p))
    case FadeOutCall => Success(FadeOutEvents(p))
    case AlphaBetweenCall(a1, a2) => Success(AlphaBetweenEvents(p, a1, a2))
    case ColorCall(c) => Success(ColorEvents(p, ChangeColor, c, Colours(p.acts, scene, false)))
    case BackColorCall(c) => Success(BackColorEvents(p, c, BackColours(p.acts, scene)))
    case WireCall(on) => Success(WireEvents(p, on))
    case LineWidthCall(lw) => Success(LineWidthEvents(p, lw, LineWidths(p.acts, scene)))
    case LineColorCall(c) => Success(ColorEvents(p, LineColor, c, Colours(p.acts, scene, true)))
    case LightingCall(style) => LightingEvents(p, StylePars(style), Lightings(p.acts, scene))
    case MoveCall(pt, style) =>
      if p.acts == [] then Failure(IndexError)
      else Success(MoveEvents(p, scene[p.acts[0]].pos, pt, Contains(style, "quad")))
    case RotateCall(axis, angle) => Success(RotateEvents(p, axis, angle))
    case ScaleCall(f) => Success(ScaleEvents(p, f))
    case ErodeCall(corner, dmin, diag, npoints, query) =>
      if p.acts == [] || !CornerIndexOk(corner) then Failure(IndexError)
      else Success(ErodeEvents(p, 0, dmin, diag, npoints, query))
  }

  /**
   * Which transitions raise after parsing (lighting with an unknown style
   * when there is something to light, move and mesh erosion without a
   * target, erosion with a corner outside -8..7), with which error, and
   * that every event booked targets the parsed performers at a parsed step.
   */
  lemma BookingsMeaning(call: Call, p: Parsed, scene: Scene)
    requires Known(p.acts, scene)
    ensures var r := Bookings(call, p, scene);
      && (r.Failure? <==>
           || (call.LightingCall? && StylePars(call.style).None? && |p.rng| > 0 && |p.acts| > 0)
           || ((call.MoveCall? || call.ErodeCall?) && p.acts == [])
           || (call.ErodeCall? && !CornerIndexOk(call.corner)))
      && (r.Failure? ==> r.error == (if call.LightingCall? then UnboundStyle else IndexError))
      && (r.Success? ==> forall e <- r.value :: e.targets == p.acts)
      && (r.Success? && !call.WireCall? ==> forall e <- r.value :: e.time in p.rng)
  {
  }
}
