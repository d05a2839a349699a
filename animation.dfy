/**
 * The `Animation` plotter (vedo/applications.py:2520-2919): transition
 * methods book timed events while `bookingMode` is on; `play` sorts the
 * events by time, replays them one by one, and renders a frame whenever the
 * clock has advanced.
 */
module AnimationClass {
  import opened Wrappers
  import opened PyOps
  import opened Quantize
  import opened Events
  import opened Booking

  /**
   * `objs` with the objects of `added` it does not yet hold appended, in
   * order of first appearance: the appended objects are new, each is in
   * `added`, and they come in the order of their first place there (so no
   * object is appended twice).
   */
  function AddNew(objs: seq<ObjId>, added: seq<ObjId>): (r: seq<ObjId>)
    ensures objs <= r
    ensures forall o :: o in r <==> o in objs || o in added
    ensures forall i :: |objs| <= i < |r| ==> r[i] in added && r[i] !in objs
    ensures forall i, j :: |objs| <= i < j < |r| ==> FirstPlace(added, r[i]) < FirstPlace(added, r[j])
    ensures NoDuplicates(objs) ==> NoDuplicates(r)
    decreases |added|
  {
    if added == [] then objs
    else
      var front := added[..|added| - 1];
      var x := added[|added| - 1];
      var prefix := AddNew(objs, front);
      assert forall o :: o in added <==> o in front || o == x by {
        assert added == front + [x];
      }
      forall i | |objs| <= i < |prefix| ensures FirstPlace(added, prefix[i]) == FirstPlace(front, prefix[i]) {
        FirstPlaceInFront(added, |added| - 1, prefix[i]);
      }
      if x in prefix then prefix
      else
        assert x !in front;
        assert FirstPlace(added, x) == |added| - 1;
        prefix + [x]
  }

  /** Registering one more target appends it when it is new. */
  lemma AddNewStep(objs: seq<ObjId>, acts: seq<ObjId>, i: nat)
    requires i < |acts|
    ensures var prefix := AddNew(objs, acts[..i]);
      AddNew(objs, acts[..i + 1]) == if acts[i] in prefix then prefix else prefix + [acts[i]]
  {
    assert acts[..i + 1][..i] == acts[..i];
  }

  /** The index of the first occurrence of `o` in `xs`. */
  function FirstPlace(xs: seq<ObjId>, o: ObjId): (k: nat)
    requires o in xs
    ensures k < |xs| && xs[k] == o
    ensures forall j :: 0 <= j < k ==> xs[j] != o
  {
    if xs[0] == o then 0 else 1 + FirstPlace(xs[1..], o)
  }

  /** An object that occurs among the first `k` has its first place there. */
  lemma FirstPlaceInFront(xs: seq<ObjId>, k: nat, o: ObjId)
    requires k <= |xs| && o in xs[..k]
    ensures FirstPlace(xs, o) == FirstPlace(xs[..k], o)
  {
    var p := FirstPlace(xs[..k], o);
    assert xs[p] == o;
  }

  predicate NoDuplicates(xs: seq<ObjId>) {
    forall i, j :: 0 <= i < j < |xs| ==> xs[i] != xs[j]
  }

  /** A video file written by `play`: its name, duration, frames and the pauses recorded between them. */
  datatype Video = Video(name: string, duration: real, frames: seq<Scene>, pauses: seq<real>)

  /** The fields of `Animation` other than `events`. */
  datatype Memo = Memo(
    bookingMode: bool,
    totalDuration: Option<real>,
    lastT: Option<real>,
    lastDuration: Option<real>,
    lastActs: Option<seq<ObjId>>,
    objects: seq<ObjId>,
    scene: Scene,
    performers: seq<ObjId>,
    inputValues: Option<Payload>,
    shown: seq<Scene>,
    videos: seq<Video>)

  predicate Given(acts: Option<seq<ObjId>>, scene: Scene) {
    acts.Some? ==> Known(acts.value, scene)
  }

  lemma Regroup<T>(acc: seq<T>, step: seq<T>, rest: seq<T>, acc': seq<T>)
    requires acc' == acc + step
    ensures acc + (step + rest) == acc' + rest
  {
  }

  class Animation {
    const timeResolution: real
    const videoFilename: string
    /** Two event times closer than this count as the same frame. */
    const eps: real := 0.00001

    var events: seq<Event>
    var bookingMode: bool
    var totalDuration: Option<real>
    var lastT: Option<real>
    var lastDuration: Option<real>
    var lastActs: Option<seq<ObjId>>
    /** The plotter's list of objects. */
    var objects: seq<ObjId>
    /** The visual state of every object in existence. */
    var scene: Scene
    /** The targets and payload of the event being replayed. */
    var performers: seq<ObjId>
    var inputValues: Option<Payload>
    /** Every scene rendered, in order. */
    var shown: seq<Scene>
    /** Every video written, in order. */
    var videos: seq<Video>

    ghost predicate Valid()
      reads this`lastActs, this`scene
    {
      lastActs.Some? ==> Known(lastActs.value, scene)
    }

    function Others(): Memo
      reads this`bookingMode, this`totalDuration, this`lastT, this`lastDuration, this`lastActs, this`objects
      reads this`scene, this`performers, this`inputValues, this`shown, this`videos
    {
      Memo(bookingMode, totalDuration, lastT, lastDuration, lastActs, objects, scene, performers, inputValues, shown, videos)
    }

    constructor(totalDuration: Option<real>, timeResolution: real, videoFilename: string, scene: Scene)
      ensures Valid()
      ensures this.timeResolution == timeResolution && this.videoFilename == videoFilename
      ensures this.totalDuration == totalDuration && this.scene == scene
      ensures events == [] && bookingMode
      ensures lastT.None? && lastDuration.None? && lastActs.None?
      ensures objects == [] && performers == [] && inputValues.None? && shown == [] && videos == []
    {
      this.timeResolution := timeResolution;
      this.videoFilename := videoFilename;
      this.totalDuration := totalDuration;
      this.scene := scene;
      events := [];
      bookingMode := true;
      lastT, lastDuration, lastActs := None, None, None;
      objects := [];
      performers, inputValues := [], None;
      shown, videos := [], [];
    }

    /** `_parse`: resolves and quantises the arguments, remembers them, and registers new targets. */
    method Parse(acts: Option<seq<ObjId>>, t: Option<real>, duration: Option<real>) returns (r: Result<Parsed, AnimError>)
      requires Valid() && Given(acts, scene)
      modifies this
      ensures Valid() && events == old(events)
      ensures r == ParseSpec(old(lastT), old(lastDuration), old(lastActs), timeResolution, acts, t, duration)
      ensures r.Failure? ==> Others() == old(Others())
      ensures r.Success? ==> Others() == old(Others()).(
        lastT := Some(r.value.t), lastDuration := Some(r.value.duration),
        lastActs := Some(r.value.acts), objects := AddNew(old(objects), r.value.acts))
    {
      r := ParseSpec(lastT, lastDuration, lastActs, timeResolution, acts, t, duration);
      if r.Failure? {
        return;
      }
      var p := r.value;
      lastT, lastDuration, lastActs := Some(p.t), Some(p.duration), Some(p.acts);
      Register(p.acts);
    }

    /** The loop at the end of `_parse`: each target not yet in `objects` is appended to it. */
    method Register(acts: seq<ObjId>)
      modifies this`objects
      ensures objects == AddNew(old(objects), acts)
    {
      ghost var objs := objects;
      var i := 0;
      while i < |acts|
        invariant 0 <= i <= |acts|
        invariant objects == AddNew(objs, acts[..i])
      {
        AddNewStep(objs, acts, i);
        if acts[i] !in objects {
          objects := objects + [acts[i]];
        }
        i := i + 1;
      }
      assert acts[..i] == acts;
    }

    /**
     * What a transition method promises: a call whose arguments cannot be
     * parsed raises and changes nothing; otherwise the parsed arguments are
     * remembered, the new targets registered, and the transition's events
     * appended (none when it raises after parsing).
     */
    twostate predicate BookedBy(call: Call, acts: Option<seq<ObjId>>, t: Option<real>, duration: Option<real>, new r: Result<(), AnimError>)
      requires old(Valid()) && old(Given(acts, scene))
      reads this
    {
      var pr := ParseSpec(old(lastT), old(lastDuration), old(lastActs), timeResolution, acts, t, duration);
      if pr.Failure? then r == Failure(pr.error) && events == old(events) && Others() == old(Others())
      else
        var p := pr.value;
        var b := Bookings(call, p, old(scene));
        && r == (if b.Success? then Success(()) else Failure(b.error))
        && events == old(events) + (if b.Success? then b.value else [])
        && Others() == old(Others()).(
             lastT := Some(p.t), lastDuration := Some(p.duration),
             lastActs := Some(p.acts), objects := AddNew(old(objects), p.acts))
    }

    /**
     * The shape every transition method shares: `_parse` the arguments,
     * then book the transition's events from the parsed ones.
     */
    method Book(call: Call, acts: Option<seq<ObjId>>, t: Option<real>, duration: Option<real>) returns (r: Result<(), AnimError>)
      requires Valid() && Given(acts, scene)
      modifies this
      ensures Valid() && BookedBy(call, acts, t, duration, r)
    {
      var pr := Parse(acts, t, duration);
      if pr.Failure? {
        return Failure(pr.error);
      }
      var p := pr.value;
      assert scene == old(scene) && Known(p.acts, scene);
      ghost var parsed := Others();
      r := Append(call, p);
      assert Others() == parsed;
    }

    /**
     * The booking loop of each transition, after parsing: move and mesh
     * erosion raise IndexError without a target (and erosion for a corner
     * outside -8..7), lighting raises for an unknown style.
     */
    method Append(call: Call, p: Parsed) returns (r: Result<(), AnimError>)
      requires Valid() && Known(p.acts, scene)
      modifies this`events
      ensures Valid()
      ensures var b := Bookings(call, p, scene);
        && r == (if b.Success? then Success(()) else Failure(b.error))
        && events == old(events) + (if b.Success? then b.value else [])
    {
      r := Success(());
      match call
      case FadeInCall => AppendAlpha(p, Action.FadeIn, 0.0, 1.0);
      case FadeOutCall => AppendAlpha(p, Action.FadeOut, 1.0, 0.0);
      case AlphaBetweenCall(a1, a2) => AppendAlpha(p, Action.FadeOut, a1, a2);
      case ColorCall(c) => AppendColors(p, Action.ChangeColor, c, false);
      case BackColorCall(c) => AppendBackColors(p, c);
      case WireCall(on) =>
        events := events + [Event(p.t, if on then Action.ToWireframe else Action.ToSurface, p.acts, Wire(on))];
      case LineWidthCall(lw) => AppendWidths(p, lw);
      case LineColorCall(c) => AppendColors(p, Action.LineColor, c, true);
      case LightingCall(style) => r := AppendLights(p, StylePars(style));
      case MoveCall(pt, style) =>
        if p.acts == [] {
          return Failure(IndexError);
        }
        AppendMoves(p, scene[p.acts[0]].pos, pt, Contains(style, "quad"));
      case RotateCall(axis, angle) => AppendTurns(p, axis, angle);
      case ScaleCall(f) => AppendScales(p, f);
      case ErodeCall(corner, dmin, diag, npoints, query) =>
        if p.acts == [] || !(-8 <= corner < 8) {
          return Failure(IndexError);
        }
        AppendErosion(p, dmin, diag, npoints, query);
    }

    /** `fade_in`: alpha rises from 0 to 1 over the duration. */
    method FadeIn(acts: Option<seq<ObjId>>, t: Option<real>, duration: Option<real>) returns (r: Result<(), AnimError>)
      requires Valid() && bookingMode && Given(acts, scene)
      modifies this
      ensures Valid() && BookedBy(FadeInCall, acts, t, duration, r)
    {
      r := Book(FadeInCall, acts, t, duration);
    }

    /** `switch_on`: a fade-in of zero duration. */
    method SwitchOn(acts: Option<seq<ObjId>>, t: Option<real>) returns (r: Result<(), AnimError>)
      requires Valid() && bookingMode && Given(acts, scene)
      modifies this
      ensures Valid() && BookedBy(FadeInCall, acts, t, Some(0.0), r)
    {
      r := FadeIn(acts, t, Some(0.0));
    }

    /** `fade_out`: alpha falls from 1 to 0 over the duration. */
    method FadeOut(acts: Option<seq<ObjId>>, t: Option<real>, duration: Option<real>) returns (r: Result<(), AnimError>)
      requires Valid() && bookingMode && Given(acts, scene)
      modifies this
      ensures Valid() && BookedBy(FadeOutCall, acts, t, duration, r)
    {
      r := Book(FadeOutCall, acts, t, duration);
    }

    /** `switch_off`: a fade-out of zero duration. */
    method SwitchOff(acts: Option<seq<ObjId>>, t: Option<real>) returns (r: Result<(), AnimError>)
      requires Valid() && bookingMode && Given(acts, scene)
      modifies this
      ensures Valid() && BookedBy(FadeOutCall, acts, t, Some(0.0), r)
    {
      r := FadeOut(acts, t, Some(0.0));
    }

    /**
     * `change_alpha_between` as written: the interpolated alphas are booked
     * under `fade_out`, so playback only ever lowers alpha (see
     * `Booking.AlphaBetweenFallsShort`).
     */
    method ChangeAlphaBetween(alpha1: real, alpha2: real, acts: Option<seq<ObjId>>, t: Option<real>, duration: Option<real>)
      returns (r: Result<(), AnimError>)
      requires Valid() && bookingMode && Given(acts, scene)
      modifies this
      ensures Valid() && BookedBy(AlphaBetweenCall(alpha1, alpha2), acts, t, duration, r)
    {
      r := Book(AlphaBetweenCall(alpha1, alpha2), acts, t, duration);
    }

    /** One event per sample with the alpha interpolated from `a1` to `a2`. */
    method AppendAlpha(p: Parsed, action: Action, a1: real, a2: real)
      requires Valid() && Known(p.acts, scene)
      modifies this`events
      ensures Valid() && events == old(events) + AlphaEvents(p, action, a1, a2)
    {
      var k := 0;
      while k < |p.rng|
        invariant 0 <= k <= |p.rng|
        invariant Valid() && events == old(events) + AlphaEvents(p, action, a1, a2)[..k]
      {
        var tt := p.rng[k];
        events := events + [Event(tt, action, p.acts, Alpha(Along(p, tt, a1, a2)))];
        k := k + 1;
      }
      assert AlphaEvents(p, action, a1, a2)[..k] == AlphaEvents(p, action, a1, a2);
    }

    /** `change_color`: each target's colour moves to `c`. */
    method ChangeColor(c: Color, acts: Option<seq<ObjId>>, t: Option<real>, duration: Option<real>) returns (r: Result<(), AnimError>)
      requires Valid() && bookingMode && Given(acts, scene)
      modifies this
      ensures Valid() && BookedBy(ColorCall(c), acts, t, duration, r)
    {
      r := Book(ColorCall(c), acts, t, duration);
    }

    /** `change_line_color`: each target's edge colour moves to `c`. */
    method ChangeLineColor(c: Color, acts: Option<seq<ObjId>>, t: Option<real>, duration: Option<real>) returns (r: Result<(), AnimError>)
      requires Valid() && bookingMode && Given(acts, scene)
      modifies this
      ensures Valid() && BookedBy(LineColorCall(c), acts, t, duration, r)
    {
      r := Book(LineColorCall(c), acts, t, duration);
    }

    /** Per sample, the list of interpolated colours of the targets (their surface or their edge colours). */
    method AppendColors(p: Parsed, action: Action, c2: Color, ofLines: bool)
      requires Valid() && Known(p.acts, scene)
      modifies this`events
      ensures Valid() && events == old(events) + ColorEvents(p, action, c2, Colours(p.acts, scene, ofLines))
    {
      ghost var start := Colours(p.acts, scene, ofLines);
      var k := 0;
      while k < |p.rng|
        invariant 0 <= k <= |p.rng|
        invariant Valid() && events == old(events) + ColorEvents(p, action, c2, start)[..k]
      {
        var tt := p.rng[k];
        var vals: seq<Color> := [];
        var i := 0;
        while i < |p.acts|
          invariant 0 <= i <= |p.acts|
          invariant vals == ColorsAt(p, tt, c2, start)[..i]
        {
          var c1 := if ofLines then scene[p.acts[i]].lineColor else scene[p.acts[i]].color;
          vals := vals + [ColorAlong(p, tt, c1, c2)];
          i := i + 1;
        }
        assert vals == ColorsAt(p, tt, c2, start);
        events := events + [Event(tt, action, p.acts, Colors(vals))];
        k := k + 1;
      }
      assert ColorEvents(p, action, c2, start)[..k] == ColorEvents(p, action, c2, start);
    }

    /** `change_backcolor`: the back colour of each target that has one moves to `c`. */
    method ChangeBackcolor(c: Color, acts: Option<seq<ObjId>>, t: Option<real>, duration: Option<real>) returns (r: Result<(), AnimError>)
      requires Valid() && bookingMode && Given(acts, scene)
      modifies this
      ensures Valid() && BookedBy(BackColorCall(c), acts, t, duration, r)
    {
      r := Book(BackColorCall(c), acts, t, duration);
    }

    /** Per sample, the interpolated back colours of the targets (`None` for those without). */
    method AppendBackColors(p: Parsed, c: Color)
      requires Valid() && Known(p.acts, scene)
      modifies this`events
      ensures Valid() && events == old(events) + BackColorEvents(p, c, BackColours(p.acts, scene))
    {
      ghost var start := BackColours(p.acts, scene);
      var k := 0;
      while k < |p.rng|
        invariant 0 <= k <= |p.rng|
        invariant Valid() && events == old(events) + BackColorEvents(p, c, start)[..k]
      {
        var tt := p.rng[k];
        var vals: seq<Option<Color>> := [];
        var i := 0;
        while i < |p.acts|
          invariant 0 <= i <= |p.acts|
          invariant vals == BackColorsAt(p, tt, c, start)[..i]
        {
          var v := match scene[p.acts[i]].backColor
            case Some(c1) => Some(ColorAlong(p, tt, c1, c))
            case None => None;
          vals := vals + [v];
          i := i + 1;
        }
        assert vals == BackColorsAt(p, tt, c, start);
        events := events + [Event(tt, Action.ChangeBackcolor, p.acts, BackColors(vals))];
        k := k + 1;
      }
      assert BackColorEvents(p, c, start)[..k] == BackColorEvents(p, c, start);
    }
    /** `change_to_wireframe`: one event at the start time; the duration is the remembered one. */
    method ChangeToWireframe(acts: Option<seq<ObjId>>, t: Option<real>) returns (r: Result<(), AnimError>)
      requires Valid() && bookingMode && Given(acts, scene)
      modifies this
      ensures Valid() && BookedBy(WireCall(true), acts, t, None, r)
    {
      r := Book(WireCall(true), acts, t, None);
    }

    /** `change_to_surface`: one event at the start time; the duration is the remembered one. */
    method ChangeToSurface(acts: Option<seq<ObjId>>, t: Option<real>) returns (r: Result<(), AnimError>)
      requires Valid() && bookingMode && Given(acts, scene)
      modifies this
      ensures Valid() && BookedBy(WireCall(false), acts, t, None, r)
    {
      r := Book(WireCall(false), acts, t, None);
    }

    /** `change_line_width`: each target's edge width moves to `lw`. */
    method ChangeLineWidth(lw: real, acts: Option<seq<ObjId>>, t: Option<real>, duration: Option<real>) returns (r: Result<(), AnimError>)
      requires Valid() && bookingMode && Given(acts, scene)
      modifies this
      ensures Valid() && BookedBy(LineWidthCall(lw), acts, t, duration, r)
    {
      r := Book(LineWidthCall(lw), acts, t, duration);
    }

    method AppendWidths(p: Parsed, lw: real)
      requires Valid() && Known(p.acts, scene)
      modifies this`events
      ensures Valid() && events == old(events) + LineWidthEvents(p, lw, LineWidths(p.acts, scene))
    {
      ghost var start := LineWidths(p.acts, scene);
      var k := 0;
      while k < |p.rng|
        invariant 0 <= k <= |p.rng|
        invariant Valid() && events == old(events) + LineWidthEvents(p, lw, start)[..k]
      {
        var tt := p.rng[k];
        var vals: seq<real> := [];
        var i := 0;
        while i < |p.acts|
          invariant 0 <= i <= |p.acts|
          invariant vals == WidthsAt(p, tt, lw, start)[..i]
        {
          vals := vals + [Along(p, tt, scene[p.acts[i]].lineWidth, lw)];
          i := i + 1;
        }
        assert vals == WidthsAt(p, tt, lw, start);
        events := events + [Event(tt, LineWidth, p.acts, Widths(vals))];
        k := k + 1;
      }
      assert LineWidthEvents(p, lw, start)[..k] == LineWidthEvents(p, lw, start);
    }

    /**
     * `change_lighting`: each target's coefficients move to those of the
     * named style; an unknown style raises once a coefficient is needed.
     */
    method ChangeLighting(style: string, acts: Option<seq<ObjId>>, t: Option<real>, duration: Option<real>) returns (r: Result<(), AnimError>)
      requires Valid() && bookingMode && Given(acts, scene)
      modifies this
      ensures Valid() && BookedBy(LightingCall(style), acts, t, duration, r)
    {
      r := Book(LightingCall(style), acts, t, duration);
    }

    method AppendLights(p: Parsed, pars: Option<Light>) returns (r: Result<(), AnimError>)
      requires Valid() && Known(p.acts, scene)
      modifies this`events
      ensures Valid()
      ensures var b := LightingEvents(p, pars, Lightings(p.acts, scene));
        && r == (if b.Success? then Success(()) else Failure(b.error))
        && events == old(events) + (if b.Success? then b.value else [])
    {
      ghost var start := Lightings(p.acts, scene);
      ghost var to := pars.GetOr(Light(0.0, 0.0, 0.0, 0.0));
      ghost var all := seq(|p.rng|, k requires 0 <= k < |p.rng| => Event(p.rng[k], Lighting, p.acts, Lights(LightsAt(p, p.rng[k], to, start))));
      var k := 0;
      while k < |p.rng|
        invariant 0 <= k <= |p.rng|
        invariant Valid() && events == old(events) + all[..k]
        invariant pars.None? && |p.acts| > 0 ==> k == 0
      {
        var tt := p.rng[k];
        var vals: seq<Light> := [];
        var i := 0;
        while i < |p.acts|
          invariant 0 <= i <= |p.acts|
          invariant vals == LightsAt(p, tt, to, start)[..i]
          invariant pars.None? ==> i == 0
        {
          if pars.None? {
            return Failure(UnboundStyle);
          }
          var a := scene[p.acts[i]].light;
          var q := pars.value;
          vals := vals + [Light(Along(p, tt, a.ambient, q.ambient), Along(p, tt, a.diffuse, q.diffuse),
                                Along(p, tt, a.specular, q.specular), Along(p, tt, a.specularPower, q.specularPower))];
          i := i + 1;
        }
        assert vals == LightsAt(p, tt, to, start);
        events := events + [Event(tt, Lighting, p.acts, Lights(vals))];
        k := k + 1;
      }
      assert all[..k] == all;
      return Success(());
    }

    /**
     * `move`: the first target travels from where it is to `pt`, in equal
     * steps or, in the "quad" style, accelerating; no target raises IndexError.
     */
    method Move(act: Option<seq<ObjId>>, pt: Vec3, t: Option<real>, duration: Option<real>, style: string) returns (r: Result<(), AnimError>)
      requires Valid() && bookingMode && Given(act, scene)
      modifies this
      ensures Valid() && BookedBy(MoveCall(pt, style), act, t, duration, r)
    {
      r := Book(MoveCall(pt, style), act, t, duration);
    }

    method AppendMoves(p: Parsed, cpos: Vec3, pt: Vec3, quad: bool)
      requires Valid() && Known(p.acts, scene)
      modifies this`events
      ensures Valid() && events == old(events) + MoveEvents(p, cpos, pt, quad)
    {
      var n := |p.rng|;
      var j := 0;
      while j < n
        invariant 0 <= j <= n
        invariant Valid() && events == old(events) + MoveEvents(p, cpos, pt, quad)[..j]
      {
        var i := j + 1;
        events := events + [Event(p.rng[j], Action.Move, p.acts, Position(MovePosition(cpos, pt, n, i, quad)))];
        j := j + 1;
      }
      assert MoveEvents(p, cpos, pt, quad)[..j] == MoveEvents(p, cpos, pt, quad);
    }

    /** `rotate`: the first target turns about `axis` by `angle`, in equal increments. */
    method Rotate(act: Option<seq<ObjId>>, axis: Axis, angle: real, t: Option<real>, duration: Option<real>) returns (r: Result<(), AnimError>)
      requires Valid() && bookingMode && Given(act, scene)
      modifies this
      ensures Valid() && BookedBy(RotateCall(axis, angle), act, t, duration, r)
    {
      r := Book(RotateCall(axis, angle), act, t, duration);
    }

    method AppendTurns(p: Parsed, axis: Axis, angle: real)
      requires Valid() && Known(p.acts, scene)
      modifies this`events
      ensures Valid() && events == old(events) + RotateEvents(p, axis, angle)
    {
      var k := 0;
      while k < |p.rng|
        invariant 0 <= k <= |p.rng|
        invariant Valid() && events == old(events) + RotateEvents(p, axis, angle)[..k]
      {
        var ang := angle / |p.rng| as real;
        events := events + [Event(p.rng[k], Action.Rotate, p.acts, Turn(axis, ang))];
        k := k + 1;
      }
      assert RotateEvents(p, axis, angle)[..k] == RotateEvents(p, axis, angle);
    }

    /** `scale`: the targets' scale factor moves from 1 to `factor`. */
    method Scale(acts: Option<seq<ObjId>>, factor: real, t: Option<real>, duration: Option<real>) returns (r: Result<(), AnimError>)
      requires Valid() && bookingMode && Given(acts, scene)
      modifies this
      ensures Valid() && BookedBy(ScaleCall(factor), acts, t, duration, r)
    {
      r := Book(ScaleCall(factor), acts, t, duration);
    }

    method AppendScales(p: Parsed, factor: real)
      requires Valid() && Known(p.acts, scene)
      modifies this`events
      ensures Valid() && events == old(events) + ScaleEvents(p, factor)
    {
      var k := 0;
      while k < |p.rng|
        invariant 0 <= k <= |p.rng|
        invariant Valid() && events == old(events) + ScaleEvents(p, factor)[..k]
      {
        var tt := p.rng[k];
        events := events + [Event(tt, Action.Scale, p.acts, Factor(Along(p, tt, 1.0, factor)))];
        k := k + 1;
      }
      assert ScaleEvents(p, factor)[..k] == ScaleEvents(p, factor);
    }

    /**
     * `mesh_erode`: at each sample, the points of the first target within a
     * growing radius of one of its bounding-box corners, when there are any
     * and no more than the mesh has.
     */
    method MeshErode(act: Option<seq<ObjId>>, corner: int, t: Option<real>, duration: Option<real>,
                     dmin: real, diag: real, npoints: nat, query: real -> seq<nat>) returns (r: Result<(), AnimError>)
      requires Valid() && bookingMode && Given(act, scene)
      modifies this
      ensures Valid() && BookedBy(ErodeCall(corner, dmin, diag, npoints, query), act, t, duration, r)
    {
      r := Book(ErodeCall(corner, dmin, diag, npoints, query), act, t, duration);
    }

    method AppendErosion(p: Parsed, dmin: real, diag: real, npoints: nat, query: real -> seq<nat>)
      requires Valid() && Known(p.acts, scene)
      modifies this`events
      ensures Valid() && events == old(events) + ErodeEvents(p, 0, dmin, diag, npoints, query)
    {
      var k := 0;
      while k < |p.rng|
        invariant 0 <= k <= |p.rng|
        invariant Valid()
        invariant events + ErodeEvents(p, k, dmin, diag, npoints, query) == old(events) + ErodeEvents(p, 0, dmin, diag, npoints, query)
      {
        var tt := p.rng[k];
        var d := Along(p, tt, dmin, diag * 1.01);
        ErodeStep(p, k, dmin, diag, npoints, query);
        ghost var later := ErodeEvents(p, k + 1, dmin, diag, npoints, query);
        if d > 0.0 {
          var ids := query(d);
          if |ids| <= npoints {
            var ev := Event(tt, Action.MeshErode, p.acts, PointIds(ids));
            assert events + ([ev] + later) == (events + [ev]) + later;
            events := events + [ev];
          }
        }
        k := k + 1;
      }
    }

    /**
     * The playback branch of the transition `action`, run on `performers`
     * with `inputValues`: move, and rotate about "x", "y" or "z", raise
     * IndexError without a performer.
     */
    method Dispatch(action: Action) returns (r: Result<(), AnimError>)
      requires inputValues.Some?
      modifies this`scene
      ensures scene.Keys == old(scene).Keys
      ensures var e := Event(0.0, action, performers, inputValues.value);
        && (r.Failure? <==> Crashes(e))
        && (r.Failure? ==> r.error == IndexError && scene == old(scene))
        && (r.Success? ==> scene == Apply(old(scene), e))
    {
      var e := Event(0.0, action, performers, inputValues.value);
      var payload := inputValues.value;
      if |performers| == 0 && (action == Action.Move || (action == Action.Rotate && payload.Turn? && payload.axis != OtherAxis)) {
        return Failure(IndexError);
      }
      var i := 0;
      while i < |e.targets|
        invariant 0 <= i <= |e.targets|
        invariant scene.Keys == old(scene).Keys
        invariant ApplyFrom(scene, e, i) == Apply(old(scene), e)
      {
        var o := e.targets[i];
        if o in scene {
          scene := scene[o := Perform(scene[o], e.action, e.payload, i)];
        }
        i := i + 1;
      }
      return Success(());
    }

    /**
     * `play`: sorts the events by time, replays them in that order, renders
     * the scene after every event that is more than `eps` later than the one
     * before (and once more at the end, and once for the interactive window),
     * and writes those frames as a video with a pause for each gap longer
     * than one time step. Without a total duration an empty list raises
     * IndexError, and so does a move event, or a rotate about "x", "y" or "z", without targets.
     */
    method Play() returns (r: Result<(), AnimError>)
      requires Valid()
      modifies this
      ensures Valid() && SortedByTime(events) && multiset(events) == multiset(old(events))
      ensures forall t :: At(events, t) == At(old(events), t)
      ensures r.Failure? <==> (old(totalDuration).None? && old(events) == []) || exists e <- old(events) :: Crashes(e)
      ensures r.Failure? ==> r.error == IndexError && !bookingMode && videos == old(videos)
      ensures old(totalDuration).None? && events == [] ==> totalDuration.None?
      ensures old(totalDuration).Some? || events != [] ==>
        totalDuration == Some(if old(totalDuration).Some? then old(totalDuration).value else events[|events| - 1].time - events[0].time)
      ensures lastT == old(lastT) && lastDuration == old(lastDuration) && lastActs == old(lastActs) && objects == old(objects)
      ensures r.Success? ==>
        var log := Playback(old(scene), events, 0.0, eps, timeResolution);
        var d := if old(totalDuration).Some? then old(totalDuration).value else events[|events| - 1].time - events[0].time;
        && bookingMode && totalDuration == Some(d) && scene == log.final
        && shown == old(shown) + log.shots + [log.final, log.final]
        && videos == old(videos) +
             (if videoFilename != "" then [Video(videoFilename, d, log.shots + [log.final], log.pauses)] else [])
    {
      SortEvents();
      r := PlaySorted();
    }

    /** `play` once the events are in time order: everything after the sort. */
    method PlaySorted() returns (r: Result<(), AnimError>)
      requires Valid()
      modifies this`bookingMode, this`totalDuration, this`scene, this`shown
      modifies this`performers, this`inputValues, this`videos
      ensures Valid()
      ensures r.Failure? <==> (old(totalDuration).None? && events == []) || exists e <- events :: Crashes(e)
      ensures r.Failure? ==> r.error == IndexError && !bookingMode && videos == old(videos)
      ensures old(totalDuration).None? && events == [] ==> totalDuration.None?
      ensures old(totalDuration).Some? || events != [] ==>
        totalDuration == Some(if old(totalDuration).Some? then old(totalDuration).value else events[|events| - 1].time - events[0].time)
      ensures r.Success? ==>
        var log := Playback(old(scene), events, 0.0, eps, timeResolution);
        var d := if old(totalDuration).Some? then old(totalDuration).value else events[|events| - 1].time - events[0].time;
        && bookingMode && totalDuration == Some(d) && scene == log.final
        && shown == old(shown) + log.shots + [log.final, log.final]
        && videos == old(videos) +
             (if videoFilename != "" then [Video(videoFilename, d, log.shots + [log.final], log.pauses)] else [])
    {
      bookingMode := false;
      r := FixDuration();
      if r.Failure? {
        return;
      }
      var frames, pauses;
      r, frames, pauses := ReplayEvents();
      if r.Failure? {
        return;
      }
      Finish(totalDuration.value, frames, pauses);
    }

    /** Without a total duration, the span from the first to the last (sorted) event; none to span raises IndexError. */
    method FixDuration() returns (r: Result<(), AnimError>)
      modifies this`totalDuration
      ensures r.Failure? <==> old(totalDuration).None? && events == []
      ensures r.Failure? ==> r.error == IndexError && totalDuration == old(totalDuration)
      ensures r.Success? ==>
        totalDuration == Some(if old(totalDuration).Some? then old(totalDuration).value else events[|events| - 1].time - events[0].time)
    {
      r := Success(());
      if totalDuration.None? {
        if events == [] {
          return Failure(IndexError);
        }
        totalDuration := Some(events[|events| - 1].time - events[0].time);
      }
    }

    /**
     * The end of `play`: the final scene is shown, the video is written
     * with it as its last frame, the window shows it once more, and booking
     * mode comes back on.
     */
    method Finish(d: real, frames: seq<Scene>, pauses: seq<real>)
      modifies this`shown, this`videos, this`bookingMode
      ensures bookingMode && shown == old(shown) + [scene, scene]
      ensures videos == old(videos) + (if videoFilename != "" then [Video(videoFilename, d, frames + [scene], pauses)] else [])
    {
      shown := shown + [scene];
      if videoFilename != "" {
        videos := videos + [Video(videoFilename, d, frames + [scene], pauses)];
      }
      shown := shown + [scene];
      bookingMode := true;
    }

    /** `sorted(self.events, key=time)`: a stable sort of the events by time. */
    method SortEvents()
      modifies this`events
      ensures SortedByTime(events) && multiset(events) == multiset(old(events))
      ensures forall t :: At(events, t) == At(old(events), t)
      ensures |events| == |old(events)| && forall e :: e in events <==> e in old(events)
    {
      forall t ensures At(SortByTime(events), t) == At(events, t) {
        SortStable(events, t);
      }
      SortKeepsMembers(events);
      SortSorts(events);
      events := SortByTime(events);
    }

    /**
     * One pass of the replay loop of `play`: the event's targets and payload
     * become the performers and input values, its transition's playback
     * branch runs, and the scene is rendered if the clock moved on.
     */
    method PlayEvent(e: Event, ttlast: real, frames: seq<Scene>, pauses: seq<real>)
      returns (r: Result<(), AnimError>, frames': seq<Scene>, pauses': seq<real>)
      requires Valid()
      modifies this`scene, this`shown, this`performers, this`inputValues
      ensures Valid() && scene.Keys == old(scene).Keys
      ensures r.Failure? <==> Crashes(e)
      ensures r.Failure? ==> r.error == IndexError
      ensures r.Success? ==>
        var dt := e.time - ttlast;
        && scene == Apply(old(scene), e)
        && shown == old(shown) + (if dt > eps then [scene] else [])
        && frames' == frames + (if dt > eps && videoFilename != "" then [scene] else [])
        && pauses' == pauses + (if dt > eps && dt > timeResolution + eps && videoFilename != "" then [dt] else [])
    {
      performers, inputValues := e.targets, Some(e.payload);
      ghost var before := scene;
      r := Dispatch(e.action);
      frames', pauses' := frames, pauses;
      if r.Failure? {
        return;
      }
      ApplyIgnoresTime(before, e, 0.0, 0);
      frames', pauses' := Render(e.time - ttlast, frames, pauses);
    }

    /**
     * The rendering step of the replay loop of `play`: when the clock moved
     * on by more than `eps`, the scene is shown and added to the video, and
     * a gap longer than one time step is recorded as a pause.
     */
    method Render(dt: real, frames: seq<Scene>, pauses: seq<real>) returns (frames': seq<Scene>, pauses': seq<real>)
      modifies this`shown
      ensures shown == old(shown) + (if dt > eps then [scene] else [])
      ensures frames' == frames + (if dt > eps && videoFilename != "" then [scene] else [])
      ensures pauses' == pauses + (if dt > eps && dt > timeResolution + eps && videoFilename != "" then [dt] else [])
    {
      frames', pauses' := frames, pauses;
      if dt > eps {
        shown := shown + [scene];
        if videoFilename != "" {
          frames' := frames' + [scene];
        }
        if dt > timeResolution + eps {
          if videoFilename != "" {
            pauses' := pauses' + [dt];
          }
        }
      }
    }

    /**
     * Where the replay loop stands before event `i`: replaying the rest from
     * the current scene (with `ttlast` the previous event's time) completes
     * the whole replay `log`, the scenes already shown and recorded plus the
     * rest's make up all of them, and the pauses likewise.
     */
    ghost predicate Replaying(evs: seq<Event>, i: nat, ttlast: real, shown0: seq<Scene>, log: PlayLog,
                              frames: seq<Scene>, pauses: seq<real>)
      reads this`scene, this`shown
    {
      && i <= |evs|
      && var rest := Playback(scene, evs[i..], ttlast, eps, timeResolution);
      && rest.final == log.final
      && shown + rest.shots == shown0 + log.shots
      && (videoFilename != "" ==> frames + rest.shots == log.shots && pauses + rest.pauses == log.pauses)
      && (videoFilename == "" ==> frames == [] && pauses == [])
    }

    /**
     * The replay loop of `play` over the (sorted) events: each event hands
     * its targets and payload to its transition's playback branch, and the
     * scene is rendered, and recorded as a video frame, when the event is
     * more than `eps` after the previous one.
     */
    method ReplayEvents() returns (r: Result<(), AnimError>, frames: seq<Scene>, pauses: seq<real>)
      requires Valid()
      modifies this`scene, this`shown, this`performers, this`inputValues
      ensures Valid() && scene.Keys == old(scene).Keys
      ensures r.Failure? <==> exists e <- events :: Crashes(e)
      ensures r.Failure? ==> r.error == IndexError
      ensures r.Success? ==>
        var log := Playback(old(scene), events, 0.0, eps, timeResolution);
        && scene == log.final
        && shown == old(shown) + log.shots
        && frames == (if videoFilename != "" then log.shots else [])
        && pauses == (if videoFilename != "" then log.pauses else [])
    {
      frames, pauses := [], [];
      ghost var log := Playback(scene, events, 0.0, eps, timeResolution);
      ghost var shown0 := shown;
      ghost var evs := events;
      var ttlast := 0.0;
      var i := 0;
      assert events[i..] == events;
      while i < |events|
        invariant i <= |evs| && evs == events && Valid() && scene.Keys == old(scene).Keys
        invariant forall j :: 0 <= j < i ==> !Crashes(evs[j])
        invariant Replaying(evs, i, ttlast, shown0, log, frames, pauses)
      {
        var e := events[i];
        var d;
        d, frames, pauses := Advance(events, i, ttlast, shown0, log, frames, pauses);
        if d.Failure? {
          return d, frames, pauses;
        }
        ttlast := e.time;
        i := i + 1;
      }
      assert evs[i..] == [];
      assert forall e <- evs :: !Crashes(e) by {
        forall e <- evs ensures !Crashes(e) {
          var j :| 0 <= j < |evs| && evs[j] == e;
        }
      }
      return Success(()), frames, pauses;
    }

    /** One pass of the replay loop: event `i` is played and the loop's bookkeeping moves on by one. */
    method Advance(evs: seq<Event>, i: nat, ttlast: real, ghost shown0: seq<Scene>, ghost log: PlayLog,
                   frames: seq<Scene>, pauses: seq<real>)
      returns (r: Result<(), AnimError>, frames': seq<Scene>, pauses': seq<real>)
      requires i < |evs| && Valid() && Replaying(evs, i, ttlast, shown0, log, frames, pauses)
      modifies this`scene, this`shown, this`performers, this`inputValues
      ensures Valid() && scene.Keys == old(scene).Keys
      ensures r.Failure? <==> Crashes(evs[i])
      ensures r.Failure? ==> r.error == IndexError
      ensures r.Success? ==> Replaying(evs, i + 1, evs[i].time, shown0, log, frames', pauses')
    {
      var e := evs[i];
      ReplayStep(scene, evs, i, ttlast, eps, timeResolution);
      ghost var shown1 := shown;
      r, frames', pauses' := PlayEvent(e, ttlast, frames, pauses);
      if r.Failure? {
        return;
      }
      ghost var dt := e.time - ttlast;
      ghost var rest := Playback(scene, evs[i + 1..], e.time, eps, timeResolution);
      ghost var shot := if dt > eps then [scene] else [];
      ghost var pause := if dt > eps && dt > timeResolution + eps then [dt] else [];
      Regroup(shown1, shot, rest.shots, shown);
      if videoFilename != "" {
        Regroup(frames, shot, rest.shots, frames');
        Regroup(pauses, pause, rest.pauses, pauses');
      }
    }
  }
}
