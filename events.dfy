/**
 * The event list of `Animation` (vedo/applications.py:2520-2919): what an
 * event is, what replaying one does to the scene objects, the stable sort by
 * time that `play` starts with, and the rule that decides when `play`
 * renders a frame.
 *
 * Scene objects are reduced to records of the visual properties the
 * animation reads and writes, kept in a map from object identity to record.
 */
module Events {
  import opened Wrappers

  type ObjId = nat

  datatype Vec3 = Vec3(x: real, y: real, z: real) {
    function Plus(o: Vec3): Vec3 { Vec3(x + o.x, y + o.y, z + o.z) }
    function Minus(o: Vec3): Vec3 { Vec3(x - o.x, y - o.y, z - o.z) }
    function Times(c: real): Vec3 { Vec3(x * c, y * c, z * c) }
  }

  datatype Color = Color(r: real, g: real, b: real)

  /** Ambient, diffuse, specular and specular-power coefficients of a material. */
  datatype Light = Light(ambient: real, diffuse: real, specular: real, specularPower: real)

  /** The `axis` argument of `rotate`: playback only recognises the strings "x", "y" and "z". */
  datatype Axis = AxisX | AxisY | AxisZ | OtherAxis

  /** The visual state of one scene object. `angles` accumulates `rotate_x/y/z`. */
  datatype Props = Props(
    alpha: real,
    color: Color,
    backColor: Option<Color>,
    wireframe: bool,
    lineWidth: real,
    lineColor: Color,
    light: Light,
    pos: Vec3,
    angles: Vec3,
    scale: real)

  type Scene = map<ObjId, Props>

  /**
   * The transition method an event calls back during playback. `ChangeAlpha`
   * is the playback branch of `change_alpha_between`.
   */
  datatype Action =
    | FadeIn | FadeOut | ChangeAlpha | ChangeColor | ChangeBackcolor
    | ToWireframe | ToSurface | LineWidth | LineColor | Lighting
    | Move | Rotate | Scale | MeshErode | ScaleTo

  /** The precomputed `_inputvalues` of an event. Per-target lists hold one entry per target. */
  datatype Payload =
    | Alpha(a: real)
    | Colors(cs: seq<Color>)
    | BackColors(bs: seq<Option<Color>>)
    | Wire(on: bool)
    | Widths(ws: seq<real>)
    | Lights(ls: seq<Light>)
    | Position(p: Vec3)
    | Turn(axis: Axis, angle: real)
    | Factor(f: real)
    | PointIds(ids: seq<nat>)

  /** The tuple `(time, action, targets, payload)` appended to `self.events`. */
  datatype Event = Event(time: real, action: Action, targets: seq<ObjId>, payload: Payload)

  predicate Known(targets: seq<ObjId>, scene: Scene) {
    forall o <- targets :: o in scene
  }

  function Turned(p: Props, axis: Axis, angle: real): Props {
    match axis
    case AxisX => p.(angles := p.angles.(x := p.angles.x + angle))
    case AxisY => p.(angles := p.angles.(y := p.angles.y + angle))
    case AxisZ => p.(angles := p.angles.(z := p.angles.z + angle))
    case OtherAxis => p
  }

  /**
   * What the playback branch of `action` does to its `i`-th performer:
   * fade-in only ever raises alpha and fade-out only ever lowers it, move and
   * rotate touch the first performer only, `mesh_erode` has no playback
   * branch, and a missing back-face colour leaves the object as it is.
   */
  function Perform(p: Props, action: Action, payload: Payload, i: nat): (q: Props)
    ensures action == FadeIn ==> q.alpha >= p.alpha
    ensures action == FadeOut ==> q.alpha <= p.alpha
    ensures action == MeshErode ==> q == p
    ensures (action == Move || action == Rotate) && i > 0 ==> q == p
  {
    match payload
    case Alpha(v) =>
      if action == FadeIn then (if p.alpha >= v then p else p.(alpha := v))
      else if action == FadeOut then (if p.alpha <= v then p else p.(alpha := v))
      else if action == ChangeAlpha then p.(alpha := v)
      else p
    case Colors(cs) =>
      if i >= |cs| then p
      else if action == ChangeColor then p.(color := cs[i])
      else if action == LineColor then p.(lineColor := cs[i])
      else p
    case BackColors(bs) =>
      if action == ChangeBackcolor && i < |bs| && bs[i].Some? then p.(backColor := bs[i]) else p
    case Wire(w) =>
      if action == ToWireframe || action == ToSurface then p.(wireframe := w) else p
    case Widths(ws) =>
      if action == LineWidth && i < |ws| then p.(lineWidth := ws[i]) else p
    case Lights(ls) =>
      if action == Lighting && i < |ls| then p.(light := ls[i]) else p
    case Position(v) =>
      if action == Move && i == 0 then p.(pos := v) else p
    case Turn(ax, ang) =>
      if action == Rotate && i == 0 then Turned(p, ax, ang) else p
    case Factor(f) =>
      if action == Scale then p.(scale := p.scale * f)
      else if action == ScaleTo then p.(scale := f)
      else p
    case PointIds(_) => p
  }

  /**
   * Playback of `e` on its performers from the `i`-th on, in order. (A
   * performer is always an object in the scene; one that is not is passed over.)
   */
  function ApplyFrom(scene: Scene, e: Event, i: nat): (r: Scene)
    ensures r.Keys == scene.Keys
    decreases |e.targets| - i
  {
    if i >= |e.targets| then scene
    else
      var o := e.targets[i];
      if o in scene then ApplyFrom(scene[o := Perform(scene[o], e.action, e.payload, i)], e, i + 1)
      else ApplyFrom(scene, e, i + 1)
  }

  /** Playback changes no object that is not among the event's remaining performers. */
  lemma {:induction false} ApplyLeavesOthers(scene: Scene, e: Event, i: nat, o: ObjId)
    requires o in scene && forall j :: i <= j < |e.targets| ==> e.targets[j] != o
    ensures ApplyFrom(scene, e, i)[o] == scene[o]
    decreases |e.targets| - i
  {
    if i < |e.targets| {
      var p := e.targets[i];
      if p in scene {
        ApplyLeavesOthers(scene[p := Perform(scene[p], e.action, e.payload, i)], e, i + 1, o);
      } else {
        ApplyLeavesOthers(scene, e, i + 1, o);
      }
    }
  }

  function Apply(scene: Scene, e: Event): (r: Scene)
  {
    ApplyFrom(scene, e, 0)
  }

  /** Playback does not depend on the time an event was booked for. */
  lemma {:induction false} ApplyIgnoresTime(scene: Scene, e: Event, t: real, i: nat)
    ensures ApplyFrom(scene, e.(time := t), i) == ApplyFrom(scene, e, i)
    decreases |e.targets| - i
  {
    if i < |e.targets| {
      var o := e.targets[i];
      if o in scene {
        ApplyIgnoresTime(scene[o := Perform(scene[o], e.action, e.payload, i)], e, t, i + 1);
      } else {
        ApplyIgnoresTime(scene, e, t, i + 1);
      }
    }
  }

  /**
   * Playback indexes `_performers[0]` for move, and for rotate only about
   * the axes "x", "y" and "z": such an event without targets raises
   * IndexError. A rotate about any other axis touches no performer.
   */
  predicate Crashes(e: Event) {
    && |e.targets| == 0
    && (e.action == Move || (e.action == Rotate && e.payload.Turn? && e.payload.axis != OtherAxis))
  }

  /** Playback of a list of events, one after the other. */
  function Replay(scene: Scene, evs: seq<Event>): (r: Scene)
    ensures r.Keys == scene.Keys
  {
    if evs == [] then scene else Replay(Apply(scene, evs[0]), evs[1..])
  }

  /** A fade-in event never lowers the alpha of any object. */
  lemma {:induction false} FadeInNeverLowers(scene: Scene, e: Event, i: nat)
    requires e.action == FadeIn
    ensures forall o :: o in scene ==> ApplyFrom(scene, e, i)[o].alpha >= scene[o].alpha
    decreases |e.targets| - i
  {
    if i < |e.targets| {
      var o := e.targets[i];
      if o in scene {
        FadeInNeverLowers(scene[o := Perform(scene[o], e.action, e.payload, i)], e, i + 1);
      } else {
        FadeInNeverLowers(scene, e, i + 1);
      }
    }
  }

  /** A fade-out event never raises the alpha of any object. */
  lemma {:induction false} FadeOutNeverRaises(scene: Scene, e: Event, i: nat)
    requires e.action == FadeOut
    ensures forall o :: o in scene ==> ApplyFrom(scene, e, i)[o].alpha <= scene[o].alpha
    decreases |e.targets| - i
  {
    if i < |e.targets| {
      var o := e.targets[i];
      if o in scene {
        FadeOutNeverRaises(scene[o := Perform(scene[o], e.action, e.payload, i)], e, i + 1);
      } else {
        FadeOutNeverRaises(scene, e, i + 1);
      }
    }
  }

  /** Replaying only fade-out events leaves every alpha at or below where it started. */
  lemma {:induction false} FadeOutsNeverRaise(scene: Scene, evs: seq<Event>)
    requires forall e <- evs :: e.action == FadeOut
    ensures forall o :: o in scene ==> Replay(scene, evs)[o].alpha <= scene[o].alpha
  {
    if evs != [] {
      FadeOutNeverRaises(scene, evs[0], 0);
      FadeOutsNeverRaise(Apply(scene, evs[0]), evs[1..]);
    }
  }

  /** A `ChangeAlpha` event sets every one of its remaining performers to its alpha. */
  lemma {:induction false} ChangeAlphaSets(scene: Scene, e: Event, i: nat, o: ObjId)
    requires e.action == ChangeAlpha && e.payload.Alpha?
    requires i <= |e.targets| && o in scene && o in e.targets[i..]
    ensures ApplyFrom(scene, e, i)[o].alpha == e.payload.a
    decreases |e.targets| - i
  {
    var p := e.targets[i];
    var next := if p in scene then scene[p := Perform(scene[p], e.action, e.payload, i)] else scene;
    assert ApplyFrom(scene, e, i) == ApplyFrom(next, e, i + 1);
    if o in e.targets[i + 1..] {
      ChangeAlphaSets(next, e, i + 1, o);
    } else {
      assert p == o by {
        assert e.targets[i..] == [p] + e.targets[i + 1..];
      }
      forall j | i + 1 <= j < |e.targets| ensures e.targets[j] != o {
        assert e.targets[j] == e.targets[i + 1..][j - i - 1];
      }
      ApplyLeavesOthers(next, e, i + 1, o);
    }
  }

  /** Replaying `ChangeAlpha` events that all include `o` leaves `o` at the last event's alpha. */
  lemma {:induction false} ReplayLastAlpha(scene: Scene, evs: seq<Event>, o: ObjId)
    requires evs != [] && o in scene
    requires forall e <- evs :: e.action == ChangeAlpha && e.payload.Alpha? && o in e.targets
    ensures Replay(scene, evs)[o].alpha == evs[|evs| - 1].payload.a
  {
    var next := Apply(scene, evs[0]);
    if |evs| == 1 {
      assert evs[0] in evs && evs[0].targets[0..] == evs[0].targets;
      ChangeAlphaSets(scene, evs[0], 0, o);
      assert Replay(next, evs[1..]) == next;
    } else {
      assert forall e <- evs[1..] :: e in evs;
      ReplayLastAlpha(next, evs[1..], o);
      assert evs[1..][|evs[1..]| - 1] == evs[|evs| - 1];
    }
  }

  /**
   * When every place `o` takes among the performers from the `i`-th on
   * leaves it satisfying `q`, whatever it was before, then so does playback.
   */
  lemma {:induction false} ApplyEstablishes(scene: Scene, e: Event, i: nat, o: ObjId, q: Props -> bool)
    requires i <= |e.targets| && o in scene && o in e.targets[i..]
    requires forall j, x :: i <= j < |e.targets| && e.targets[j] == o ==> q(Perform(x, e.action, e.payload, j))
    ensures q(ApplyFrom(scene, e, i)[o])
    decreases |e.targets| - i
  {
    var p := e.targets[i];
    var next := if p in scene then scene[p := Perform(scene[p], e.action, e.payload, i)] else scene;
    assert ApplyFrom(scene, e, i) == ApplyFrom(next, e, i + 1);
    if o in e.targets[i + 1..] {
      ApplyEstablishes(next, e, i + 1, o, q);
    } else {
      assert p == o by {
        assert e.targets[i..] == [p] + e.targets[i + 1..];
      }
      forall j | i + 1 <= j < |e.targets| ensures e.targets[j] != o {
        assert e.targets[j] == e.targets[i + 1..][j - i - 1];
      }
      ApplyLeavesOthers(next, e, i + 1, o);
    }
  }

  /**
   * When the last event of a list leaves `o` satisfying `q` from every
   * place `o` takes among its performers, so does the list's playback:
   * whatever the events before it did is overwritten.
   */
  lemma {:induction false} ReplayEstablishes(scene: Scene, evs: seq<Event>, o: ObjId, q: Props -> bool)
    requires evs != [] && o in scene && o in evs[|evs| - 1].targets
    requires var last := evs[|evs| - 1];
      forall j, x :: 0 <= j < |last.targets| && last.targets[j] == o ==> q(Perform(x, last.action, last.payload, j))
    ensures q(Replay(scene, evs)[o])
  {
    var next := Apply(scene, evs[0]);
    if |evs| == 1 {
      assert evs[0].targets[0..] == evs[0].targets;
      ApplyEstablishes(scene, evs[0], 0, o, q);
      assert Replay(next, evs[1..]) == next;
    } else {
      assert evs[1..][|evs[1..]| - 1] == evs[|evs| - 1];
      ReplayEstablishes(next, evs[1..], o, q);
    }
  }

  /** How many times `o` is among the performers from the `i`-th on. */
  function Occurrences(targets: seq<ObjId>, o: ObjId): nat {
    if targets == [] then 0 else (if targets[0] == o then 1 else 0) + Occurrences(targets[1..], o)
  }

  /**
   * A scale event acts on an object that is among its performers exactly
   * once as a single `Perform` of it (which multiplies the scale by the
   * event's factor, wherever the object stands among the performers).
   */
  lemma {:induction false} ApplyScalesOnce(scene: Scene, e: Event, i: nat, o: ObjId)
    requires e.action == Scale && e.payload.Factor?
    requires i <= |e.targets| && o in scene && Occurrences(e.targets[i..], o) == 1
    ensures ApplyFrom(scene, e, i)[o] == Perform(scene[o], e.action, e.payload, 0)
    decreases |e.targets| - i
  {
    var p := e.targets[i];
    var next := if p in scene then scene[p := Perform(scene[p], e.action, e.payload, i)] else scene;
    assert e.targets[i..][1..] == e.targets[i + 1..];
    if p == o {
      assert Occurrences(e.targets[i + 1..], o) == 0;
      forall j | i + 1 <= j < |e.targets| ensures e.targets[j] != o {
        OccursNot(e.targets[i + 1..], o, j - i - 1);
      }
      ApplyLeavesOthers(next, e, i + 1, o);
      assert Perform(scene[o], e.action, e.payload, i) == Perform(scene[o], e.action, e.payload, 0);
    } else {
      ApplyScalesOnce(next, e, i + 1, o);
    }
  }

  lemma {:induction false} OccursNot(targets: seq<ObjId>, o: ObjId, k: nat)
    requires Occurrences(targets, o) == 0 && k < |targets|
    ensures targets[k] != o
    decreases k
  {
    if k > 0 {
      OccursNot(targets[1..], o, k - 1);
    }
  }

  /** The factor of a scale event; 1 for any other payload. */
  function FactorOf(e: Event): real {
    if e.payload.Factor? then e.payload.f else 1.0
  }

  /** The product of the factors of a list of scale events. */
  function Factors(evs: seq<Event>): real {
    if evs == [] then 1.0 else FactorOf(evs[0]) * Factors(evs[1..])
  }

  /** The properties of one object after each event of a list acts on it once, in order. */
  function PlayAll(p: Props, evs: seq<Event>): Props
    decreases |evs|
  {
    if evs == [] then p else PlayAll(Perform(p, evs[0].action, evs[0].payload, 0), evs[1..])
  }

  /** Scaling one after the other multiplies the scale by the product of the factors. */
  lemma {:induction false} PlayAllScales(p: Props, evs: seq<Event>)
    requires forall e <- evs :: e.action == Scale && e.payload.Factor?
    ensures PlayAll(p, evs).scale == p.scale * Factors(evs)
    decreases |evs|
  {
    if evs != [] {
      var p1 := Perform(p, evs[0].action, evs[0].payload, 0);
      assert evs[0] in evs;
      assert p1.scale == p.scale * FactorOf(evs[0]);
      assert forall d <- evs[1..] :: d in evs;
      PlayAllScales(p1, evs[1..]);
      Associate(p.scale, FactorOf(evs[0]), Factors(evs[1..]));
    }
  }

  lemma Associate(a: real, b: real, c: real)
    ensures (a * b) * c == a * (b * c)
  {
  }

  /**
   * Replaying events of which `o` is among the performers of each exactly
   * once leaves `o` as the events acting on it one after the other.
   */
  lemma {:induction false} ReplayPlaysAll(scene: Scene, evs: seq<Event>, o: ObjId)
    requires o in scene
    requires forall e <- evs :: e.action == Scale && e.payload.Factor? && Occurrences(e.targets, o) == 1
    ensures Replay(scene, evs)[o] == PlayAll(scene[o], evs)
  {
    if evs != [] {
      assert evs[0] in evs && evs[0].targets[0..] == evs[0].targets;
      ApplyScalesOnce(scene, evs[0], 0, o);
      assert forall d <- evs[1..] :: d in evs;
      ReplayPlaysAll(Apply(scene, evs[0]), evs[1..], o);
    }
  }

  /**
   * Scale events compound: an object among the performers of each of them
   * exactly once ends with its scale multiplied by the product of all
   * their factors.
   */
  lemma {:induction false} ReplayScales(scene: Scene, evs: seq<Event>, o: ObjId)
    requires o in scene
    requires forall e <- evs :: e.action == Scale && e.payload.Factor? && Occurrences(e.targets, o) == 1
    ensures Replay(scene, evs)[o].scale == scene[o].scale * Factors(evs)
  {
    ReplayPlaysAll(scene, evs, o);
    PlayAllScales(scene[o], evs);
  }

  // ---------------------------------------------------------------------------
  // `sorted(self.events, key=lambda x: x[0])`: a stable sort by time.

  predicate SortedByTime(evs: seq<Event>) {
    forall i, j :: 0 <= i < j < |evs| ==> evs[i].time <= evs[j].time
  }

  lemma SortedCons(x: Event, evs: seq<Event>)
    requires SortedByTime(evs)
    requires forall y <- evs :: x.time <= y.time
    ensures SortedByTime([x] + evs)
  {
    forall i, j | 0 <= i < j < |[x] + evs| ensures ([x] + evs)[i].time <= ([x] + evs)[j].time {
      if i > 0 { assert ([x] + evs)[i] == evs[i - 1]; }
      assert ([x] + evs)[j] == evs[j - 1];
      assert evs[j - 1] in evs;
    }
  }

  /** Puts `e` in front of the first event that is not earlier than it. */
  function Insert(e: Event, evs: seq<Event>): seq<Event>
  {
    if evs == [] || e.time <= evs[0].time then [e] + evs
    else [evs[0]] + Insert(e, evs[1..])
  }

  /** Inserting into a sorted list keeps it sorted and adds exactly `e`. */
  lemma {:induction false} InsertSorts(e: Event, evs: seq<Event>)
    requires SortedByTime(evs)
    ensures SortedByTime(Insert(e, evs))
    ensures multiset(Insert(e, evs)) == multiset(evs) + multiset{e}
  {
    if evs == [] || e.time <= evs[0].time {
      SortedCons(e, evs);
    } else {
      var rest := Insert(e, evs[1..]);
      InsertSorts(e, evs[1..]);
      assert evs == [evs[0]] + evs[1..];
      assert forall x <- rest :: evs[0].time <= x.time by {
        forall x <- rest ensures evs[0].time <= x.time {
          assert x in multiset(rest);
          if x != e {
            assert x in multiset(evs[1..]);
            assert x in evs[1..];
          }
        }
      }
      SortedCons(evs[0], rest);
    }
  }

  /** The events in time order (insertion sort). */
  function SortByTime(evs: seq<Event>): seq<Event>
  {
    if evs == [] then [] else Insert(evs[0], SortByTime(evs[1..]))
  }

  /** The sort's result is in time order and a permutation of its input. */
  lemma {:induction false} SortSorts(evs: seq<Event>)
    ensures SortedByTime(SortByTime(evs))
    ensures multiset(SortByTime(evs)) == multiset(evs)
  {
    if evs != [] {
      SortSorts(evs[1..]);
      InsertSorts(evs[0], SortByTime(evs[1..]));
      assert evs == [evs[0]] + evs[1..];
    }
  }

  /** Sorting keeps the length and the members of the list. */
  lemma SortKeepsMembers(evs: seq<Event>)
    ensures |SortByTime(evs)| == |evs|
    ensures forall e :: e in SortByTime(evs) <==> e in evs
  {
    SortSorts(evs);
    var s := SortByTime(evs);
    assert |s| == |multiset(s)| == |multiset(evs)| == |evs|;
    forall e ensures e in s <==> e in evs {
      assert e in s <==> e in multiset(s);
      assert e in evs <==> e in multiset(evs);
    }
  }

  /** The events of `evs` scheduled at time `t`, in their order. */
  function At(evs: seq<Event>, t: real): seq<Event> {
    if evs == [] then []
    else (if evs[0].time == t then [evs[0]] else []) + At(evs[1..], t)
  }

  lemma {:induction false} AtConcat(a: seq<Event>, b: seq<Event>, t: real)
    ensures At(a + b, t) == At(a, t) + At(b, t)
  {
    if a != [] {
      assert (a + b)[0] == a[0];
      assert (a + b)[1..] == a[1..] + b;
      AtConcat(a[1..], b, t);
      assert At(a + b, t) == (if a[0].time == t then [a[0]] else []) + At(a[1..] + b, t);
    } else {
      assert a + b == b;
    }
  }

  lemma {:induction false} InsertStable(e: Event, evs: seq<Event>, t: real)
    ensures At(Insert(e, evs), t) == At([e] + evs, t)
  {
    if evs != [] && e.time > evs[0].time {
      InsertStable(e, evs[1..], t);
      assert ([e] + evs)[1..] == evs;
      assert ([e] + evs[1..])[1..] == evs[1..];
      assert ([evs[0]] + Insert(e, evs[1..]))[1..] == Insert(e, evs[1..]);
    }
  }

  /** The sort is stable: events that share a time keep the order in which they were booked. */
  lemma {:induction false} SortStable(evs: seq<Event>, t: real)
    ensures At(SortByTime(evs), t) == At(evs, t)
  {
    if evs != [] {
      SortStable(evs[1..], t);
      InsertStable(evs[0], SortByTime(evs[1..]), t);
      AtConcat([evs[0]], SortByTime(evs[1..]), t);
      AtConcat([evs[0]], evs[1..], t);
      assert [evs[0]] + evs[1..] == evs;
    }
  }

  /** Sorting a list that is already in time order changes nothing, so sorting twice is sorting once. */
  lemma {:induction false} SortSorted(evs: seq<Event>)
    requires SortedByTime(evs)
    ensures SortByTime(evs) == evs
  {
    if evs != [] {
      SortSorted(evs[1..]);
      assert evs == [evs[0]] + evs[1..];
    }
  }

  // ---------------------------------------------------------------------------
  // When `play` renders.

  /**
   * The times at which the replay loop of `play` renders a frame: an event
   * renders when its time exceeds the previous event's (initially `last`)
   * by more than `eps`.
   */
  function FrameTimes(evs: seq<Event>, last: real, eps: real): (r: seq<real>)
    ensures |r| <= |evs|
  {
    if evs == [] then []
    else (if evs[0].time - last > eps then [evs[0].time] else []) + FrameTimes(evs[1..], evs[0].time, eps)
  }

  /**
   * What the replay loop of `play` produces: the final scene, the scenes it
   * renders (after each event whose time exceeds the previous one, initially
   * `last`, by more than `eps`) and the gaps the video holds still for (a
   * rendered event more than `res + eps` after the previous one).
   */
  datatype PlayLog = PlayLog(final: Scene, shots: seq<Scene>, pauses: seq<real>)

  function Playback(scene: Scene, evs: seq<Event>, last: real, eps: real, res: real): PlayLog
  {
    if evs == [] then PlayLog(scene, [], [])
    else
      var next := Apply(scene, evs[0]);
      var dt := evs[0].time - last;
      var rest := Playback(next, evs[1..], evs[0].time, eps, res);
      PlayLog(rest.final,
              (if dt > eps then [next] else []) + rest.shots,
              (if dt > eps && dt > res + eps then [dt] else []) + rest.pauses)
  }

  /**
   * The replay ends in the scene of applying every event in turn, renders one
   * snapshot per frame time, and holds still at most once per snapshot.
   */
  lemma {:induction false} PlaybackMeaning(scene: Scene, evs: seq<Event>, last: real, eps: real, res: real)
    ensures var log := Playback(scene, evs, last, eps, res);
      && log.final == Replay(scene, evs)
      && |log.shots| == |FrameTimes(evs, last, eps)|
      && |log.pauses| <= |log.shots|
  {
    if evs != [] {
      PlaybackMeaning(Apply(scene, evs[0]), evs[1..], evs[0].time, eps, res);
    }
  }

  /** One step of the replay loop of `play`, from the `i`-th event on. */
  lemma ReplayStep(scene: Scene, evs: seq<Event>, i: nat, last: real, eps: real, res: real)
    requires i < |evs|
    ensures var next := Apply(scene, evs[i]);
      var dt := evs[i].time - last;
      var log := Playback(scene, evs[i..], last, eps, res);
      var rest := Playback(next, evs[i + 1..], evs[i].time, eps, res);
      && log.final == rest.final
      && log.shots == (if dt > eps then [next] else []) + rest.shots
      && log.pauses == (if dt > eps && dt > res + eps then [dt] else []) + rest.pauses
  {
    assert evs[i..][0] == evs[i] && evs[i..][1..] == evs[i + 1..];
  }

  /** In a sorted list that starts no earlier than `last`, every frame is more than `eps` after `last`. */
  lemma {:induction false} FramesAfter(evs: seq<Event>, last: real, eps: real)
    requires SortedByTime(evs) && eps >= 0.0
    requires evs != [] ==> evs[0].time >= last
    ensures forall f <- FrameTimes(evs, last, eps) :: f > last + eps
  {
    if evs != [] {
      FramesAfter(evs[1..], evs[0].time, eps);
    }
  }

  predicate Spaced(fs: seq<real>, eps: real) {
    forall j :: 0 < j < |fs| ==> fs[j] - fs[j - 1] > eps
  }

  /**
   * On a sorted list, consecutive frames are more than `eps` apart: events
   * sharing a time produce a single frame.
   */
  lemma {:induction false} FramesSpaced(evs: seq<Event>, last: real, eps: real)
    requires SortedByTime(evs) && eps >= 0.0
    ensures Spaced(FrameTimes(evs, last, eps), eps)
  {
    if evs != [] {
      var t0 := evs[0].time;
      FramesSpaced(evs[1..], t0, eps);
      FramesAfter(evs[1..], t0, eps);
      var tail := FrameTimes(evs[1..], t0, eps);
      var fs := FrameTimes(evs, last, eps);
      if t0 - last > eps {
        assert fs == [t0] + tail;
        forall j | 0 < j < |fs| ensures fs[j] - fs[j - 1] > eps {
          if j == 1 {
            assert fs[1] == tail[0];
            assert tail[0] in tail;
          } else {
            assert fs[j] == tail[j - 1] && fs[j - 1] == tail[j - 2];
          }
        }
      } else {
        assert fs == tail;
      }
    }
  }
}
