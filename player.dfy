/**
 * `AnimationPlayer` (vedo/applications.py): a plotter that steps an integer
 * frame index through `[min_value, max_value)` and hands every new index to
 * a user callback, driven by a repeating timer, a play/pause button, two
 * step buttons and a slider.
 *
 * The callback is recorded as the list of indices it received; the timer
 * service is a counter of fresh timer ids plus the set of live ones; the
 * button's label and the slider's value are fields.
 */
module PlayerClass {
  import opened Wrappers
  import opened Quantize
  import opened PyOps

  /** The two labels of the play/pause button. */
  datatype Symbol = PlaySymbol | PauseSymbol

  /**
   * Where `set_frame(v)` lands: in loop mode an index below the range wraps
   * to its last index and one past the end wraps to its first; otherwise
   * the index is clamped to the range.
   */
  function Landing(v: int, lo: int, hi: int, loop: bool): int {
    if loop then (if v < lo then hi - 1 else if v >= hi then lo else v)
    else (if v < lo then lo else if v >= hi - 1 then hi - 1 else v)
  }

  /** Whether `set_frame(v)` pauses: outside loop mode, when `v` is clamped or reaches the last index. */
  predicate Stops(v: int, lo: int, hi: int, loop: bool) {
    !loop && (v < lo || v >= hi - 1)
  }

  /** On a non-empty range every landing index is in the range, and an index inside the range stays put. */
  lemma LandingInRange(v: int, lo: int, hi: int, loop: bool)
    requires lo < hi
    ensures lo <= Landing(v, lo, hi, loop) <= hi - 1
    ensures lo <= v < hi ==> Landing(v, lo, hi, loop) == v
  {
  }

  /** The timer's `n` ticks from index `v`: `set_frame(value + 1)`, `n` times. */
  function Ticks(v: int, lo: int, hi: int, loop: bool, n: nat): int
    decreases n
  {
    if n == 0 then v else Ticks(Landing(v + 1, lo, hi, loop), lo, hi, loop, n - 1)
  }

  /** `a` ticks and then `b` more are `a + b` ticks. */
  lemma {:induction false} TicksAdd(v: int, lo: int, hi: int, loop: bool, a: nat, b: nat)
    ensures Ticks(v, lo, hi, loop, a + b) == Ticks(Ticks(v, lo, hi, loop, a), lo, hi, loop, b)
    decreases a
  {
    if a > 0 {
      TicksAdd(Landing(v + 1, lo, hi, loop), lo, hi, loop, a - 1, b);
    }
  }

  /** In loop mode, ticks that stay inside the range count up one index each. */
  lemma {:induction false} LoopRun(v: int, lo: int, hi: int, n: nat)
    requires lo <= v && v + n < hi
    ensures Ticks(v, lo, hi, true, n) == v + n
    decreases n
  {
    if n > 0 {
      LoopRun(v + 1, lo, hi, n - 1);
    }
  }

  /** So a full round of ticks, one per index, brings a looping player back to the index it started from. */
  lemma LoopCycle(v: int, lo: int, hi: int)
    requires lo <= v < hi
    ensures Ticks(v, lo, hi, true, hi - lo) == v
  {
    var up := hi - 1 - v;
    LoopRun(v, lo, hi, up);
    TicksAdd(v, lo, hi, true, up, 1 + (v - lo));
    TicksAdd(hi - 1, lo, hi, true, 1, v - lo);
    assert Ticks(hi - 1, lo, hi, true, 1) == lo;
    LoopRun(lo, lo, hi, v - lo);
  }

  /** Outside loop mode the ticks count up and stop at the last index. */
  lemma {:induction false} ClampTicks(v: int, lo: int, hi: int, n: nat)
    requires lo <= v < hi
    ensures Ticks(v, lo, hi, false, n) == if v + n < hi - 1 then v + n else hi - 1
    decreases n
  {
    if n > 0 {
      ClampTicks(Landing(v + 1, lo, hi, false), lo, hi, n - 1);
    }
  }

  /** In loop mode a step forward and a step back return to the same index. */
  lemma StepBackUndoesStep(v: int, lo: int, hi: int)
    requires lo <= v < hi
    ensures Landing(Landing(v + 1, lo, hi, true) - 1, lo, hi, true) == v
  {
  }

  class AnimationPlayer {
    const minValue: int
    const maxValue: int
    /** The timer interval as given, at least 1 (milliseconds). */
    const dt: real
    const loop: bool

    var value: int
    var isPlaying: bool
    var timerId: Option<nat>
    /** The timers that exist, and the next id the timer service hands out. */
    var live: set<nat>
    var nextId: nat
    /** The interval the last timer was created with. */
    var interval: int
    var button: Symbol
    var sliderValue: int
    /** Every index handed to the callback, in order. */
    var calls: seq<int>
    /** Whether `stop` removed the timer callback and the widgets. */
    var stopped: bool

    /** The player holds at most one timer, the one `timerId` names: a timer is never leaked. */
    ghost predicate Valid()
      reads this`timerId, this`live, this`nextId
    {
      && dt >= 1.0
      && live == (if timerId.Some? then {timerId.value} else {})
      && forall id <- live :: id < nextId
    }

    /**
     * `__init__`: the range is truncated to integers, the index starts just
     * below it (so the first tick shows the first frame), the interval is at
     * least 1, and the player starts paused with no timer.
     */
    constructor(lo: real, hi: real, dt: real, loop: bool)
      ensures Valid()
      ensures minValue == Trunc(lo) && maxValue == Trunc(hi) && value == minValue - 1
      ensures this.dt == (if dt >= 1.0 then dt else 1.0) && this.loop == loop
      ensures !isPlaying && timerId.None? && live == {} && button == PlaySymbol
      ensures sliderValue == minValue && calls == [] && !stopped
    {
      minValue := Trunc(lo);
      maxValue := Trunc(hi);
      value := Trunc(lo) - 1;
      this.dt := if dt >= 1.0 then dt else 1.0;
      this.loop := loop;
      isPlaying := false;
      timerId := None;
      live, nextId, interval := {}, 0, 0;
      button := PlaySymbol;
      sliderValue := Trunc(lo);
      calls := [];
      stopped := false;
    }

    /** `pause`: no longer playing, the timer destroyed, the button showing "play". */
    method Pause()
      requires Valid()
      modifies this`isPlaying, this`timerId, this`live, this`button
      ensures Valid() && !isPlaying && timerId.None? && live == {} && button == PlaySymbol
    {
      isPlaying := false;
      if timerId.Some? {
        live := live - {timerId.value};
        timerId := None;
      }
      button := PlaySymbol;
    }

    /** `resume`: any running timer is replaced by a fresh one ticking every `int(dt)` milliseconds. */
    method Resume()
      requires Valid()
      modifies this`isPlaying, this`timerId, this`live, this`nextId, this`interval, this`button
      ensures Valid() && isPlaying && button == PauseSymbol
      ensures timerId == Some(old(nextId)) && live == {old(nextId)} && nextId == old(nextId) + 1
      ensures interval == Trunc(dt) && interval >= 1
    {
      if timerId.Some? {
        live := live - {timerId.value};
      }
      timerId := Some(nextId);
      live := live + {nextId};
      interval := Trunc(dt);
      nextId := nextId + 1;
      isPlaying := true;
      button := PauseSymbol;
    }

    /** `toggle`: the play/pause button flips between playing and paused. */
    method Toggle()
      requires Valid()
      modifies this`isPlaying, this`timerId, this`live, this`nextId, this`interval, this`button
      ensures Valid() && isPlaying == !old(isPlaying)
      ensures isPlaying <==> timerId.Some?
      ensures button == if isPlaying then PauseSymbol else PlaySymbol
    {
      if !isPlaying {
        Resume();
      } else {
        Pause();
      }
    }

    /**
     * `set_frame`: the index lands in the range (wrapping in loop mode,
     * clamping and pausing otherwise); the slider and the callback see it
     * only when it differs from the current one.
     */
    method SetFrame(v: int)
      requires Valid()
      modifies this`value, this`sliderValue, this`calls, this`isPlaying, this`timerId, this`live, this`button
      ensures Valid()
      ensures var w := Landing(v, minValue, maxValue, loop);
        && value == w
        && (w != old(value) ==> sliderValue == w && calls == old(calls) + [w])
        && (w == old(value) ==> sliderValue == old(sliderValue) && calls == old(calls))
      ensures Stops(v, minValue, maxValue, loop) ==> !isPlaying && timerId.None? && live == {} && button == PlaySymbol
      ensures !Stops(v, minValue, maxValue, loop) ==>
        isPlaying == old(isPlaying) && timerId == old(timerId) && live == old(live) && button == old(button)
    {
      var w := v;
      if loop {
        if w < minValue {
          w := maxValue - 1;
        } else if w >= maxValue {
          w := minValue;
        }
      } else {
        if w < minValue {
          Pause();
          w := minValue;
        } else if w >= maxValue - 1 {
          w := maxValue - 1;
          Pause();
        }
      }
      if value != w {
        value := w;
        sliderValue := w;
        calls := calls + [w];
      }
    }

    /**
     * Index `w` reached from index `v0`: when it is new, the slider shows it
     * and the callback receives it; otherwise neither changes.
     */
    ghost predicate Handed(w: int, v0: int, s0: int, c0: seq<int>)
      reads this`sliderValue, this`calls
    {
      && (w != v0 ==> sliderValue == w && calls == c0 + [w])
      && (w == v0 ==> sliderValue == s0 && calls == c0)
    }

    /** `oneforward`: pause, then one index on. */
    method OneForward()
      requires Valid()
      modifies this`value, this`sliderValue, this`calls, this`isPlaying, this`timerId, this`live, this`button
      ensures Valid() && !isPlaying && timerId.None? && button == PlaySymbol
      ensures value == Landing(old(value) + 1, minValue, maxValue, loop)
      ensures Handed(value, old(value), old(sliderValue), old(calls))
    {
      Pause();
      SetFrame(value + 1);
    }

    /** `onebackward`: pause, then one index back. */
    method OneBackward()
      requires Valid()
      modifies this`value, this`sliderValue, this`calls, this`isPlaying, this`timerId, this`live, this`button
      ensures Valid() && !isPlaying && timerId.None? && button == PlaySymbol
      ensures value == Landing(old(value) - 1, minValue, maxValue, loop)
      ensures Handed(value, old(value), old(sliderValue), old(calls))
    {
      Pause();
      SetFrame(value - 1);
    }

    /** `_slider_callback`: pause, then jump to the slider's value rounded to the nearest index. */
    method SliderMoved(position: real)
      requires Valid()
      modifies this`value, this`sliderValue, this`calls, this`isPlaying, this`timerId, this`live, this`button
      ensures Valid() && !isPlaying && timerId.None? && button == PlaySymbol
      ensures value == Landing(RoundHalfEven(position), minValue, maxValue, loop)
      ensures Handed(value, old(value), old(sliderValue), old(calls))
    {
      Pause();
      SetFrame(RoundHalfEven(position));
    }

    /**
     * `_handle_timer`: each tick moves one index on; outside loop mode,
     * reaching the last index pauses the player.
     */
    method Tick()
      requires Valid()
      modifies this`value, this`sliderValue, this`calls, this`isPlaying, this`timerId, this`live, this`button
      ensures Valid() && value == Ticks(old(value), minValue, maxValue, loop, 1)
      ensures Handed(value, old(value), old(sliderValue), old(calls))
      ensures Stops(old(value) + 1, minValue, maxValue, loop) ==> !isPlaying && timerId.None? && live == {} && button == PlaySymbol
      ensures !Stops(old(value) + 1, minValue, maxValue, loop) ==>
        isPlaying == old(isPlaying) && timerId == old(timerId) && live == old(live) && button == old(button)
    {
      SetFrame(value + 1);
    }

    /** `stop`: the timer is destroyed and the player's callback and widgets are removed. */
    method Stop()
      requires Valid()
      modifies this`timerId, this`live, this`stopped
      ensures Valid() && timerId.None? && live == {} && stopped
    {
      if timerId.Some? {
        live := live - {timerId.value};
        timerId := None;
      }
      stopped := true;
    }
  }
}
