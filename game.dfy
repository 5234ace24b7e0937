/**
 * The per-tick simulation loop of `Game` (dweam/game.py): input coalescing
 * into the pressed-key and pressed-button sets, the per-tick mouse delta,
 * pause / one-step gating, and the single-slot frame buffer.
 *
 * pygame's event queue is the `events` argument of a tick; the frame that the
 * game's `step()` renders is the `rendered` argument; the hooks a game class
 * overrides (`on_key_down`, ..., `step`) are recorded, in call order, in
 * `hooks`, together with the input state they observe when called.
 */
module GameLoop {
  import opened Wrappers

  datatype Event =
    | MouseMotion(dx: int, dy: int)
    | MouseButtonDown(button: int)
    | MouseButtonUp(button: int)
    | KeyDown(key: int)
    | KeyUp(key: int)
    | OtherEvent

  /** A call into the game implementation, with the state it can observe. */
  datatype Hook =
    | OnKeyDown(key: int, keys: set<int>)
    | OnKeyUp(key: int, keys: set<int>)
    | OnMouseDown(button: int, buttons: set<int>)
    | OnMouseUp(button: int, buttons: set<int>)
    | OnMouseMotion(dx: int, dy: int)
    | Step(keys: set<int>, buttons: set<int>, motion: (int, int))

  /** A rendered surface; its content is opaque to the loop. */
  datatype Frame = Frame(pixels: seq<int>)

  datatype InputState = InputState(keys: set<int>, buttons: set<int>, hooks: seq<Hook>)

  /** Everything a tick reads or writes. */
  datatype LoopState = LoopState(
    input: InputState,
    motion: (int, int),
    paused: bool,
    oneStepQueued: bool,
    buffer: seq<Frame>)

  /** One event of the tick's event loop (dweam/game.py:131-150). */
  function ApplyEvent(s: InputState, e: Event): (r: InputState)
    ensures e.KeyDown? && e.key in s.keys ==> r == s
    ensures e.KeyDown? && e.key !in s.keys ==>
      r == s.(keys := s.keys + {e.key}, hooks := s.hooks + [OnKeyDown(e.key, s.keys + {e.key})])
    ensures e.KeyUp? && e.key !in s.keys ==> r == s
    ensures e.KeyUp? && e.key in s.keys ==>
      r == s.(keys := s.keys - {e.key}, hooks := s.hooks + [OnKeyUp(e.key, s.keys - {e.key})])
    ensures e.MouseButtonDown? && e.button in s.buttons ==> r == s
    ensures e.MouseButtonDown? && e.button !in s.buttons ==>
      r == s.(buttons := s.buttons + {e.button}, hooks := s.hooks + [OnMouseDown(e.button, s.buttons)])
    ensures e.MouseButtonUp? && e.button !in s.buttons ==> r == s
    ensures e.MouseButtonUp? && e.button in s.buttons ==>
      r == s.(buttons := s.buttons - {e.button}, hooks := s.hooks + [OnMouseUp(e.button, s.buttons - {e.button})])
    ensures e.MouseMotion? || e.OtherEvent? ==> r == s
  {
    match e
    case MouseButtonDown(b) =>
      // on_mouse_down fires before the button is recorded
      if b in s.buttons then s
      else InputState(s.keys, s.buttons + {b}, s.hooks + [OnMouseDown(b, s.buttons)])
    case MouseButtonUp(b) =>
      if b !in s.buttons then s
      else InputState(s.keys, s.buttons - {b}, s.hooks + [OnMouseUp(b, s.buttons - {b})])
    case KeyDown(k) =>
      // on_key_down fires after the key is recorded
      if k in s.keys then s
      else InputState(s.keys + {k}, s.buttons, s.hooks + [OnKeyDown(k, s.keys + {k})])
    case KeyUp(k) =>
      if k !in s.keys then s
      else InputState(s.keys - {k}, s.buttons, s.hooks + [OnKeyUp(k, s.keys - {k})])
    case MouseMotion(_, _) => s
    case OtherEvent => s
  }

  /** The events of one tick applied strictly in arrival order. */
  function ApplyEvents(s: InputState, events: seq<Event>): InputState
  {
    if events == [] then s
    else ApplyEvent(ApplyEvents(s, events[..|events| - 1]), events[|events| - 1])
  }

  /** The sum of the MOUSEMOTION deltas among `events`. */
  function MotionSum(events: seq<Event>): (int, int)
  {
    if events == [] then (0, 0)
    else
      var m := MotionSum(events[..|events| - 1]);
      var e := events[|events| - 1];
      if e.MouseMotion? then (m.0 + e.dx, m.1 + e.dy) else m
  }

  /** The direction of the last KEYDOWN / KEYUP for `k`: true for down. */
  function LastKeyEdge(events: seq<Event>, k: int): Option<bool>
  {
    if events == [] then None
    else
      var e := events[|events| - 1];
      if e.KeyDown? && e.key == k then Some(true)
      else if e.KeyUp? && e.key == k then Some(false)
      else LastKeyEdge(events[..|events| - 1], k)
  }

  /** The direction of the last MOUSEBUTTONDOWN / MOUSEBUTTONUP for `b`. */
  function LastButtonEdge(events: seq<Event>, b: int): Option<bool>
  {
    if events == [] then None
    else
      var e := events[|events| - 1];
      if e.MouseButtonDown? && e.button == b then Some(true)
      else if e.MouseButtonUp? && e.button == b then Some(false)
      else LastButtonEdge(events[..|events| - 1], b)
  }

  function StepCount(hooks: seq<Hook>): nat
  {
    if hooks == [] then 0
    else StepCount(hooks[..|hooks| - 1]) + if hooks[|hooks| - 1].Step? then 1 else 0
  }

  function MotionHookCount(hooks: seq<Hook>): nat
  {
    if hooks == [] then 0
    else MotionHookCount(hooks[..|hooks| - 1]) + if hooks[|hooks| - 1].OnMouseMotion? then 1 else 0
  }

  /** Whether the step and the frame publication of a tick run (dweam/game.py:156). */
  predicate Steps(st: LoopState)
  {
    !st.paused && !st.oneStepQueued
  }

  /** One iteration of the `run` loop (dweam/game.py:123-163). */
  function TickSpec(st: LoopState, events: seq<Event>, rendered: Frame): LoopState
  {
    var afterEvents := ApplyEvents(st.input, events);
    var m := MotionSum(events);
    var afterMotion :=
      if m != (0, 0) then afterEvents.(hooks := afterEvents.hooks + [OnMouseMotion(m.0, m.1)])
      else afterEvents;
    if Steps(st) then
      LoopState(afterMotion.(hooks := afterMotion.hooks + [Step(afterMotion.keys, afterMotion.buttons, m)]),
                m, st.paused, false, [rendered])
    else
      LoopState(afterMotion, m, st.paused, false, st.buffer)
  }

  /** One tick of the game thread; `stopDuringTick` is a `stop()` from another thread meanwhile. */
  datatype TickInput = TickInput(events: seq<Event>, rendered: Frame, stopDuringTick: bool)

  /** `while not self._stop_event.is_set()`, once the stop event is known to be clear. */
  function RunSpec(st: LoopState, ticks: seq<TickInput>): LoopState
    decreases |ticks|
  {
    if ticks == [] then st
    else
      var next := TickSpec(st, ticks[0].events, ticks[0].rendered);
      if ticks[0].stopDuringTick then next else RunSpec(next, ticks[1..])
  }

  /** `get_next_frame` on a non-empty buffer: the oldest frame, removed. */
  function Take(buffer: seq<Frame>): (r: (Option<Frame>, seq<Frame>))
  {
    if buffer == [] then (None, buffer) else (Some(buffer[0]), buffer[1..])
  }

  // ---------------------------------------------------------------------
  // Properties of the tick

  /** Events are applied in arrival order: a tick's events split anywhere compose. */
  lemma {:induction false} ApplyEventsAppend(s: InputState, a: seq<Event>, b: seq<Event>)
    ensures ApplyEvents(s, a + b) == ApplyEvents(ApplyEvents(s, a), b)
    decreases |b|
  {
    if b == [] {
      assert a + b == a;
    } else {
      var b' := b[..|b| - 1];
      assert (a + b)[..|a + b| - 1] == a + b';
      assert (a + b)[|a + b| - 1] == b[|b| - 1];
      ApplyEventsAppend(s, a, b');
    }
  }

  /**
   * The pressed-key set after a tick is the coalesced result: a key is held
   * iff its last KEYDOWN/KEYUP was a KEYDOWN, or it had none and was held before.
   */
  lemma {:induction false} KeysCoalesced(s: InputState, events: seq<Event>, k: int)
    ensures k in ApplyEvents(s, events).keys <==>
      match LastKeyEdge(events, k)
      case None => k in s.keys
      case Some(down) => down
  {
    if events != [] {
      KeysCoalesced(s, events[..|events| - 1], k);
    }
  }

  /** The same coalescing for mouse buttons. */
  lemma {:induction false} ButtonsCoalesced(s: InputState, events: seq<Event>, b: int)
    ensures b in ApplyEvents(s, events).buttons <==>
      match LastButtonEdge(events, b)
      case None => b in s.buttons
      case Some(down) => down
  {
    if events != [] {
      ButtonsCoalesced(s, events[..|events| - 1], b);
    }
  }

  /** Event handling only appends key and button hooks: no step, no motion hook. */
  lemma {:induction false} ApplyEventsHooks(s: InputState, events: seq<Event>)
    ensures |ApplyEvents(s, events).hooks| >= |s.hooks|
    ensures ApplyEvents(s, events).hooks[..|s.hooks|] == s.hooks
    ensures StepCount(ApplyEvents(s, events).hooks) == StepCount(s.hooks)
    ensures MotionHookCount(ApplyEvents(s, events).hooks) == MotionHookCount(s.hooks)
  {
    if events != [] {
      var p := ApplyEvents(s, events[..|events| - 1]);
      ApplyEventsHooks(s, events[..|events| - 1]);
      var q := ApplyEvent(p, events[|events| - 1]);
      if q.hooks != p.hooks {
        assert q.hooks[..|q.hooks| - 1] == p.hooks;
      }
    }
  }

  /** Two presses of one key without a release fire `on_key_down` exactly once. */
  lemma DoublePressFiresOnce(s: InputState, k: int)
    requires k !in s.keys
    ensures ApplyEvents(s, [KeyDown(k), KeyDown(k)]) ==
      s.(keys := s.keys + {k}, hooks := s.hooks + [OnKeyDown(k, s.keys + {k})])
  {
    var es := [KeyDown(k), KeyDown(k)];
    assert es[..1] == [KeyDown(k)] && [KeyDown(k)][..0] == [];
    var s1 := ApplyEvent(s, KeyDown(k));
    assert ApplyEvents(s, es[..1]) == s1;
    assert ApplyEvents(s, es) == ApplyEvent(s1, KeyDown(k));
  }

  /** Press then release of a key in one tick: unpressed, both hooks fired in order. */
  lemma PressReleaseSameTick(s: InputState, k: int)
    requires k !in s.keys
    ensures ApplyEvents(s, [KeyDown(k), KeyUp(k)]) ==
      s.(hooks := s.hooks + [OnKeyDown(k, s.keys + {k}), OnKeyUp(k, s.keys)])
  {
    var es := [KeyDown(k), KeyUp(k)];
    assert es[..1] == [KeyDown(k)] && [KeyDown(k)][..0] == [];
    var s1 := ApplyEvent(s, KeyDown(k));
    assert ApplyEvents(s, es[..1]) == s1;
    assert ApplyEvents(s, es) == ApplyEvent(s1, KeyUp(k));
    assert s.keys + {k} - {k} == s.keys;
  }

  /** Press then release of a mouse button in one tick: unpressed, both hooks in order. */
  lemma ClickSameTick(s: InputState, b: int)
    requires b !in s.buttons
    ensures ApplyEvents(s, [MouseButtonDown(b), MouseButtonUp(b)]) ==
      s.(hooks := s.hooks + [OnMouseDown(b, s.buttons), OnMouseUp(b, s.buttons)])
  {
    var es := [MouseButtonDown(b), MouseButtonUp(b)];
    assert es[..1] == [MouseButtonDown(b)] && [MouseButtonDown(b)][..0] == [];
    var s1 := ApplyEvent(s, MouseButtonDown(b));
    assert ApplyEvents(s, es[..1]) == s1;
    assert ApplyEvents(s, es) == ApplyEvent(s1, MouseButtonUp(b));
    assert s.buttons + {b} - {b} == s.buttons;
  }

  /**
   * A tick resets the motion to this tick's sum, fires `on_mouse_motion` once
   * iff that sum is non-zero, runs `step` once iff neither paused nor
   * one-step-queued (publishing exactly the new frame), and always ends with
   * no one-step queued.
   */
  lemma TickContract(st: LoopState, events: seq<Event>, rendered: Frame)
    ensures var r := TickSpec(st, events, rendered);
      && r.motion == MotionSum(events)
      && MotionHookCount(r.input.hooks) == MotionHookCount(st.input.hooks) + (if MotionSum(events) != (0, 0) then 1 else 0)
      && StepCount(r.input.hooks) == StepCount(st.input.hooks) + (if Steps(st) then 1 else 0)
      && r.buffer == (if Steps(st) then [rendered] else st.buffer)
      && !r.oneStepQueued
      && r.paused == st.paused
      && r.input.keys == ApplyEvents(st.input, events).keys
      && r.input.buttons == ApplyEvents(st.input, events).buttons
  {
    ApplyEventsHooks(st.input, events);
    var a := ApplyEvents(st.input, events);
    var m := MotionSum(events);
    var h1 := if m != (0, 0) then a.hooks + [OnMouseMotion(m.0, m.1)] else a.hooks;
    if m != (0, 0) {
      HookCountsAppend(a.hooks, OnMouseMotion(m.0, m.1));
    }
    if Steps(st) {
      HookCountsAppend(h1, Step(a.keys, a.buttons, m));
    }
  }

  /** Appending one hook adds one to the count of its kind. */
  lemma HookCountsAppend(h: seq<Hook>, x: Hook)
    ensures StepCount(h + [x]) == StepCount(h) + (if x.Step? then 1 else 0)
    ensures MotionHookCount(h + [x]) == MotionHookCount(h) + (if x.OnMouseMotion? then 1 else 0)
  {
    assert (h + [x])[..|h|] == h;
  }

  /** A tick keeps the frame buffer at capacity one. */
  lemma TickKeepsSingleSlot(st: LoopState, events: seq<Event>, rendered: Frame)
    requires |st.buffer| <= 1
    ensures |TickSpec(st, events, rendered).buffer| <= 1
  {
  }

  /**
   * `do_one_step` only suppresses a step: while paused no tick steps whether or
   * not one is queued, and while running a queued one-step skips exactly the
   * next tick's step.
   */
  lemma OneStepSuppresses(st: LoopState, e1: seq<Event>, f1: Frame, e2: seq<Event>, f2: Frame)
    ensures st.paused ==> !Steps(st.(oneStepQueued := true)) && !Steps(st.(oneStepQueued := false))
    ensures !st.paused ==>
      var t1 := TickSpec(st.(oneStepQueued := true), e1, f1);
      && t1.buffer == st.buffer
      && Steps(t1)
      && TickSpec(t1, e2, f2).buffer == [f2]
  {
  }

  /**
   * Publishing N frames before any take leaves exactly the N-th: when the loop
   * is not paused, the buffer after a run holds only the last tick's frame.
   */
  lemma {:induction false} NewestFrameWins(st: LoopState, ticks: seq<TickInput>)
    requires !st.paused && !st.oneStepQueued && ticks != []
    requires forall i :: 0 <= i < |ticks| - 1 ==> !ticks[i].stopDuringTick
    ensures RunSpec(st, ticks).buffer == [ticks[|ticks| - 1].rendered]
    decreases |ticks|
  {
    var next := TickSpec(st, ticks[0].events, ticks[0].rendered);
    if |ticks| > 1 {
      assert !ticks[0].stopDuringTick;
      var rest := ticks[1..];
      assert forall i :: 0 <= i < |rest| - 1 ==> !rest[i].stopDuringTick by {
        forall i | 0 <= i < |rest| - 1 ensures !rest[i].stopDuringTick {
          assert rest[i] == ticks[i + 1];
        }
      }
      NewestFrameWins(next, rest);
      assert rest[|rest| - 1] == ticks[|ticks| - 1];
    }
  }

  /** Taking from a published buffer returns exactly the newest frame, then nothing. */
  lemma TakeAfterPublish(f: Frame)
    ensures Take([f]) == (Some(f), [])
    ensures Take(Take([f]).1) == (None, [])
  {
    assert [f][1..] == [];
  }

  // ---------------------------------------------------------------------
  // The Game object

  class Game {
    var keysPressed: set<int>
    var mousePressed: set<int>
    var mouseMotion: (int, int)
    var paused: bool
    var oneStepQueued: bool
    /** `_stop_event` */
    var stopRequested: bool
    /** `_thread`: the id of the game thread, if one is attached */
    var thread: Option<nat>
    var threadsStarted: nat
    /** `_frame_buffer`, an asyncio queue of maxsize 1 */
    var frameBuffer: seq<Frame>
    var hooks: seq<Hook>
    const fps: int

    ghost predicate Valid()
      reads this
    {
      |frameBuffer| <= 1
    }

    function State(): LoopState
      reads this
    {
      LoopState(InputState(keysPressed, mousePressed, hooks), mouseMotion, paused, oneStepQueued, frameBuffer)
    }

    constructor (fps: int)
      ensures Valid()
      ensures State() == LoopState(InputState({}, {}, []), (0, 0), false, false, [])
      ensures !stopRequested && thread == None && threadsStarted == 0 && this.fps == fps
    {
      this.fps := fps;
      keysPressed, mousePressed, mouseMotion := {}, {}, (0, 0);
      paused, oneStepQueued := false, false;
      stopRequested, thread, threadsStarted := false, None, 0;
      frameBuffer, hooks := [], [];
    }

    /** `start`: attach a new thread and clear the stop event. */
    method Start()
      modifies this`thread, this`threadsStarted, this`stopRequested
      ensures thread == Some(old(threadsStarted)) && threadsStarted == old(threadsStarted) + 1
      ensures !stopRequested
    {
      thread := Some(threadsStarted);
      threadsStarted := threadsStarted + 1;
      stopRequested := false;
    }

    /**
     * `stop`: set the stop event and detach the thread, whether it was never
     * started, joined within the 3 s timeout, or left running.
     */
    method Stop()
      modifies this`thread, this`stopRequested
      ensures stopRequested && thread == None
    {
      stopRequested := true;
      if thread == None {
        return;
      }
      thread := None;
    }

    /** `do_one_step` */
    method DoOneStep()
      modifies this`oneStepQueued
      ensures oneStepQueued
    {
      oneStepQueued := true;
    }

    /** Drain the queue, then put the new frame (dweam/game.py:160-162). */
    method Publish(frame: Frame)
      modifies this`frameBuffer
      ensures frameBuffer == [frame]
    {
      while frameBuffer != []
        decreases |frameBuffer|
      {
        frameBuffer := frameBuffer[1..];
      }
      frameBuffer := frameBuffer + [frame];
    }

    /**
     * `get_next_frame`: removes and returns the buffered frame; None stands for
     * the caller suspending on an empty queue.
     */
    method GetNextFrame() returns (f: Option<Frame>)
      modifies this`frameBuffer
      ensures (f, frameBuffer) == Take(old(frameBuffer))
    {
      if frameBuffer == [] {
        return None;
      }
      f := Some(frameBuffer[0]);
      frameBuffer := frameBuffer[1..];
    }

    /** One event of the tick's event loop: the pressed sets and the hooks it calls. */
    method HandleEvent(event: Event)
      modifies this`keysPressed, this`mousePressed, this`hooks
      ensures InputState(keysPressed, mousePressed, hooks) == ApplyEvent(old(InputState(keysPressed, mousePressed, hooks)), event)
    {
      match event {
        case MouseButtonDown(b) =>
          if b !in mousePressed {
            hooks := hooks + [OnMouseDown(b, mousePressed)];
            mousePressed := mousePressed + {b};
          }
        case MouseButtonUp(b) =>
          if b in mousePressed {
            mousePressed := mousePressed - {b};
            hooks := hooks + [OnMouseUp(b, mousePressed)];
          }
        case KeyDown(k) =>
          if k !in keysPressed {
            keysPressed := keysPressed + {k};
            hooks := hooks + [OnKeyDown(k, keysPressed)];
          }
        case KeyUp(k) =>
          if k in keysPressed {
            keysPressed := keysPressed - {k};
            hooks := hooks + [OnKeyUp(k, keysPressed)];
          }
        case MouseMotion(_, _) =>
        case OtherEvent =>
      }
    }

    /** The event loop of a tick: every event is handled in order, and the motion deltas are summed. */
    method PollEvents(events: seq<Event>) returns (mouseX: int, mouseY: int)
      modifies this`keysPressed, this`mousePressed, this`hooks
      ensures InputState(keysPressed, mousePressed, hooks) == ApplyEvents(old(InputState(keysPressed, mousePressed, hooks)), events)
      ensures (mouseX, mouseY) == MotionSum(events)
    {
      mouseX, mouseY := 0, 0;
      for i := 0 to |events|
        invariant InputState(keysPressed, mousePressed, hooks) == ApplyEvents(old(InputState(keysPressed, mousePressed, hooks)), events[..i])
        invariant (mouseX, mouseY) == MotionSum(events[..i])
      {
        assert events[..i + 1][..i] == events[..i];
        var event := events[i];
        if event.MouseMotion? {
          mouseX, mouseY := mouseX + event.dx, mouseY + event.dy;
        }
        HandleEvent(event);
      }
      assert events[..|events|] == events;
    }

    /** One iteration of `run`. */
    method Tick(events: seq<Event>, rendered: Frame)
      requires Valid()
      modifies this
      ensures Valid()
      ensures State() == TickSpec(old(State()), events, rendered)
      ensures stopRequested == old(stopRequested) && thread == old(thread)
      ensures threadsStarted == old(threadsStarted)
    {
      var mouseX, mouseY := PollEvents(events);
      mouseMotion := (mouseX, mouseY);
      if mouseMotion != (0, 0) {
        hooks := hooks + [OnMouseMotion(mouseX, mouseY)];
      }
      if !paused && !oneStepQueued {
        hooks := hooks + [Step(keysPressed, mousePressed, mouseMotion)];
        Publish(rendered);
      }
      oneStepQueued := false;
    }

    /** `run`: ticks until the stop event is set (checked before every tick). */
    method Run(ticks: seq<TickInput>)
      requires Valid()
      modifies this
      ensures Valid()
      ensures State() == RunSpec(old(State()), if old(stopRequested) then [] else ticks)
      ensures stopRequested <==> old(stopRequested) || exists i :: 0 <= i < |ticks| && ticks[i].stopDuringTick
      ensures thread == old(thread) && threadsStarted == old(threadsStarted)
    {
      var i := 0;
      while !stopRequested && i < |ticks|
        invariant 0 <= i <= |ticks|
        invariant Valid()
        invariant RunSpec(old(State()), if old(stopRequested) then [] else ticks) ==
          (if stopRequested then State() else RunSpec(State(), ticks[i..]))
        invariant stopRequested <==> old(stopRequested) || exists j :: 0 <= j < i && ticks[j].stopDuringTick
        invariant !old(stopRequested) && !stopRequested ==> forall j :: 0 <= j < i ==> !ticks[j].stopDuringTick
        invariant thread == old(thread) && threadsStarted == old(threadsStarted)
      {
        assert ticks[i..][1..] == ticks[i + 1..];
        Tick(ticks[i].events, ticks[i].rendered);
        if ticks[i].stopDuringTick {
          stopRequested := true;
        }
        i := i + 1;
      }
    }
  }
}
