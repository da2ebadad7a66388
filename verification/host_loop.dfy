/** `Window::run`: the host loop that drives the application callbacks with a
    fixed-timestep accumulator, folded over a finite sequence of frames. */
module HostLoop {
  import opened Ints
  import opened Keyboard

  /** Time is counted in 1/60 ms so that both the millisecond ticks of
      `SDL_GetTicks` and the 1/60 s step are whole numbers. */
  const UnitsPerMs: int := 60

  /** `timeStep = 1.0 / 60.0` seconds, in those units. */
  const Step: int := 1000

  /** One outer iteration's input: the tick count read at its top and the
      events queued by then. */
  datatype Frame = Frame(ticks: u32, events: seq<Event>)

  /** What the loop does that is visible from outside: the application
      callbacks, the buffer swap, and the final teardown of context, window
      and platform. */
  datatype Action = Setup | Update(dt: int) | Draw | SwapWindow | Teardown

  /** The part of `Window` the loop reads and writes. `hasWindow` and
      `hasContext` say whether `m_window` / `m_context` are non-null. */
  datatype Window = Window(width: u32, height: u32, hasWindow: bool, hasContext: bool, keyboard: Table)

  /** `accum` and `lastTime`, in 1/60 ms. */
  datatype Clock = Clock(accum: int, lastTime: int)

  /** `width()` and `height()`. */
  function Width(w: Window): u32 { w.width }
  function Height(w: Window): u32 { w.height }

  /** The time a frame is read at, in 1/60 ms. */
  function Now(f: Frame): int { f.ticks * UnitsPerMs }

  /** How often `a` occurs in a trace. */
  function Count(actions: seq<Action>, a: Action): nat
    decreases |actions|
  {
    if |actions| == 0 then 0
    else (if actions[0] == a then 1 else 0) + Count(actions[1..], a)
  }

  lemma {:induction false} CountConcat(s: seq<Action>, t: seq<Action>, a: Action)
    ensures Count(s + t, a) == Count(s, a) + Count(t, a)
    decreases |s|
  {
    if |s| == 0 {
      assert s + t == t;
    } else {
      assert (s + t)[0] == s[0];
      assert (s + t)[1..] == s[1..] + t;
      CountConcat(s[1..], t, a);
    }
  }

  lemma {:induction false} CountAbsent(s: seq<Action>, a: Action)
    requires a !in s
    ensures Count(s, a) == 0
    decreases |s|
  {
    if |s| > 0 {
      assert s == [s[0]] + s[1..];
      CountAbsent(s[1..], a);
    }
  }

  /** How many `onUpdate` calls a trace holds. */
  function UpdateCount(actions: seq<Action>): nat { Count(actions, Update(Step)) }

  datatype Consumed = Consumed(rest: int, updates: seq<Action>)

  /** The `while (accum >= timeStep)` loop: every step consumed becomes one
      `onUpdate(timeStep)`. */
  function Consume(accum: int): (r: Consumed)
    ensures accum == r.rest + |r.updates| * Step
    ensures r.rest < Step
    ensures accum >= 0 ==> 0 <= r.rest
    ensures forall i :: 0 <= i < |r.updates| ==> r.updates[i] == Update(Step)
    ensures UpdateCount(r.updates) == |r.updates|
    decreases accum
  {
    if accum >= Step then
      var c := Consume(accum - Step);
      var updates := [Update(Step)] + c.updates;
      assert updates[1..] == c.updates;
      Consumed(c.rest, updates)
    else
      Consumed(accum, [])
  }

  /** With a non-negative accumulator the number of steps is the floor of
      accumulated time over the step. */
  lemma ConsumeCount(accum: int)
    ensures accum >= 0 ==> |Consume(accum).updates| == accum / Step
    ensures accum < Step <==> Consume(accum).updates == []
  {
    var c := Consume(accum);
    if accum >= 0 {
      DivUnique(accum, |c.updates|, c.rest);
    }
  }

  lemma DivUnique(a: int, q: int, r: int)
    requires a == r + q * Step && 0 <= r < Step
    ensures q == a / Step
  {
  }

  datatype Scheduled = Scheduled(rest: int, actions: seq<Action>)

  /** The time half of an iteration: the due updates, then `onDraw` and the
      swap when at least one update ran (`canRender`). */
  function Schedule(accum: int): (r: Scheduled)
    ensures accum == r.rest + UpdateCount(r.actions) * Step
    ensures r.rest < Step
    ensures accum >= 0 ==> 0 <= r.rest
    ensures forall i :: 0 <= i < |r.actions| && r.actions[i].Update? ==> r.actions[i].dt == Step
    ensures Setup !in r.actions && Teardown !in r.actions
  {
    var steps := Consume(accum);
    var tail := if |steps.updates| > 0 then [Draw, SwapWindow] else [];
    CountConcat(steps.updates, tail, Update(Step));
    Scheduled(steps.rest, steps.updates + tail)
  }

  /** `onDraw` and the swap happen once in an iteration, after all its
      updates, if at least one update ran, and not at all otherwise. */
  lemma DrawOncePerIteration(accum: int)
    ensures var a := Schedule(accum).actions;
      && Count(a, Draw) == Count(a, SwapWindow) == (if UpdateCount(a) >= 1 then 1 else 0)
      && |a| == UpdateCount(a) + (if UpdateCount(a) >= 1 then 2 else 0)
      && (UpdateCount(a) >= 1 ==> a[|a| - 2..] == [Draw, SwapWindow])
  {
    var steps := Consume(accum);
    var n := |steps.updates|;
    var tail: seq<Action> := if n > 0 then [Draw, SwapWindow] else [];
    var a := steps.updates + tail;
    assert a == Schedule(accum).actions;
    assert Draw !in steps.updates && SwapWindow !in steps.updates;
    CountAbsent(steps.updates, Draw);
    CountAbsent(steps.updates, SwapWindow);
    CountAbsent(tail, Update(Step));
    CountConcat(steps.updates, tail, Update(Step));
    CountConcat(steps.updates, tail, Draw);
    CountConcat(steps.updates, tail, SwapWindow);
    assert UpdateCount(a) == n;
    if n > 0 {
      TailCounts();
      assert a[|a| - 2..] == tail;
    }
  }

  lemma TailCounts()
    ensures Count([Draw, SwapWindow], Draw) == 1
    ensures Count([Draw, SwapWindow], SwapWindow) == 1
  {
    var t := [Draw, SwapWindow];
    assert t[1..] == [SwapWindow] && t[1..][1..] == [];
  }

  /** The time an iteration schedules is the accumulator plus the time
      since the previous frame. */
  function Due(c: Clock, f: Frame): int { c.accum + (Now(f) - c.lastTime) }

  datatype Iteration = Iteration(window: Window, clock: Clock, running: bool, actions: seq<Action>)

  /** One pass of the outer `while (running)`: advance the clock, reset the
      key edges, drain the events, run the due updates, and draw and swap once
      if any update ran. Only the key table of the window changes. */
  function Iterate(w: Window, c: Clock, f: Frame): (r: Iteration)
    ensures Due(c, f) == r.clock.accum + UpdateCount(r.actions) * Step
    ensures Due(c, f) >= 0 ==> 0 <= r.clock.accum < Step
    ensures r.clock.lastTime == Now(f)
    ensures r.actions == Schedule(Due(c, f)).actions
    ensures r.running <==> Quit !in f.events
    ensures r.window.width == w.width && r.window.height == w.height
    ensures r.window.hasWindow == w.hasWindow && r.window.hasContext == w.hasContext
  {
    var input := FrameInput(w.keyboard, f.events);
    var sched := Schedule(Due(c, f));
    Iteration(w.(keyboard := input.table), Clock(sched.rest, Now(f)), input.running, sched.actions)
  }

  /** After one iteration each key reads as this frame's events say. */
  lemma IterationKeys(w: Window, c: Clock, f: Frame, k: Key)
    ensures Lookup(Iterate(w, c, f).window.keyboard, k) ==
      KeyState(KeyDown(k) in f.events, KeyUp(k) in f.events, LastHeld(f.events, k, Lookup(w.keyboard, k).held))
  {
    FrameKeyState(w.keyboard, f.events, k);
  }

  /** `0` is the normal return of `run`, `-1` the refusal to start. */
  datatype Outcome = Exited(code: i32) | StillRunning

  datatype RunResult = RunResult(outcome: Outcome, window: Window, clock: Clock, actions: seq<Action>, framesUsed: nat)

  /** The outer loop over the frames still to come: one iteration per frame
      until an iteration whose events hold a quit; after that iteration the
      loop tears down and `run` returns 0. If the frames run out first, the
      loop is still running. */
  function Loop(w: Window, c: Clock, frames: seq<Frame>): (r: RunResult)
    ensures r.framesUsed <= |frames|
    ensures r.outcome == StillRunning || r.outcome == Exited(0)
    decreases |frames|
  {
    if |frames| == 0 then
      RunResult(StillRunning, w, c, [], 0)
    else
      var it := Iterate(w, c, frames[0]);
      if !it.running then
        RunResult(Exited(0), it.window, it.clock, it.actions + [Teardown], 1)
      else
        var rest := Loop(it.window, it.clock, frames[1..]);
        RunResult(rest.outcome, rest.window, rest.clock, it.actions + rest.actions, rest.framesUsed + 1)
  }

  /** The loop stops right after a frame holding a quit, and runs through
      all frames otherwise. */
  lemma {:induction false} LoopStopsAtFirstQuit(w: Window, c: Clock, frames: seq<Frame>)
    ensures var r := Loop(w, c, frames);
      && (r.outcome.Exited? ==> 0 < r.framesUsed && Quit in frames[r.framesUsed - 1].events)
      && (r.outcome == StillRunning ==> r.framesUsed == |frames|)
    decreases |frames|
  {
    if |frames| > 0 {
      var it := Iterate(w, c, frames[0]);
      if it.running {
        LoopStopsAtFirstQuit(it.window, it.clock, frames[1..]);
        assert forall i :: 1 <= i < |frames| ==> frames[i] == frames[1..][i - 1];
      }
    }
  }

  /** No frame before the one the loop stops at holds a quit: the loop stops
      at the first one. */
  lemma {:induction false} LoopQuietBefore(w: Window, c: Clock, frames: seq<Frame>)
    ensures var r := Loop(w, c, frames);
      && (forall i :: 0 <= i < r.framesUsed - 1 ==> Quit !in frames[i].events)
      && (r.outcome == StillRunning ==> forall i :: 0 <= i < |frames| ==> Quit !in frames[i].events)
    decreases |frames|
  {
    if |frames| > 0 {
      var it := Iterate(w, c, frames[0]);
      if it.running {
        LoopQuietBefore(it.window, it.clock, frames[1..]);
        LoopStopsAtFirstQuit(it.window, it.clock, frames[1..]);
        assert forall i :: 1 <= i < |frames| ==> frames[i] == frames[1..][i - 1];
      }
    }
  }

  /** The loop never calls `onSetup`, and tears down once, as its last
      action, exactly when it stops. */
  lemma {:induction false} LoopTrace(w: Window, c: Clock, frames: seq<Frame>)
    ensures var r := Loop(w, c, frames);
      && Setup !in r.actions
      && Count(r.actions, Teardown) == (if r.outcome.Exited? then 1 else 0)
      && (r.outcome.Exited? ==> r.actions[|r.actions| - 1] == Teardown)
    decreases |frames|
  {
    if |frames| > 0 {
      var it := Iterate(w, c, frames[0]);
      CountAbsent(it.actions, Teardown);
      if !it.running {
        CountConcat(it.actions, [Teardown], Teardown);
      } else {
        var rest := Loop(it.window, it.clock, frames[1..]);
        LoopTrace(it.window, it.clock, frames[1..]);
        CountConcat(it.actions, rest.actions, Teardown);
      }
    }
  }

  /** Accumulator conservation over many iterations: the time that passed
      equals the time consumed by updates plus what is left over. */
  lemma {:induction false} LoopClock(w: Window, c: Clock, frames: seq<Frame>)
    ensures var r := Loop(w, c, frames);
      c.accum + (r.clock.lastTime - c.lastTime) == r.clock.accum + UpdateCount(r.actions) * Step
    decreases |frames|
  {
    if |frames| > 0 {
      var it := Iterate(w, c, frames[0]);
      if !it.running {
        CountConcat(it.actions, [Teardown], Update(Step));
      } else {
        var rest := Loop(it.window, it.clock, frames[1..]);
        LoopClock(it.window, it.clock, frames[1..]);
        CountConcat(it.actions, rest.actions, Update(Step));
      }
    }
  }

  /** The clock ends at the time of the last frame the loop used, or where
      it started when it used none. */
  lemma {:induction false} LoopLastTime(w: Window, c: Clock, frames: seq<Frame>)
    ensures var r := Loop(w, c, frames);
      && (r.framesUsed == 0 ==> r.clock == c)
      && (r.framesUsed > 0 ==> r.clock.lastTime == Now(frames[r.framesUsed - 1]))
    decreases |frames|
  {
    if |frames| > 0 {
      var it := Iterate(w, c, frames[0]);
      if it.running {
        LoopLastTime(it.window, it.clock, frames[1..]);
        assert forall i :: 1 <= i < |frames| ==> frames[i] == frames[1..][i - 1];
      }
    }
  }

  /** The loop changes nothing of the window but its key table. */
  lemma {:induction false} LoopKeepsWindow(w: Window, c: Clock, frames: seq<Frame>)
    ensures var r := Loop(w, c, frames);
      && r.window.width == w.width && r.window.height == w.height
      && r.window.hasWindow == w.hasWindow && r.window.hasContext == w.hasContext
    decreases |frames|
  {
    if |frames| > 0 {
      var it := Iterate(w, c, frames[0]);
      if it.running {
        LoopKeepsWindow(it.window, it.clock, frames[1..]);
      }
    }
  }

  /** `Window::run`: refuse with -1 when the window or the context is
      missing, otherwise call `onSetup` once and enter the loop. */
  function Run(w: Window, startTicks: u32, frames: seq<Frame>): (r: RunResult)
    ensures !w.hasWindow || !w.hasContext ==> r == RunResult(Exited(-1), w, Clock(0, startTicks * UnitsPerMs), [], 0)
    ensures w.hasWindow && w.hasContext ==>
      && r.outcome != Exited(-1)
      && |r.actions| > 0 && r.actions[0] == Setup
      && Count(r.actions, Setup) == 1
    ensures r.outcome == Exited(0) ==> 0 < r.framesUsed <= |frames| && Quit in frames[r.framesUsed - 1].events
    ensures r.window.width == w.width && r.window.height == w.height
  {
    var clock := Clock(0, startTicks * UnitsPerMs);
    if !w.hasWindow || !w.hasContext then
      RunResult(Exited(-1), w, clock, [], 0)
    else
      var loop := Loop(w, clock, frames);
      LoopTrace(w, clock, frames);
      LoopStopsAtFirstQuit(w, clock, frames);
      LoopKeepsWindow(w, clock, frames);
      CountConcat([Setup], loop.actions, Setup);
      CountAbsent(loop.actions, Setup);
      RunResult(loop.outcome, loop.window, loop.clock, [Setup] + loop.actions, loop.framesUsed)
  }

  /** Tick counts that never go backwards, starting from `start`. */
  ghost predicate MonotoneFrom(start: int, frames: seq<Frame>)
  {
    && (|frames| > 0 ==> start <= Now(frames[0]))
    && forall i :: 0 < i < |frames| ==> Now(frames[i - 1]) <= Now(frames[i])
  }

  /** With ticks that never go backwards the accumulator never goes
      negative, and after any iteration it holds less than one step. */
  lemma {:induction false} LoopAccumBounds(w: Window, c: Clock, frames: seq<Frame>)
    requires 0 <= c.accum
    requires MonotoneFrom(c.lastTime, frames)
    ensures 0 <= Loop(w, c, frames).clock.accum
    ensures Loop(w, c, frames).framesUsed > 0 ==> Loop(w, c, frames).clock.accum < Step
    decreases |frames|
  {
    if |frames| > 0 {
      var it := Iterate(w, c, frames[0]);
      if it.running {
        assert MonotoneFrom(it.clock.lastTime, frames[1..]) by {
          assert forall i :: 0 <= i < |frames| - 1 ==> frames[1..][i] == frames[i + 1];
        }
        LoopAccumBounds(it.window, it.clock, frames[1..]);
      }
    }
  }

  /** Over a whole run with ticks that never go backwards, the number of
      `onUpdate` calls is the floor of the elapsed time over the step. */
  lemma ElapsedUpdates(w: Window, startTicks: u32, frames: seq<Frame>)
    requires w.hasWindow && w.hasContext
    requires MonotoneFrom(startTicks * UnitsPerMs, frames)
    ensures var r := Run(w, startTicks, frames);
      && UpdateCount(r.actions) == (r.clock.lastTime - startTicks * UnitsPerMs) / Step
      && 0 <= r.clock.accum < Step
  {
    var clock := Clock(0, startTicks * UnitsPerMs);
    var loop := Loop(w, clock, frames);
    LoopAccumBounds(w, clock, frames);
    LoopClock(w, clock, frames);
    CountConcat([Setup], loop.actions, Update(Step));
    DivUnique(loop.clock.lastTime - startTicks * UnitsPerMs, UpdateCount(loop.actions), loop.clock.accum);
  }

  /** A frame without a quit contributes its iteration's actions and hands
      the window and clock on to the next frame. */
  lemma QuietStep(w: Window, c: Clock, frames: seq<Frame>)
    requires |frames| > 0 && Quit !in frames[0].events
    ensures var it := Iterate(w, c, frames[0]);
      Loop(w, c, frames).actions == it.actions + Loop(it.window, it.clock, frames[1..]).actions
  {
  }

  /** The last frame of a quiet run contributes exactly its iteration. */
  lemma LastQuietFrame(w: Window, c: Clock, f: Frame)
    requires Quit !in f.events
    ensures Loop(w, c, [f]).actions == Iterate(w, c, f).actions
  {
    QuietStep(w, c, [f]);
    assert [f][1..] == [];
  }

  /** What one iteration with exactly one step due does: one update, one
      draw, one swap. */
  const OneTick: seq<Action> := [Update(Step), Draw, SwapWindow]

  /** One step worth of time schedules one tick and leaves the excess in the
      accumulator. */
  lemma OneStepDue(accum: int)
    requires Step <= accum < 2 * Step
    ensures Schedule(accum).actions == OneTick
    ensures Schedule(accum).rest == accum - Step
  {
    assert Consume(accum - Step).updates == [];
  }

  /** The third of three frames at 60 Hz: 16 ms plus the 0.67 ms carried
      over make one step. */
  lemma SixtyHertzThird(w: Window)
    ensures Loop(w, Clock(40, 34 * UnitsPerMs), [Frame(50, [])]).actions == OneTick
  {
    LastQuietFrame(w, Clock(40, 34 * UnitsPerMs), Frame(50, []));
    OneStepDue(1000);
  }

  /** The second and third frames: 17 ms plus the 0.33 ms carried over. */
  lemma SixtyHertzSecond(w: Window)
    ensures Loop(w, Clock(20, 17 * UnitsPerMs), [Frame(34, []), Frame(50, [])]).actions == OneTick + OneTick
  {
    var frames := [Frame(34, []), Frame(50, [])];
    var it := Iterate(w, Clock(20, 17 * UnitsPerMs), frames[0]);
    OneStepDue(1040);
    assert it.clock == Clock(40, 34 * UnitsPerMs);
    QuietStep(w, Clock(20, 17 * UnitsPerMs), frames);
    assert frames[1..] == [Frame(50, [])];
    SixtyHertzThird(it.window);
  }

  /** `run` enters the loop with an empty accumulator at the start time and
      calls `onSetup` before it. */
  lemma RunEntersLoop(w: Window, startTicks: u32, frames: seq<Frame>)
    requires w.hasWindow && w.hasContext
    ensures Run(w, startTicks, frames).actions == [Setup] + Loop(w, Clock(0, startTicks * UnitsPerMs), frames).actions
  {
  }

  /** Three frames 17, 17 and 16 ms apart each run one update and one draw. */
  lemma ThreeFramesAtSixtyHertz(w: Window)
    requires w.hasWindow && w.hasContext
    ensures Run(w, 0, [Frame(17, []), Frame(34, []), Frame(50, [])]).actions == [Setup] + (OneTick + (OneTick + OneTick))
  {
    var frames := [Frame(17, []), Frame(34, []), Frame(50, [])];
    var it := Iterate(w, Clock(0, 0), frames[0]);
    OneStepDue(1020);
    assert it.clock == Clock(20, 17 * UnitsPerMs);
    QuietStep(w, Clock(0, 0), frames);
    assert frames[1..] == [Frame(34, []), Frame(50, [])];
    SixtyHertzSecond(it.window);
    RunEntersLoop(w, 0, frames);
  }

  /** One iteration runs as many updates as whole steps are due, and draws
      once if that is at least one. */
  lemma IterationCounts(w: Window, c: Clock, f: Frame)
    requires Due(c, f) >= 0
    ensures var a := Iterate(w, c, f).actions;
      && UpdateCount(a) == Due(c, f) / Step
      && Count(a, Draw) == (if Due(c, f) >= Step then 1 else 0)
  {
    var x := Due(c, f);
    var a := Iterate(w, c, f).actions;
    assert a == Schedule(x).actions;
    DrawOncePerIteration(x);
    ConsumeCount(x);
    assert UpdateCount(a) == x / Step;
    assert UpdateCount(a) >= 1 <==> x >= Step;
  }

  /** However long a stall in front of the first frame, it is caught up by
      as many updates as whole steps have passed, and drawn once. */
  lemma StallCaughtUpInOneDraw(w: Window, ticks: u32)
    requires w.hasWindow && w.hasContext
    ensures var r := Run(w, 0, [Frame(ticks, [])]);
      && UpdateCount(r.actions) == ticks * UnitsPerMs / Step
      && Count(r.actions, Draw) == (if ticks * UnitsPerMs >= Step then 1 else 0)
  {
    var f := Frame(ticks, []);
    var a := Iterate(w, Clock(0, 0), f).actions;
    assert Due(Clock(0, 0), f) == ticks * UnitsPerMs;
    IterationCounts(w, Clock(0, 0), f);
    LastQuietFrame(w, Clock(0, 0), f);
    RunEntersLoop(w, 0, [f]);
    CountConcat([Setup], a, Draw);
    CountConcat([Setup], a, Update(Step));
  }

  /** A frame holding a quit is the last one used: its iteration's actions,
      then the teardown, and the loop exits with 0. */
  lemma QuitStep(w: Window, c: Clock, frames: seq<Frame>)
    requires |frames| > 0 && Quit in frames[0].events
    ensures var r := Loop(w, c, frames);
      && r.actions == Iterate(w, c, frames[0]).actions + [Teardown]
      && r.outcome == Exited(0)
      && r.framesUsed == 1
  {
  }

  /** A quit does not cut its iteration short: the frame holding it still
      runs every update that is due and draws once if any ran, before the
      teardown. */
  lemma QuitFrameStillDraws(w: Window, c: Clock, frames: seq<Frame>)
    requires |frames| > 0 && Quit in frames[0].events
    requires Due(c, frames[0]) >= 0
    ensures var r := Loop(w, c, frames);
      && UpdateCount(r.actions) == Due(c, frames[0]) / Step
      && Count(r.actions, Draw) == (if Due(c, frames[0]) >= Step then 1 else 0)
      && r.actions[|r.actions| - 1] == Teardown
  {
    var a := Iterate(w, c, frames[0]).actions;
    QuitStep(w, c, frames);
    IterationCounts(w, c, frames[0]);
    CountAbsent([Teardown], Update(Step));
    CountAbsent([Teardown], Draw);
    CountConcat(a, [Teardown], Update(Step));
    CountConcat(a, [Teardown], Draw);
  }

  /** `width()` and `height()` answer the size the window was made with,
      whatever a run did. */
  lemma RunKeepsSize(w: Window, startTicks: u32, frames: seq<Frame>)
    ensures Width(Run(w, startTicks, frames).window) == Width(w)
    ensures Height(Run(w, startTicks, frames).window) == Height(w)
  {
  }

  /** A quit in the first frame, 20 ms in: the due update and draw run,
      then the loop tears down and `run` returns 0. */
  lemma QuitFinishesIteration(w: Window)
    requires w.hasWindow && w.hasContext
    ensures var r := Run(w, 0, [Frame(20, [Quit]), Frame(40, [])]);
      && r.outcome == Exited(0)
      && r.framesUsed == 1
      && r.actions == [Setup, Update(Step), Draw, SwapWindow, Teardown]
  {
    assert Consume(1200).updates == [Update(Step)];
  }
}
