/** The per-key input table of `Window` (`m_keyboard`) and the events that
    update it during one iteration of the host loop. */
module Keyboard {
  import opened Ints

  /** Key identifiers are the `u32` keys of `m_keyboard`. */
  type Key = u32

  /** `Window::State`: `pressed`/`released` are edge-triggered, `held` is
      level-triggered. */
  datatype KeyState = KeyState(pressed: bool, released: bool, held: bool)

  /** The value-initialised `State{}` that `operator[]` inserts for a key
      that is not in the table yet. */
  const Untouched: KeyState := KeyState(false, false, false)

  type Table = map<Key, KeyState>

  /** The platform events the loop distinguishes; every other kind is
      `OtherEvent` and is ignored. */
  datatype Event = Quit | KeyDown(key: Key) | KeyUp(key: Key) | OtherEvent

  /** What `m_keyboard[k]` reads, without the insertion. */
  function Lookup(t: Table, k: Key): KeyState
  {
    if k in t then t[k] else Untouched
  }

  /** `m_keyboard[k]` as an lvalue: the table once `k` has an entry. */
  function Touch(t: Table, k: Key): (r: Table)
    ensures r.Keys == t.Keys + {k}
    ensures k !in t ==> r[k] == Untouched
    ensures forall j :: j in t ==> r[j] == t[j]
  {
    if k in t then t else t[k := Untouched]
  }

  /** The reset at the top of every iteration: every known key loses its
      edges and keeps `held`; no key is added or removed. */
  function ResetEdges(t: Table): (r: Table)
    ensures r.Keys == t.Keys
    ensures forall k :: k in t ==> !r[k].pressed && !r[k].released && r[k].held == t[k].held
  {
    map k | k in t :: KeyState(false, false, t[k].held)
  }

  /** Resetting twice is resetting once. */
  lemma ResetEdgesIdempotent(t: Table)
    ensures ResetEdges(ResetEdges(t)) == ResetEdges(t)
  {
    var once := ResetEdges(t);
    var twice := ResetEdges(once);
    assert twice.Keys == once.Keys;
    forall k | k in once
      ensures twice[k] == once[k]
    {
    }
  }

  /** State of the event drain: the table and the `running` flag. */
  datatype Drained = Drained(table: Table, running: bool)

  /** One pass of the `switch (evt.type)` in the drain loop. */
  function ApplyEvent(s: Drained, e: Event): (r: Drained)
    ensures e.Quit? ==> r == Drained(s.table, false)
    ensures e.OtherEvent? ==> r == s
    ensures e.KeyDown? ==>
      && r.running == s.running
      && r.table.Keys == s.table.Keys + {e.key}
      && r.table[e.key] == Lookup(s.table, e.key).(pressed := true, held := true)
      && (forall k :: k in s.table && k != e.key ==> r.table[k] == s.table[k])
    ensures e.KeyUp? ==>
      && r.running == s.running
      && r.table.Keys == s.table.Keys + {e.key}
      && r.table[e.key] == Lookup(s.table, e.key).(released := true, held := false)
      && (forall k :: k in s.table && k != e.key ==> r.table[k] == s.table[k])
  {
    match e
    case Quit => Drained(s.table, false)
    case KeyDown(k) =>
      var t1 := Touch(s.table, k);
      var t2 := t1[k := t1[k].(pressed := true)];
      Drained(t2[k := t2[k].(held := true)], s.running)
    case KeyUp(k) =>
      var t1 := Touch(s.table, k);
      var t2 := t1[k := t1[k].(released := true)];
      Drained(t2[k := t2[k].(held := false)], s.running)
    case OtherEvent => s
  }

  /** `while (SDL_PollEvent(&evt))`: the queued events, applied in queue order. */
  function Drain(s: Drained, events: seq<Event>): (r: Drained)
    ensures s.table.Keys <= r.table.Keys
    ensures r.running ==> s.running
    decreases |events|
  {
    if |events| == 0 then s else Drain(ApplyEvent(s, events[0]), events[1..])
  }

  lemma {:induction false} DrainSnoc(s: Drained, events: seq<Event>, e: Event)
    ensures Drain(s, events + [e]) == ApplyEvent(Drain(s, events), e)
    decreases |events|
  {
    if |events| == 0 {
      assert events + [e] == [e];
      assert [e][1..] == [];
    } else {
      assert (events + [e])[0] == events[0];
      assert (events + [e])[1..] == events[1..] + [e];
      DrainSnoc(ApplyEvent(s, events[0]), events[1..], e);
    }
  }

  /** Reference reading of `held` after a batch of events: the LAST event
      about `k` decides, and with no such event the previous value stays. */
  function LastHeld(events: seq<Event>, k: Key, before: bool): bool
    decreases |events|
  {
    if |events| == 0 then before
    else
      var e := events[|events| - 1];
      if e == KeyDown(k) then true
      else if e == KeyUp(k) then false
      else LastHeld(events[..|events| - 1], k, before)
  }

  /** The keys an event batch mentions. */
  function Mentioned(events: seq<Event>): set<Key>
  {
    set i | 0 <= i < |events| && (events[i].KeyDown? || events[i].KeyUp?) :: events[i].key
  }

  /** The effect of a whole drain on one key, stated against the reference
      readings: `pressed`/`released` become true iff a down/up event for the
      key is in the batch, and `held` follows the last such event. */
  lemma {:induction false} DrainEffect(s: Drained, events: seq<Event>, k: Key)
    ensures Lookup(Drain(s, events).table, k) ==
      KeyState(Lookup(s.table, k).pressed || KeyDown(k) in events,
               Lookup(s.table, k).released || KeyUp(k) in events,
               LastHeld(events, k, Lookup(s.table, k).held))
    decreases |events|
  {
    if |events| > 0 {
      var init := events[..|events| - 1];
      var e := events[|events| - 1];
      assert events == init + [e];
      DrainSnoc(s, init, e);
      DrainEffect(s, init, k);
      assert KeyDown(k) in events <==> KeyDown(k) in init || e == KeyDown(k);
      assert KeyUp(k) in events <==> KeyUp(k) in init || e == KeyUp(k);
    }
  }

  /** The drain keeps the loop running iff no quit is in the batch. */
  lemma {:induction false} DrainRunning(s: Drained, events: seq<Event>)
    ensures Drain(s, events).running <==> s.running && Quit !in events
    decreases |events|
  {
    if |events| > 0 {
      var init := events[..|events| - 1];
      var e := events[|events| - 1];
      assert events == init + [e];
      DrainSnoc(s, init, e);
      DrainRunning(s, init);
      assert Quit in events <==> Quit in init || e == Quit;
    }
  }

  /** The drain adds exactly the keys the batch mentions to the table. */
  lemma {:induction false} DrainKeys(s: Drained, events: seq<Event>)
    ensures Drain(s, events).table.Keys == s.table.Keys + Mentioned(events)
    decreases |events|
  {
    if |events| == 0 {
      assert Mentioned(events) == {};
    } else {
      var init := events[..|events| - 1];
      var e := events[|events| - 1];
      assert events == init + [e];
      DrainSnoc(s, init, e);
      DrainKeys(s, init);
      assert forall i :: 0 <= i < |init| ==> init[i] == events[i];
      if e.KeyDown? || e.KeyUp? {
        assert Mentioned(events) == Mentioned(init) + {e.key};
      } else {
        assert Mentioned(events) == Mentioned(init);
      }
    }
  }

  /** The input half of one loop iteration: reset the edges, then drain. */
  function FrameInput(t: Table, events: seq<Event>): (r: Drained)
    ensures r.running <==> Quit !in events
    ensures r.table.Keys == t.Keys + Mentioned(events)
  {
    var start := Drained(ResetEdges(t), true);
    DrainRunning(start, events);
    DrainKeys(start, events);
    Drain(start, events)
  }

  /** A key's state after one frame depends only on its `held` before the
      frame and on this frame's events: `pressed` iff a key-down for it
      arrived this frame, `released` iff a key-up did, `held` per the last of
      them. */
  lemma FrameKeyState(t: Table, events: seq<Event>, k: Key)
    ensures Lookup(FrameInput(t, events).table, k) ==
      KeyState(KeyDown(k) in events, KeyUp(k) in events, LastHeld(events, k, Lookup(t, k).held))
  {
    DrainEffect(Drained(ResetEdges(t), true), events, k);
  }

  /** A frame with no event about `k` clears its edges and keeps `held`; a key
      never seen stays out of the table. */
  lemma QuietFrame(t: Table, events: seq<Event>, k: Key)
    requires KeyDown(k) !in events && KeyUp(k) !in events
    ensures Lookup(FrameInput(t, events).table, k) == KeyState(false, false, Lookup(t, k).held)
    ensures k in FrameInput(t, events).table <==> k in t
  {
    FrameKeyState(t, events, k);
    QuietHeld(events, k, Lookup(t, k).held);
    DrainKeys(Drained(ResetEdges(t), true), events);
    assert forall i :: 0 <= i < |events| ==> events[i] in events;
    assert k !in Mentioned(events);
  }

  lemma {:induction false} QuietHeld(events: seq<Event>, k: Key, before: bool)
    requires KeyDown(k) !in events && KeyUp(k) !in events
    ensures LastHeld(events, k, before) == before
    decreases |events|
  {
    if |events| > 0 {
      var init := events[..|events| - 1];
      assert forall e :: e in init ==> e in events;
      QuietHeld(init, k, before);
    }
  }

  /** A key pressed and released within one frame reads pressed and released
      in that frame and not held afterwards. */
  lemma DownThenUp(t: Table, k: Key)
    ensures k in FrameInput(t, [KeyDown(k), KeyUp(k)]).table
    ensures Lookup(FrameInput(t, [KeyDown(k), KeyUp(k)]).table, k) == KeyState(true, true, false)
  {
    var events := [KeyDown(k), KeyUp(k)];
    FrameKeyState(t, events, k);
    assert events[1] == KeyUp(k);
    DrainKeys(Drained(ResetEdges(t), true), events);
    assert k in Mentioned(events) by { assert events[0].KeyDown? && events[0].key == k; }
  }

  /** The result of a key query: the field read and the table after
      `operator[]` has inserted a missing key. */
  datatype Answer = Answer(value: bool, table: Table)

  /** `Window::isPressed`. */
  function IsPressed(t: Table, k: Key): (r: Answer)
    ensures r.value <==> k in t && t[k].pressed
    ensures r.table.Keys == t.Keys + {k}
    ensures forall j :: j in t ==> r.table[j] == t[j]
    ensures k !in t ==> r.table[k] == Untouched
  {
    var t' := Touch(t, k);
    Answer(t'[k].pressed, t')
  }

  /** `Window::isReleased`. */
  function IsReleased(t: Table, k: Key): (r: Answer)
    ensures r.value <==> k in t && t[k].released
    ensures r.table.Keys == t.Keys + {k}
    ensures forall j :: j in t ==> r.table[j] == t[j]
    ensures k !in t ==> r.table[k] == Untouched
  {
    var t' := Touch(t, k);
    Answer(t'[k].released, t')
  }

  /** `Window::isHeld`. */
  function IsHeld(t: Table, k: Key): (r: Answer)
    ensures r.value <==> k in t && t[k].held
    ensures r.table.Keys == t.Keys + {k}
    ensures forall j :: j in t ==> r.table[j] == t[j]
    ensures k !in t ==> r.table[k] == Untouched
  {
    var t' := Touch(t, k);
    Answer(t'[k].held, t')
  }

  /** The insertion a query performs is invisible: afterwards every key reads
      as before, and the next frame's input is the same. */
  lemma {:induction false} TouchInvisible(t: Table, k: Key, j: Key, events: seq<Event>)
    ensures Lookup(Touch(t, k), j) == Lookup(t, j)
    ensures Lookup(FrameInput(Touch(t, k), events).table, j) == Lookup(FrameInput(t, events).table, j)
  {
    FrameKeyState(t, events, j);
    FrameKeyState(Touch(t, k), events, j);
  }
}
