/** How the GPIO, I2C and serial drivers hand events to the emulator.
    Every press refreshes the debounce timestamp immediately BEFORE it is
    dispatched (the sink may re-enter a poll, which must see the new
    timestamp); a release is dispatched without touching it. The sink
    records each event together with the timestamp in force when it was
    dispatched. */
module EventTranslator {
  import opened Input
  import opened GpioCommon

  /** One call of `input_event`, with the debounce timestamp it saw. */
  datatype Dispatch = Dispatch(event: Event, lastEventTime: U64)

  /** The emulator's input queue (`input_event`), an external sink. */
  class EventQueue {
    ghost var log: seq<Dispatch>

    constructor ()
      ensures log == []
    {
      log := [];
    }

    method InputEvent(e: Event, timer: DebounceTimer)
      modifies this
      ensures log == old(log) + [Dispatch(e, timer.lastEventTime)]
    {
      log := log + [Dispatch(e, timer.lastEventTime)];
    }
  }

  /** The press/release convention shared by the membrane and joystick
      scanners: an active (LOW) line emits a press, every poll; an inactive
      line emits a release only if the state table says it was pressed. */
  function Transition(low: bool, wasPressed: bool, press: Event, release: Event): (r: seq<Event>)
    requires press != release
    ensures |r| <= 1
    ensures r == [press] <==> low
    ensures r == [release] <==> !low && wasPressed
    ensures r == [] <==> !low && !wasPressed
  {
    if low then [press] else if wasPressed then [release] else []
  }

  /** Some event of the batch is a press. */
  predicate HasPress(events: seq<Event>) {
    exists i :: 0 <= i < |events| && events[i].IsPress()
  }

  /** The debounce timestamp after `events` have been dispatched, starting
      from `stamp`: every press refreshes it to `now`, releases leave it. */
  function StampAfter(events: seq<Event>, stamp: U64, now: U64): (r: U64)
    ensures r == now || r == stamp
  {
    if HasPress(events) then now else stamp
  }

  /** Any press in the batch leaves the timestamp at the clock; a batch of
      releases only leaves it where it was. */
  lemma StampAfterMeaning(events: seq<Event>, stamp: U64, now: U64)
    ensures (exists i :: 0 <= i < |events| && events[i].IsPress()) ==> StampAfter(events, stamp, now) == now
    ensures (forall i :: 0 <= i < |events| ==> !events[i].IsPress()) ==> StampAfter(events, stamp, now) == stamp
  {
  }

  /** What the sink records for `events`, dispatched in order from
      timestamp `stamp`: each event with the timestamp in force when it is
      handed over, which is `now` for a press (the timestamp is refreshed
      just before it) and otherwise what the earlier events left. */
  function Dispatched(events: seq<Event>, stamp: U64, now: U64): (r: seq<Dispatch>)
    ensures |r| == |events|
  {
    seq(|events|, i requires 0 <= i < |events| =>
      Dispatch(events[i], if events[i].IsPress() then now else StampAfter(events[..i], stamp, now)))
  }

  /** A batch of two parts holds a press exactly when one of its parts does. */
  lemma HasPressAppend(a: seq<Event>, b: seq<Event>)
    ensures HasPress(a + b) <==> HasPress(a) || HasPress(b)
  {
    if HasPress(a) {
      var i :| 0 <= i < |a| && a[i].IsPress();
      assert (a + b)[i].IsPress();
    }
    if HasPress(b) {
      var i :| 0 <= i < |b| && b[i].IsPress();
      assert (a + b)[|a| + i].IsPress();
    }
    if HasPress(a + b) {
      var i :| 0 <= i < |a + b| && (a + b)[i].IsPress();
      if i < |a| {
        assert a[i].IsPress();
      } else {
        assert b[i - |a|].IsPress();
      }
    }
  }

  /** The timestamp after two batches is the timestamp after the second,
      started from where the first left it. */
  lemma StampAfterAppend(a: seq<Event>, b: seq<Event>, stamp: U64, now: U64)
    ensures StampAfter(a + b, stamp, now) == StampAfter(b, StampAfter(a, stamp, now), now)
  {
    HasPressAppend(a, b);
  }

  /** Dispatching a batch of events and then another batch records the same
      as dispatching both batches at once. */
  lemma DispatchedAppend(a: seq<Event>, b: seq<Event>, stamp: U64, now: U64)
    ensures Dispatched(a + b, stamp, now)
         == Dispatched(a, stamp, now) + Dispatched(b, StampAfter(a, stamp, now), now)
    ensures StampAfter(a + b, stamp, now) == StampAfter(b, StampAfter(a, stamp, now), now)
  {
    StampAfterAppend(a, b, stamp, now);
    var ab := a + b;
    var lhs := Dispatched(ab, stamp, now);
    var da := Dispatched(a, stamp, now);
    var db := Dispatched(b, StampAfter(a, stamp, now), now);
    forall i | 0 <= i < |ab|
      ensures lhs[i] == (da + db)[i]
    {
      if i < |a| {
        assert ab[..i] == a[..i];
        assert lhs[i] == da[i];
      } else {
        var j := i - |a|;
        assert ab[..i] == a + b[..j];
        StampAfterAppend(a, b[..j], stamp, now);
        assert lhs[i] == db[j];
      }
    }
    assert lhs == da + db;
  }

  /** Dispatching a single event records it with the timestamp in force. */
  lemma DispatchedSingle(e: Event, stamp: U64, now: U64)
    ensures Dispatched([e], stamp, now) == [Dispatch(e, if e.IsPress() then now else stamp)]
    ensures StampAfter([e], stamp, now) == if e.IsPress() then now else stamp
  {
    assert [e][..0] == [];
  }
}
