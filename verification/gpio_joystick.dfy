/** The GPIO joystick: four direction lines and two fire buttons, each an
    active-LOW pin. The pin reads of one poll are an input, `low[i]` being
    true when line i of the scan order reads LOW; the driver keeps a
    `joystickPressed` table, indexed by distance from INPUT_JOYSTICK_UP, so
    that a release is sent only for a button it had pressed. */
module GpioJoystick {
  import opened Input
  import opened GpioCommon
  import opened EventTranslator

  /** GPIO_JOYSTICK_DEBOUNCE_IN_MS */
  const DebounceMs: U64 := 50

  /** Size of `joystickPressed`: 4 directions and 15 fire buttons. */
  const TableSize := 19

  /** The number of lines the poll checks. */
  const NumLines := 6

  /** The key of line i, in the order the poll checks them. */
  function LineKey(i: nat): (k: InputKey)
    requires i < NumLines
    ensures k.Joystick? && 0 <= k.offset < TableSize
  {
    match i
    case 0 => JoystickLeft
    case 1 => JoystickRight
    case 2 => JoystickUp
    case 3 => JoystickDown
    case 4 => JoystickFire(1)
    case _ => JoystickFire(2)
  }

  /** Each line has its own key, hence its own slot in the table. */
  lemma LineKeysDistinct(i: nat, j: nat)
    requires i < NumLines && j < NumLines && i != j
    ensures LineKey(i) != LineKey(j)
    ensures LineKey(i).offset != LineKey(j).offset
  {
  }

  /** The press and release events of the GPIO joystick, always for
      joystick 0. */
  function JoyPress(k: InputKey): Event {
    JoystickEvent(JoystickPress, 0, k)
  }

  function JoyRelease(k: InputKey): Event {
    JoystickEvent(JoystickRelease, 0, k)
  }

  /** What line i reports, given the table `was` before the poll. */
  function LineEvents(was: seq<bool>, low: seq<bool>, i: nat): seq<Event>
    requires |was| == TableSize && |low| == NumLines && i < NumLines
  {
    Transition(low[i], was[LineKey(i).offset], JoyPress(LineKey(i)), JoyRelease(LineKey(i)))
  }

  /** The events of the first n line checks. */
  function ScanLines(was: seq<bool>, low: seq<bool>, n: nat): (r: seq<Event>)
    requires |was| == TableSize && |low| == NumLines && n <= NumLines
    ensures |r| <= n
  {
    if n == 0 then [] else ScanLines(was, low, n - 1) + LineEvents(was, low, n - 1)
  }

  /** The events of one accepted poll. */
  function JoystickEvents(was: seq<bool>, low: seq<bool>): (r: seq<Event>)
    requires |was| == TableSize && |low| == NumLines
    ensures |r| <= NumLines
  {
    ScanLines(was, low, NumLines)
  }

  /** The table after the first n line checks: each checked line's slot
      holds its read, every other slot is unchanged. */
  function TableAfter(was: seq<bool>, low: seq<bool>, n: nat): (t: seq<bool>)
    requires |was| == TableSize && |low| == NumLines && n <= NumLines
    ensures |t| == TableSize
  {
    if n == 0 then was else TableAfter(was, low, n - 1)[LineKey(n - 1).offset := low[n - 1]]
  }

  /** A line's slot is untouched until the line itself is checked. */
  lemma {:induction false} TableAfterBefore(was: seq<bool>, low: seq<bool>, n: nat, i: nat)
    requires |was| == TableSize && |low| == NumLines && n <= i < NumLines
    ensures TableAfter(was, low, n)[LineKey(i).offset] == was[LineKey(i).offset]
  {
    if n > 0 {
      TableAfterBefore(was, low, n - 1, i);
      LineKeysDistinct(n - 1, i);
    }
  }

  /** After the poll, every line's slot holds the line's read and every
      other slot is as it was. */
  lemma {:induction false} TableAfterPoll(was: seq<bool>, low: seq<bool>, n: nat, o: nat)
    requires |was| == TableSize && |low| == NumLines && n <= NumLines && o < TableSize
    ensures (exists i :: 0 <= i < n && LineKey(i).offset == o) ||
            TableAfter(was, low, n)[o] == was[o]
    ensures forall i :: 0 <= i < n ==> TableAfter(was, low, n)[LineKey(i).offset] == low[i]
  {
    if n > 0 {
      TableAfterPoll(was, low, n - 1, o);
      forall i | 0 <= i < n - 1
        ensures TableAfter(was, low, n)[LineKey(i).offset] == low[i]
      {
        LineKeysDistinct(i, n - 1);
      }
    }
  }

  /** An event is in the first n checks exactly when one of those lines
      reports it. */
  lemma {:induction false} InScan(was: seq<bool>, low: seq<bool>, n: nat, e: Event)
    requires |was| == TableSize && |low| == NumLines && n <= NumLines
    ensures e in ScanLines(was, low, n) <==> exists i :: 0 <= i < n && e in LineEvents(was, low, i)
  {
    if n > 0 {
      InScan(was, low, n - 1, e);
      var prev, last := ScanLines(was, low, n - 1), LineEvents(was, low, n - 1);
      assert ScanLines(was, low, n) == prev + last;
      if e in last {
        assert 0 <= n - 1 < n && e in LineEvents(was, low, n - 1);
      } else if e in prev {
        var i :| 0 <= i < n - 1 && e in LineEvents(was, low, i);
        assert 0 <= i < n && e in LineEvents(was, low, i);
      }
    }
  }

  /** A poll presses a line's button exactly when the line reads LOW, and
      releases it exactly when it does not but the table had it pressed. */
  lemma LineReport(was: seq<bool>, low: seq<bool>, i: nat)
    requires |was| == TableSize && |low| == NumLines && i < NumLines
    ensures JoyPress(LineKey(i)) in JoystickEvents(was, low) <==> low[i]
    ensures JoyRelease(LineKey(i)) in JoystickEvents(was, low) <==> !low[i] && was[LineKey(i).offset]
  {
    InScan(was, low, NumLines, JoyPress(LineKey(i)));
    InScan(was, low, NumLines, JoyRelease(LineKey(i)));
    assert JoyPress(LineKey(i)) in LineEvents(was, low, i) <==> low[i];
    assert JoyRelease(LineKey(i)) in LineEvents(was, low, i) <==> !low[i] && was[LineKey(i).offset];
    if JoyPress(LineKey(i)) in JoystickEvents(was, low) {
      var j :| 0 <= j < NumLines && JoyPress(LineKey(i)) in LineEvents(was, low, j);
      if j != i {
        LineKeysDistinct(i, j);
      }
    }
    if JoyRelease(LineKey(i)) in JoystickEvents(was, low) {
      var j :| 0 <= j < NumLines && JoyRelease(LineKey(i)) in LineEvents(was, low, j);
      if j != i {
        LineKeysDistinct(i, j);
      }
    }
  }

  /** Every event of the GPIO joystick is for joystick 0 and names one of
      the six scanned buttons. */
  lemma {:induction false} OnlyJoystickZero(was: seq<bool>, low: seq<bool>, n: nat)
    requires |was| == TableSize && |low| == NumLines && n <= NumLines
    ensures forall e :: e in ScanLines(was, low, n) ==>
              e.JoystickEvent? && e.which == 0 && exists i :: 0 <= i < n && e.button == LineKey(i)
  {
    if n > 0 {
      OnlyJoystickZero(was, low, n - 1);
    }
  }

  /** An accepted poll refreshes the debounce timestamp exactly when some
      line reads LOW. */
  lemma PollStampsIffLineLow(was: seq<bool>, low: seq<bool>)
    requires |was| == TableSize && |low| == NumLines
    ensures HasPress(JoystickEvents(was, low)) <==> exists i :: 0 <= i < NumLines && low[i]
  {
    var r := JoystickEvents(was, low);
    if exists i :: 0 <= i < NumLines && low[i] {
      var i :| 0 <= i < NumLines && low[i];
      LineReport(was, low, i);
      var j :| 0 <= j < |r| && r[j] == JoyPress(LineKey(i));
      assert r[j].IsPress();
    }
    if HasPress(r) {
      var j :| 0 <= j < |r| && r[j].IsPress();
      InScan(was, low, NumLines, r[j]);
      var i :| 0 <= i < NumLines && r[j] in LineEvents(was, low, i);
      assert low[i];
    }
  }

  /** A button held down and then let go: the first poll presses it, the
      next releases it once, and the poll after that reports nothing. */
  lemma FireOneClick()
    ensures var idle := seq(TableSize, _ => false);
            var fire := [false, false, false, false, true, false];
            var none := seq(NumLines, _ => false);
            && JoystickEvents(idle, fire) == [JoyPress(JoystickFire(1))]
            && JoystickEvents(TableAfter(idle, fire, NumLines), none) == [JoyRelease(JoystickFire(1))]
            && JoystickEvents(TableAfter(TableAfter(idle, fire, NumLines), none, NumLines), none) == []
  {
    var idle := seq(TableSize, _ => false);
    var fire := [false, false, false, false, true, false];
    var none := seq(NumLines, _ => false);
    FirePressed(idle, fire);
    FireReleased(idle, none);
    QuietLines(idle, none, NumLines);
  }

  /** The poll with FIRE_1's line LOW presses it and marks its slot. */
  lemma FirePressed(idle: seq<bool>, fire: seq<bool>)
    requires idle == seq(TableSize, _ => false) && fire == [false, false, false, false, true, false]
    ensures JoystickEvents(idle, fire) == [JoyPress(JoystickFire(1))]
    ensures TableAfter(idle, fire, NumLines) == idle[4 := true]
  {
    QuietLines(idle, fire, 4);
    assert ScanLines(idle, fire, 5) == [JoyPress(JoystickFire(1))];
    var held := TableAfter(idle, fire, NumLines);
    forall o | 0 <= o < TableSize
      ensures held[o] == idle[4 := true][o]
    {
      TableAfterPoll(idle, fire, NumLines, o);
    }
  }

  /** The next poll, with every line HIGH, releases FIRE_1 and clears its
      slot. */
  lemma FireReleased(idle: seq<bool>, none: seq<bool>)
    requires idle == seq(TableSize, _ => false) && none == seq(NumLines, _ => false)
    ensures JoystickEvents(idle[4 := true], none) == [JoyRelease(JoystickFire(1))]
    ensures TableAfter(idle[4 := true], none, NumLines) == idle
  {
    var held := idle[4 := true];
    QuietLines(held, none, 4);
    assert ScanLines(held, none, 5) == [JoyRelease(JoystickFire(1))];
    forall o | 0 <= o < TableSize
      ensures TableAfter(held, none, NumLines)[o] == idle[o]
    {
      TableAfterPoll(held, none, NumLines, o);
    }
  }

  /** Lines that read HIGH and were not pressed report nothing. */
  lemma {:induction false} QuietLines(was: seq<bool>, low: seq<bool>, n: nat)
    requires |was| == TableSize && |low| == NumLines && n <= NumLines
    requires forall i :: 0 <= i < n ==> !low[i] && !was[LineKey(i).offset]
    ensures ScanLines(was, low, n) == []
  {
    if n > 0 {
      QuietLines(was, low, n - 1);
    }
  }

  class GpioJoystick {
    /** `joystickPressed[19]` */
    var joystickPressed: array<bool>

    ghost predicate Valid()
      reads this
    {
      joystickPressed.Length == TableSize
    }

    /** The static table, all zero. */
    constructor ()
      ensures Valid() && fresh(joystickPressed)
      ensures forall o :: 0 <= o < TableSize ==> !joystickPressed[o]
    {
      joystickPressed := new bool[TableSize](_ => false);
    }

    /** `pressJoystick`: marks the slot, stamps the timer, then dispatches. */
    method PressJoystick(key: InputKey, timer: DebounceTimer, sink: EventQueue, now: U64)
      requires Valid() && key.Joystick? && 0 <= key.offset < TableSize
      modifies joystickPressed, timer, sink
      ensures joystickPressed[..] == old(joystickPressed[..])[key.offset := true]
      ensures timer.lastEventTime == now
      ensures sink.log == old(sink.log) + [Dispatch(JoyPress(key), now)]
    {
      joystickPressed[key.offset] := true;
      timer.UpdateLastEventTime(now);
      sink.InputEvent(JoystickEvent(JoystickPress, 0, key), timer);
    }

    /** `unpressJoystick`: clears the slot and dispatches; the timer is left
        alone. */
    method UnpressJoystick(key: InputKey, timer: DebounceTimer, sink: EventQueue)
      requires Valid() && key.Joystick? && 0 <= key.offset < TableSize
      modifies joystickPressed, sink
      ensures joystickPressed[..] == old(joystickPressed[..])[key.offset := false]
      ensures sink.log == old(sink.log) + [Dispatch(JoyRelease(key), timer.lastEventTime)]
    {
      joystickPressed[key.offset] := false;
      sink.InputEvent(JoystickEvent(JoystickRelease, 0, key), timer);
    }

    /** One line check of `gpio_joystick_poll`, as a step of the poll: the
        table, the sink and the timer hold what the first i checks produced,
        before and after the (i+1)-th. */
    method CheckLine(i: nat, low: seq<bool>, timer: DebounceTimer, sink: EventQueue, now: U64,
                     ghost was: seq<bool>, ghost log0: seq<Dispatch>, ghost stamp0: U64)
      requires Valid() && |was| == TableSize && |low| == NumLines && i < NumLines
      requires joystickPressed[..] == TableAfter(was, low, i)
      requires sink.log == log0 + Dispatched(ScanLines(was, low, i), stamp0, now)
      requires timer.lastEventTime == StampAfter(ScanLines(was, low, i), stamp0, now)
      modifies joystickPressed, timer, sink
      ensures joystickPressed[..] == TableAfter(was, low, i + 1)
      ensures sink.log == log0 + Dispatched(ScanLines(was, low, i + 1), stamp0, now)
      ensures timer.lastEventTime == StampAfter(ScanLines(was, low, i + 1), stamp0, now)
    {
      var key := LineKey(i);
      ghost var done := ScanLines(was, low, i);
      ghost var line := LineEvents(was, low, i);
      ghost var logBefore := sink.log;
      TableAfterBefore(was, low, i, i);
      DispatchedAppend(done, line, stamp0, now);
      DispatchedSingle(JoyPress(key), timer.lastEventTime, now);
      DispatchedSingle(JoyRelease(key), timer.lastEventTime, now);
      if low[i] {
        PressJoystick(key, timer, sink, now);
      } else {
        if joystickPressed[key.offset] {
          UnpressJoystick(key, timer, sink);
        } else {
          assert TableAfter(was, low, i)[key.offset := false] == TableAfter(was, low, i);
        }
      }
      assert sink.log == logBefore + Dispatched(line, StampAfter(done, stamp0, now), now);
      assert sink.log == log0 + (Dispatched(done, stamp0, now) + Dispatched(line, StampAfter(done, stamp0, now), now));
    }

    /** `gpio_joystick_poll`: nothing unless the GPIO library is up and the
        debounce interval (tripled while a menu is open) has passed; then
        LEFT, RIGHT, UP, DOWN, FIRE 1 and FIRE 2 in that order. */
    method Poll(gpioInit: int, uiWidgetLevel: int, low: seq<bool>,
                timer: DebounceTimer, sink: EventQueue, now: U64)
      requires Valid() && |low| == NumLines
      modifies joystickPressed, timer, sink
      ensures gpioInit == 0 || Discards(old(timer.lastEventTime), now,
                                        ScaledInterval(DebounceMs, 3, InWidget(uiWidgetLevel))) ==>
                unchanged(joystickPressed) && unchanged(timer) && unchanged(sink)
      ensures gpioInit != 0 && !Discards(old(timer.lastEventTime), now,
                                         ScaledInterval(DebounceMs, 3, InWidget(uiWidgetLevel))) ==>
                && joystickPressed[..] == TableAfter(old(joystickPressed[..]), low, NumLines)
                && sink.log == old(sink.log) + Dispatched(JoystickEvents(old(joystickPressed[..]), low),
                                                          old(timer.lastEventTime), now)
                && timer.lastEventTime == StampAfter(JoystickEvents(old(joystickPressed[..]), low),
                                                     old(timer.lastEventTime), now)
    {
      if gpioInit == 0 {
        return;
      }
      var interval := ScaledInterval(DebounceMs, 3, InWidget(uiWidgetLevel));
      if timer.DebounceEvent(interval, now) {
        return;
      }
      ghost var was := joystickPressed[..];
      ghost var log0 := sink.log;
      ghost var stamp0 := timer.lastEventTime;
      assert sink.log == log0 + Dispatched([], stamp0, now);
      CheckLine(0, low, timer, sink, now, was, log0, stamp0);  // LEFT
      CheckLine(1, low, timer, sink, now, was, log0, stamp0);  // RIGHT
      CheckLine(2, low, timer, sink, now, was, log0, stamp0);  // UP
      CheckLine(3, low, timer, sink, now, was, log0, stamp0);  // DOWN
      CheckLine(4, low, timer, sink, now, was, log0, stamp0);  // FIRE 1
      CheckLine(5, low, timer, sink, now, was, log0, stamp0);  // FIRE 2
    }
  }
}
