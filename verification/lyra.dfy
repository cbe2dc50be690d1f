/** The Hermit Retro Lyra driver: a table of the 15 buttons it has seen
    pressed, the volume level, and a poll that requests a frame from the
    ATmega32u4 and acts on it. The serial port is an input to the poll: the
    number of bytes waiting and, when there are five, the bytes. The clock
    is read once for the poll's debounce check (`now`) and once after the
    50 ms wait for the frame (`later`). */
module Lyra {
  import opened Input
  import opened GpioCommon
  import opened EventTranslator
  import opened LyraFrame

  /** HERMITRETRO_LYRA_DEBOUNCE_IN_MS */
  const DebounceMs: U64 := 50

  /** The poll interval is multiplied by this while a menu is showing. */
  const WidgetFactor: U64 := 5

  /** The volume after pressing button `index`: up adds 10 and stops at the
      maximum, down takes 10 away and stops at 0, other buttons leave it. */
  function PressVolume(v: int, index: nat): (r: int)
    ensures index != VolumeUpIndex && index != VolumeDownIndex ==> r == v
    ensures index == VolumeUpIndex && v + 10 <= MaxVolume ==> r == v + 10
    ensures index == VolumeUpIndex && v + 10 > MaxVolume ==> r == MaxVolume
    ensures index == VolumeDownIndex && v >= 10 ==> r == v - 10
    ensures index == VolumeDownIndex && v < 10 ==> r == 0
  {
    if index == VolumeUpIndex then (if v + 10 > MaxVolume then MaxVolume else v + 10)
    else if index == VolumeDownIndex then (if v - 10 < 0 then 0 else v - 10)
    else v
  }

  /** The keys pressing button `index` sends: only TOP_LEFT sends one, the
      menu key, and only when its own 50 ms debounce check lets it. */
  function PressEvents(index: nat, stamp: U64, now: U64, uiWidgetLevel: int): (r: seq<Event>)
    ensures |r| <= 1
    ensures r != [] <==> index == TopLeftIndex && !Discards(stamp, now, DebounceMs)
    ensures forall e :: e in r ==> e == Press(MenuKey(uiWidgetLevel))
  {
    if index == TopLeftIndex && !Discards(stamp, now, DebounceMs) then [Press(MenuKey(uiWidgetLevel))] else []
  }

  /** Every slot an action names is in the table. */
  predicate InTable(acts: seq<ButtonAction>, n: nat) {
    forall i :: 0 <= i < |acts| ==> acts[i].index < n
  }

  /** The table after the actions, in order. */
  function ButtonsAfter(b: seq<bool>, acts: seq<ButtonAction>): (r: seq<bool>)
    requires InTable(acts, |b|)
    ensures |r| == |b|
    decreases |acts|
  {
    if acts == [] then b
    else ButtonsAfter(b[acts[0].index := acts[0].ButtonDown?], acts[1..])
  }

  /** The volume after the actions, in order: from a level in range, each
      action moves it by at most one 10-step. */
  function VolumeAfter(v: int, acts: seq<ButtonAction>): (r: int)
    ensures 0 <= v <= MaxVolume ==> v - 10 * |acts| <= r <= v + 10 * |acts|
    decreases |acts|
  {
    if acts == [] then v
    else VolumeAfter(if acts[0].ButtonDown? then PressVolume(v, acts[0].index) else v, acts[1..])
  }

  /** The keys a frame's actions send: the menu key when TOP_LEFT is
      pressed and its debounce check lets it through. */
  function FrameEvents(acts: seq<ButtonAction>, stamp: U64, now: U64, uiWidgetLevel: int): seq<Event> {
    if ButtonDown(TopLeftIndex) in acts then PressEvents(TopLeftIndex, stamp, now, uiWidgetLevel) else []
  }

  /** The volume never leaves [0, MaxVolume] once it is there, whatever
      buttons are pressed and released. */
  lemma {:induction false} VolumeStaysInRange(v: int, acts: seq<ButtonAction>)
    requires 0 <= v <= MaxVolume
    ensures 0 <= VolumeAfter(v, acts) <= MaxVolume
    decreases |acts|
  {
    if acts != [] {
      var v' := if acts[0].ButtonDown? then PressVolume(v, acts[0].index) else v;
      VolumeStaysInRange(v', acts[1..]);
    }
  }

  /** A frame changes the VOLUME_DOWN and TOP_LEFT slots only: VOLUME_DOWN
      pressed or released as the frame's byte 1 says, TOP_LEFT as its byte
      2 says, every other slot left as it was. */
  lemma FrameTouchesTwoSlots(b: seq<bool>, frame: seq<bv8>, j: nat)
    requires |b| == NumButtons && |frame| == 5 && j < NumButtons
    ensures InTable(FrameActions(frame), |b|)
    ensures j != VolumeDownIndex && j != TopLeftIndex ==> ButtonsAfter(b, FrameActions(frame))[j] == b[j]
    ensures j == TopLeftIndex && ButtonDown(TopLeftIndex) in FrameActions(frame) ==> ButtonsAfter(b, FrameActions(frame))[j]
    ensures j == TopLeftIndex && ButtonUp(TopLeftIndex) in FrameActions(frame) ==> !ButtonsAfter(b, FrameActions(frame))[j]
    ensures j == VolumeDownIndex && ButtonDown(VolumeDownIndex) in FrameActions(frame) ==> ButtonsAfter(b, FrameActions(frame))[j]
    ensures j == VolumeDownIndex && ButtonUp(VolumeDownIndex) in FrameActions(frame) ==> !ButtonsAfter(b, FrameActions(frame))[j]
  {
    var acts := FrameActions(frame);
    FrameActionsShape(frame);
    if |acts| == 2 {
      assert acts == [acts[0]] + [acts[1]];
      ButtonsAfterSnoc(b, [acts[0]], acts[1]);
      assert [acts[0]][1..] == [];
    } else if |acts| == 1 {
      assert acts[1..] == [];
      assert ButtonsAfter(b, acts) == b[acts[0].index := acts[0].ButtonDown?];
    }
  }

  /** With a clock that does not go backwards, the TOP_LEFT button's own
      50 ms check never stops the menu key once the poll's check has let
      the poll through: the poll's interval is at least 50 ms, and nothing
      before TOP_LEFT in a frame refreshes the timestamp. */
  lemma TopLeftAlwaysOpensMenu(frame: seq<bv8>, last: U64, now: U64, later: U64, uiWidgetLevel: int)
    requires |frame| == 5 && last <= now <= later
    requires !Discards(last, now, ScaledInterval(DebounceMs, WidgetFactor, InWidget(uiWidgetLevel)))
    ensures FrameEvents(FrameActions(frame), last, later, uiWidgetLevel)
         == if ButtonDown(TopLeftIndex) in FrameActions(frame) then [Press(MenuKey(uiWidgetLevel))] else []
  {
    var interval := ScaledInterval(DebounceMs, WidgetFactor, InWidget(uiWidgetLevel));
    DiscardsMonotoneInInterval(last, now, DebounceMs, interval);
    AcceptStaysAccepted(last, now, later, DebounceMs);
  }

  /** The Lyra driver's state: `buttonsPressed` and `volumeLevel`. */
  class LyraController {
    var buttonsPressed: array<bool>
    var volumeLevel: int

    ghost predicate Valid()
      reads this
    {
      buttonsPressed.Length == NumButtons
    }

    /** No button has been seen pressed; `volume` is the level the audio
        code set (the variable is defined outside the driver). */
    constructor (volume: int)
      ensures Valid() && fresh(buttonsPressed)
      ensures buttonsPressed[..] == seq(NumButtons, _ => false)
      ensures volumeLevel == volume
    {
      buttonsPressed := new bool[NumButtons](_ => false);
      volumeLevel := volume;
    }

    /** `pressButton`: marks the slot, then acts on the button. */
    method PressButton(index: nat, uiWidgetLevel: int, timer: DebounceTimer, sink: EventQueue, now: U64)
      requires Valid() && index < NumButtons
      modifies buttonsPressed, this`volumeLevel, timer, sink
      ensures Valid()
      ensures buttonsPressed[..] == old(buttonsPressed[..])[index := true]
      ensures volumeLevel == PressVolume(old(volumeLevel), index)
      ensures sink.log == old(sink.log)
                + Dispatched(PressEvents(index, old(timer.lastEventTime), now, uiWidgetLevel), old(timer.lastEventTime), now)
      ensures timer.lastEventTime
           == StampAfter(PressEvents(index, old(timer.lastEventTime), now, uiWidgetLevel), old(timer.lastEventTime), now)
    {
      DispatchedAppend([], [], timer.lastEventTime, now);
      buttonsPressed[index] := true;
      if index == VolumeUpIndex {
        volumeLevel := volumeLevel + 10;
        if volumeLevel > MaxVolume {
          volumeLevel := MaxVolume;
        }
        return;
      } else if index == VolumeDownIndex {
        volumeLevel := volumeLevel - 10;
        if volumeLevel < 0 {
          volumeLevel := 0;
        }
      } else if index == TopLeftIndex {
        // The extra check keeps the menu from closing straight after it opened.
        if timer.DebounceEvent(DebounceMs, now) {
          return;
        }
        var key := MenuKey(uiWidgetLevel);
        DispatchedSingle(Press(key), timer.lastEventTime, now);
        timer.UpdateLastEventTime(now);
        sink.InputEvent(KeyEvent(KeyPress, key, key), timer);
        return;
      }
    }

    /** `releaseButton`: clears the slot, whatever it held. */
    method ReleaseButton(index: nat)
      requires Valid() && index < NumButtons
      modifies buttonsPressed
      ensures buttonsPressed[..] == old(buttonsPressed[..])[index := false]
    {
      buttonsPressed[index] := false;
    }

    /** The frame decode of `hermitretro_lyra_poll`, from the checksum test
        to the `bailout` label (an early return here). */
    method DecodeFrame(frame: seq<bv8>, uiWidgetLevel: int, timer: DebounceTimer, sink: EventQueue, now: U64)
      requires Valid() && |frame| == 5
      modifies buttonsPressed, this`volumeLevel, timer, sink
      ensures Valid() && InTable(FrameActions(frame), NumButtons)
      ensures buttonsPressed[..] == ButtonsAfter(old(buttonsPressed[..]), FrameActions(frame))
      ensures volumeLevel == VolumeAfter(old(volumeLevel), FrameActions(frame))
      ensures sink.log == old(sink.log)
                + Dispatched(FrameEvents(FrameActions(frame), old(timer.lastEventTime), now, uiWidgetLevel),
                             old(timer.lastEventTime), now)
      ensures timer.lastEventTime
           == StampAfter(FrameEvents(FrameActions(frame), old(timer.lastEventTime), now, uiWidgetLevel),
                         old(timer.lastEventTime), now)
    {
      ghost var b := buttonsPressed[..];
      ghost var v := volumeLevel;
      ghost var acts := FrameActions(frame);
      DispatchedAppend([], [], timer.lastEventTime, now);
      var b1, b2 := frame[1], frame[2];
      if !ChecksumOk(frame) {
        return;
      }
      if Tagged(b1, B1Type) {
        if Has(b1, VolumeUpMask) {
          return;
        }
        if Has(b1, VolumeDownMask) {
          assert acts == [ButtonDown(VolumeDownIndex)] && acts[1..] == [];
          PressButton(VolumeDownIndex, uiWidgetLevel, timer, sink, now);
          return;
        }
        ReleaseButton(VolumeDownIndex);
        if Has(b1, BottomRight3Mask) {
          assert acts == [ButtonUp(VolumeDownIndex)] && acts[1..] == [];
          return;
        }
      }
      ghost var first := if Tagged(b1, B1Type) then [ButtonUp(VolumeDownIndex)] else [];
      assert buttonsPressed[..] == ButtonsAfter(b, first) by {
        if first != [] {
          assert first[1..] == [];
        }
      }
      if Tagged(b2, B2Type) {
        if Has(b2, TopLeftMask) {
          assert acts == first + [ButtonDown(TopLeftIndex)];
          PressButton(TopLeftIndex, uiWidgetLevel, timer, sink, now);
          ButtonsAfterSnoc(b, first, ButtonDown(TopLeftIndex));
          VolumeUntouched(v, acts);
          return;
        }
        ReleaseButton(TopLeftIndex);
        assert acts == first + [ButtonUp(TopLeftIndex)];
        ButtonsAfterSnoc(b, first, ButtonUp(TopLeftIndex));
        VolumeUntouched(v, acts);
        if Has(b2, TopRightMask) {
          return;
        }
      } else {
        assert acts == first;
        VolumeUntouched(v, acts);
      }
      // The four directions of byte 2 and everything in byte 3 are only
      // reported on the console.
    }

    /** `hermitretro_lyra_poll`. `avail` is what serialDataAvail answered
        and `frame` the bytes then read when it was 5. */
    method Poll(uiWidgetLevel: int, avail: int, frame: seq<bv8>, timer: DebounceTimer, sink: EventQueue, now: U64, later: U64)
      requires Valid() && (avail == 5 ==> |frame| == 5)
      modifies buttonsPressed, this`volumeLevel, timer, sink
      ensures Valid()
      ensures Discards(old(timer.lastEventTime), now, ScaledInterval(DebounceMs, WidgetFactor, InWidget(uiWidgetLevel))) ==>
                && unchanged(timer) && unchanged(sink) && unchanged(buttonsPressed) && volumeLevel == old(volumeLevel)
      ensures !Discards(old(timer.lastEventTime), now, ScaledInterval(DebounceMs, WidgetFactor, InWidget(uiWidgetLevel))) ==>
                timer.lastEventTime == later
      ensures !Discards(old(timer.lastEventTime), now, ScaledInterval(DebounceMs, WidgetFactor, InWidget(uiWidgetLevel)))
              && avail != 5 ==>
                && unchanged(sink) && unchanged(buttonsPressed) && volumeLevel == old(volumeLevel)
      ensures !Discards(old(timer.lastEventTime), now, ScaledInterval(DebounceMs, WidgetFactor, InWidget(uiWidgetLevel)))
              && avail == 5 ==>
                && InTable(FrameActions(frame), NumButtons)
                && buttonsPressed[..] == ButtonsAfter(old(buttonsPressed[..]), FrameActions(frame))
                && volumeLevel == VolumeAfter(old(volumeLevel), FrameActions(frame))
                && sink.log == old(sink.log)
                     + Dispatched(FrameEvents(FrameActions(frame), old(timer.lastEventTime), later, uiWidgetLevel),
                                  old(timer.lastEventTime), later)
    {
      var debounceInterval := ScaledInterval(DebounceMs, WidgetFactor, InWidget(uiWidgetLevel));
      if timer.DebounceEvent(debounceInterval, now) {
        return;
      }
      if avail == 5 {
        DecodeFrame(frame, uiWidgetLevel, timer, sink, later);
      }
      // bailout: every poll that got this far refreshes the timestamp.
      timer.UpdateLastEventTime(later);
    }
  }

  /** Applying one more action after any run of actions sets or clears
      just that action's slot of the table the run left. */
  lemma {:induction false} ButtonsAfterSnoc(b: seq<bool>, acts: seq<ButtonAction>, a: ButtonAction)
    requires InTable(acts, |b|) && a.index < |b|
    ensures InTable(acts + [a], |b|)
    ensures ButtonsAfter(b, acts + [a]) == ButtonsAfter(b, acts)[a.index := a.ButtonDown?]
    decreases |acts|
  {
    assert InTable(acts + [a], |b|) by {
      forall i | 0 <= i < |acts + [a]|
        ensures (acts + [a])[i].index < |b|
      {
        if i < |acts| {
          assert (acts + [a])[i] == acts[i];
        }
      }
    }
    if acts == [] {
      assert acts + [a] == [a] && [a][1..] == [];
    } else {
      var b' := b[acts[0].index := acts[0].ButtonDown?];
      assert (acts + [a])[1..] == acts[1..] + [a];
      assert InTable(acts[1..], |b'|) by {
        forall i | 0 <= i < |acts[1..]|
          ensures acts[1..][i].index < |b'|
        {
          assert acts[1..][i] == acts[i + 1];
        }
      }
      ButtonsAfterSnoc(b', acts[1..], a);
    }
  }

  /** A slot that no action names keeps what it held. */
  lemma {:induction false} ButtonsAfterUntouched(b: seq<bool>, acts: seq<ButtonAction>, j: nat)
    requires InTable(acts, |b|) && j < |b|
    requires forall i :: 0 <= i < |acts| ==> acts[i].index != j
    ensures ButtonsAfter(b, acts)[j] == b[j]
    decreases |acts|
  {
    if acts != [] {
      var b' := b[acts[0].index := acts[0].ButtonDown?];
      assert forall i :: 0 <= i < |acts[1..]| ==> acts[1..][i] == acts[i + 1];
      ButtonsAfterUntouched(b', acts[1..], j);
    }
  }

  /** Releases and presses of buttons other than the volume keys leave
      the volume as it was. */
  lemma {:induction false} VolumeUntouched(v: int, acts: seq<ButtonAction>)
    requires forall i :: 0 <= i < |acts| ==>
               acts[i].ButtonUp? || (acts[i].index != VolumeUpIndex && acts[i].index != VolumeDownIndex)
    ensures VolumeAfter(v, acts) == v
    decreases |acts|
  {
    if acts != [] {
      VolumeUntouched(v, acts[1..]);
    }
  }
}
