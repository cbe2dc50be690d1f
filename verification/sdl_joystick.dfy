/** The SDL joystick front end: how SDL's joystick button, axis and hat
    events become emulator joystick events. Each handler's result is the
    sequence of events it hands to `input_event`, in order. */
module SdlJoystick {
  import opened Input

  /** NUM_JOY_BUTTONS: fire buttons the emulator supports. */
  const NumJoyButtons := 17

  /** An axis beyond this value, in either direction, is a deflection. */
  const AxisThreshold := 16384

  /** AXIS_FLUTTER_THRESHOLD */
  const AxisFlutterThreshold := 256

  // SDL's hat bits.
  const HatUp: bv8 := 0x01
  const HatRight: bv8 := 0x02
  const HatDown: bv8 := 0x04
  const HatLeft: bv8 := 0x08

  /** SDL's `Uint8` and `Sint16` */
  type Uint8 = x: int | 0 <= x < 256
  type Sint16 = x: int | -0x8000 <= x < 0x8000

  function Abs(x: int): int {
    if x < 0 then -x else x
  }

  /** Whether joystick `which`'s `key` is held after `events`, starting
      from `held`: the last press or release of that key decides. */
  function HeldAfter(events: seq<Event>, which: int, key: InputKey, held: bool): bool
    decreases |events|
  {
    if events == [] then held
    else
      var e := events[0];
      HeldAfter(events[1..], which, key,
        if e.JoystickEvent? && e.which == which && e.button == key then e.kind == JoystickPress else held)
  }

  /** Handing over two batches is handing over one after the other. */
  lemma {:induction false} HeldAfterAppend(a: seq<Event>, b: seq<Event>, which: int, key: InputKey, held: bool)
    ensures HeldAfter(a + b, which, key, held) == HeldAfter(b, which, key, HeldAfter(a, which, key, held))
    decreases |a|
  {
    if a == [] {
      assert a + b == b;
    } else {
      assert (a + b)[0] == a[0];
      assert (a + b)[1..] == a[1..] + b;
      var e := a[0];
      HeldAfterAppend(a[1..], b, which, key,
        if e.JoystickEvent? && e.which == which && e.button == key then e.kind == JoystickPress else held);
    }
  }

  /** `button_action`: SDL button `button` is fire button `button + 1`;
      buttons past the supported ones are dropped. */
  function ButtonAction(which: int, button: Uint8, kind: EventType): (r: seq<Event>)
    ensures r == [] <==> button >= NumJoyButtons
    ensures |r| <= 1
    ensures forall e :: e in r ==> e.JoystickEvent? && e.which == which && e.kind == kind
  {
    if button >= NumJoyButtons then []
    else [JoystickEvent(kind, which, JoystickFire(1 + button))]
  }

  /** Every supported SDL button drives its own fire button, never a
      direction: pressing it holds that fire button and no other key. */
  lemma ButtonsDriveDistinctFire(which: int, button: Uint8, other: Uint8)
    requires button < NumJoyButtons && other < NumJoyButtons
    ensures HeldAfter(ButtonAction(which, button, JoystickPress), which, JoystickFire(1 + button), false)
    ensures !HeldAfter(ButtonAction(which, button, JoystickRelease), which, JoystickFire(1 + button), true)
    ensures other != button ==> !HeldAfter(ButtonAction(which, button, JoystickPress), which, JoystickFire(1 + other), false)
    ensures forall k :: k in {JoystickUp, JoystickDown, JoystickLeft, JoystickRight} ==>
              !HeldAfter(ButtonAction(which, button, JoystickPress), which, k, false)
  {
    assert ButtonAction(which, button, JoystickPress)[1..] == [];
    assert ButtonAction(which, button, JoystickRelease)[1..] == [];
  }

  /** `do_axis`: a deflection past the threshold presses that direction and
      releases the opposite one (negative direction first); a centred axis
      releases both unless it moved by no more than the flutter threshold
      since the last reading, when it sends nothing. */
  function DoAxis(which: int, value: Sint16, negative: InputKey, positive: InputKey, lastAxisValue: int): (r: seq<Event>)
    ensures |r| == 0 || |r| == 2
    ensures r == [] <==> -AxisThreshold <= value <= AxisThreshold && Abs(lastAxisValue - value) <= AxisFlutterThreshold
    ensures |r| == 2 ==> r[0].JoystickEvent? && r[0].which == which && r[0].button == negative
    ensures |r| == 2 ==> r[1].JoystickEvent? && r[1].which == which && r[1].button == positive
  {
    var kinds :=
      if value > AxisThreshold then [JoystickRelease, JoystickPress]
      else if value < -AxisThreshold then [JoystickPress, JoystickRelease]
      else if Abs(lastAxisValue - value) > AxisFlutterThreshold then [JoystickRelease, JoystickRelease]
      else [];
    if kinds == [] then []
    else [JoystickEvent(kinds[0], which, negative), JoystickEvent(kinds[1], which, positive)]
  }

  /** After `do_axis` the two directions are held as the axis says: the
      direction it is deflected towards is held and the other is not; a
      centred axis holds neither, unless it only fluttered, when both stay
      as they were. */
  lemma AxisHolds(which: int, value: Sint16, negative: InputKey, positive: InputKey, last: int, hn: bool, hp: bool)
    requires negative != positive
    ensures var r := DoAxis(which, value, negative, positive, last);
      && HeldAfter(r, which, negative, hn)
         == (if value < -AxisThreshold then true
             else if value > AxisThreshold || Abs(last - value) > AxisFlutterThreshold then false
             else hn)
      && HeldAfter(r, which, positive, hp)
         == (if value > AxisThreshold then true
             else if value < -AxisThreshold || Abs(last - value) > AxisFlutterThreshold then false
             else hp)
  {
    var r := DoAxis(which, value, negative, positive, last);
    if r != [] {
      assert r == [r[0]] + [r[1]];
      HeldAfterAppend([r[0]], [r[1]], which, negative, hn);
      HeldAfterAppend([r[0]], [r[1]], which, positive, hp);
      assert [r[0]][1..] == [] && [r[1]][1..] == [];
    }
  }

  /** `do_hat`: release the direction, then press it again if its bit is
      set. */
  function DoHat(which: int, value: bv8, mask: bv8, direction: InputKey): (r: seq<Event>)
    ensures 1 <= |r| <= 2 && r[0] == JoystickEvent(JoystickRelease, which, direction)
    ensures |r| == 2 <==> value & mask != 0
    ensures |r| == 2 ==> r[1] == JoystickEvent(JoystickPress, which, direction)
  {
    [JoystickEvent(JoystickRelease, which, direction)]
    + (if value & mask != 0 then [JoystickEvent(JoystickPress, which, direction)] else [])
  }

  /** `sdljoystick_hatmove`: hat 0 drives the four directions, in the order
      up, down, right, left; other hats are ignored. */
  function HatMove(which: int, hat: int, value: bv8): (r: seq<Event>)
    ensures hat != 0 ==> r == []
    ensures hat == 0 ==> 4 <= |r| <= 8
  {
    if hat != 0 then []
    else
      DoHat(which, value, HatUp, JoystickUp) + DoHat(which, value, HatDown, JoystickDown)
      + DoHat(which, value, HatRight, JoystickRight) + DoHat(which, value, HatLeft, JoystickLeft)
  }

  /** A hat direction's events leave every other key as it was. */
  lemma DoHatOthers(which: int, value: bv8, mask: bv8, direction: InputKey, key: InputKey, held: bool)
    requires key != direction
    ensures HeldAfter(DoHat(which, value, mask, direction), which, key, held) == held
  {
    var r := DoHat(which, value, mask, direction);
    assert HeldAfter(r, which, key, held) == HeldAfter(r[1..], which, key, held);
    if |r| == 2 {
      assert r[1..][0] == r[1] && r[1..][1..] == [];
      assert HeldAfter(r[1..], which, key, held) == HeldAfter([], which, key, held);
    } else {
      assert r[1..] == [];
    }
  }

  /** A hat direction's events hold it exactly when its bit is set. */
  lemma DoHatOwn(which: int, value: bv8, mask: bv8, direction: InputKey, held: bool)
    ensures HeldAfter(DoHat(which, value, mask, direction), which, direction, held) == (value & mask != 0)
  {
    var r := DoHat(which, value, mask, direction);
    assert HeldAfter(r, which, direction, held) == HeldAfter(r[1..], which, direction, false);
    if |r| == 2 {
      assert r[1..][0] == r[1] && r[1..][1..] == [];
      assert HeldAfter(r[1..], which, direction, false) == HeldAfter([], which, direction, true);
    } else {
      assert r[1..] == [];
    }
  }

  /** Handing over a batch in four parts is handing over each in turn. */
  lemma HeldAfterFour(a: seq<Event>, b: seq<Event>, c: seq<Event>, d: seq<Event>, which: int, key: InputKey, held: bool)
    ensures HeldAfter(a + b + c + d, which, key, held)
         == HeldAfter(d, which, key, HeldAfter(c, which, key, HeldAfter(b, which, key, HeldAfter(a, which, key, held))))
  {
    HeldAfterAppend(a + b + c, d, which, key, held);
    HeldAfterAppend(a + b, c, which, key, held);
    HeldAfterAppend(a, b, which, key, held);
  }

  /** After a move of hat 0 each of the four directions is held exactly
      when its bit is set, whatever was held before: the hat's position
      replaces the previous one. */
  lemma HatHolds(which: int, value: bv8, hu: bool, hd: bool, hr: bool, hl: bool)
    ensures HeldAfter(HatMove(which, 0, value), which, JoystickUp, hu) == (value & HatUp != 0)
    ensures HeldAfter(HatMove(which, 0, value), which, JoystickDown, hd) == (value & HatDown != 0)
    ensures HeldAfter(HatMove(which, 0, value), which, JoystickRight, hr) == (value & HatRight != 0)
    ensures HeldAfter(HatMove(which, 0, value), which, JoystickLeft, hl) == (value & HatLeft != 0)
  {
    var u := DoHat(which, value, HatUp, JoystickUp);
    var d := DoHat(which, value, HatDown, JoystickDown);
    var rt := DoHat(which, value, HatRight, JoystickRight);
    var l := DoHat(which, value, HatLeft, JoystickLeft);
    assert HatMove(which, 0, value) == u + d + rt + l;

    HeldAfterFour(u, d, rt, l, which, JoystickUp, hu);
    DoHatOwn(which, value, HatUp, JoystickUp, hu);
    var h := HeldAfter(u, which, JoystickUp, hu);
    DoHatOthers(which, value, HatDown, JoystickDown, JoystickUp, h);
    DoHatOthers(which, value, HatRight, JoystickRight, JoystickUp, h);
    DoHatOthers(which, value, HatLeft, JoystickLeft, JoystickUp, h);

    HeldAfterFour(u, d, rt, l, which, JoystickDown, hd);
    DoHatOthers(which, value, HatUp, JoystickUp, JoystickDown, hd);
    DoHatOwn(which, value, HatDown, JoystickDown, hd);
    h := HeldAfter(d, which, JoystickDown, hd);
    DoHatOthers(which, value, HatRight, JoystickRight, JoystickDown, h);
    DoHatOthers(which, value, HatLeft, JoystickLeft, JoystickDown, h);

    HeldAfterFour(u, d, rt, l, which, JoystickRight, hr);
    DoHatOthers(which, value, HatUp, JoystickUp, JoystickRight, hr);
    DoHatOthers(which, value, HatDown, JoystickDown, JoystickRight, hr);
    DoHatOwn(which, value, HatRight, JoystickRight, hr);
    DoHatOthers(which, value, HatLeft, JoystickLeft, JoystickRight, HeldAfter(rt, which, JoystickRight, hr));

    HeldAfterFour(u, d, rt, l, which, JoystickLeft, hl);
    DoHatOthers(which, value, HatUp, JoystickUp, JoystickLeft, hl);
    DoHatOthers(which, value, HatDown, JoystickDown, JoystickLeft, hl);
    DoHatOthers(which, value, HatRight, JoystickRight, JoystickLeft, hl);
    DoHatOwn(which, value, HatLeft, JoystickLeft, hl);
  }

  /** The buttons of the joystick events of `kind` in `r`, in order. */
  function Buttons(r: seq<Event>, kind: EventType): seq<InputKey>
    decreases |r|
  {
    if r == [] then []
    else (if r[0].JoystickEvent? && r[0].kind == kind then [r[0].button] else []) + Buttons(r[1..], kind)
  }

  lemma {:induction false} ButtonsAppend(a: seq<Event>, b: seq<Event>, kind: EventType)
    ensures Buttons(a + b, kind) == Buttons(a, kind) + Buttons(b, kind)
    decreases |a|
  {
    if a == [] {
      assert a + b == b;
    } else {
      assert (a + b)[0] == a[0];
      assert (a + b)[1..] == a[1..] + b;
      ButtonsAppend(a[1..], b, kind);
    }
  }

  /** Every press in `r` comes straight after the release of the same
      button. */
  predicate PressAfterRelease(r: seq<Event>, which: int) {
    forall i :: 0 <= i < |r| && r[i].JoystickEvent? && r[i].kind == JoystickPress ==>
      0 < i && r[i - 1] == JoystickEvent(JoystickRelease, which, r[i].button)
  }

  /** Joining two batches keeps every press after its release when the
      second batch opens with a release. */
  lemma PressAfterReleaseAppend(a: seq<Event>, b: seq<Event>, which: int)
    requires PressAfterRelease(a, which) && PressAfterRelease(b, which)
    requires b != [] ==> b[0].JoystickEvent? && b[0].kind == JoystickRelease
    ensures PressAfterRelease(a + b, which)
  {
    var ab := a + b;
    forall i | 0 <= i < |ab| && ab[i].JoystickEvent? && ab[i].kind == JoystickPress
      ensures 0 < i && ab[i - 1] == JoystickEvent(JoystickRelease, which, ab[i].button)
    {
      if i < |a| {
        assert ab[i] == a[i] && ab[i - 1] == a[i - 1];
      } else {
        var j := i - |a|;
        assert ab[i] == b[j];
        assert j > 0;
        assert ab[i - 1] == b[j - 1];
      }
    }
  }

  /** One direction's hat events release that direction once. */
  lemma DoHatReleases(which: int, value: bv8, mask: bv8, direction: InputKey)
    ensures Buttons(DoHat(which, value, mask, direction), JoystickRelease) == [direction]
  {
    var r := DoHat(which, value, mask, direction);
    if |r| == 2 {
      assert r[1..] == [r[1]] && r[1..][1..] == [];
      assert Buttons(r[1..], JoystickRelease) == [];
    } else {
      assert r[1..] == [];
    }
    assert Buttons(r, JoystickRelease) == [direction] + Buttons(r[1..], JoystickRelease);
  }

  /** One direction's hat events press that direction once if its bit is
      set, and not at all otherwise. */
  lemma DoHatPresses(which: int, value: bv8, mask: bv8, direction: InputKey)
    ensures Buttons(DoHat(which, value, mask, direction), JoystickPress)
         == if value & mask != 0 then [direction] else []
  {
    var r := DoHat(which, value, mask, direction);
    if |r| == 2 {
      assert r[1..] == [r[1]] && r[1..][1..] == [];
      assert Buttons(r[1..], JoystickPress) == [direction];
    } else {
      assert r[1..] == [];
    }
    assert Buttons(r, JoystickPress) == Buttons(r[1..], JoystickPress);
  }

  /** One direction's press, when there is one, comes straight after its
      release. */
  lemma DoHatPressAfterRelease(which: int, value: bv8, mask: bv8, direction: InputKey)
    ensures PressAfterRelease(DoHat(which, value, mask, direction), which)
  {
  }

  /** The keys of a batch made of four parts are those of each part, in
      order. */
  lemma ButtonsOfFour(a: seq<Event>, b: seq<Event>, c: seq<Event>, d: seq<Event>, kind: EventType)
    ensures Buttons(a + b + c + d, kind) == Buttons(a, kind) + Buttons(b, kind) + Buttons(c, kind) + Buttons(d, kind)
  {
    ButtonsAppend(a, b, kind);
    ButtonsAppend(a + b, c, kind);
    ButtonsAppend(a + b + c, d, kind);
  }

  /** A move of hat 0 releases UP, DOWN, RIGHT and LEFT in that order. */
  lemma HatReleaseOrder(which: int, value: bv8)
    ensures Buttons(HatMove(which, 0, value), JoystickRelease)
         == [JoystickUp, JoystickDown, JoystickRight, JoystickLeft]
  {
    var u := DoHat(which, value, HatUp, JoystickUp);
    var d := DoHat(which, value, HatDown, JoystickDown);
    var rt := DoHat(which, value, HatRight, JoystickRight);
    var l := DoHat(which, value, HatLeft, JoystickLeft);
    assert HatMove(which, 0, value) == u + d + rt + l;
    ButtonsOfFour(u, d, rt, l, JoystickRelease);
    DoHatReleases(which, value, HatUp, JoystickUp);
    DoHatReleases(which, value, HatDown, JoystickDown);
    DoHatReleases(which, value, HatRight, JoystickRight);
    DoHatReleases(which, value, HatLeft, JoystickLeft);
    assert [JoystickUp] + [JoystickDown] + [JoystickRight] + [JoystickLeft]
        == [JoystickUp, JoystickDown, JoystickRight, JoystickLeft];
  }

  /** A move of hat 0 presses the directions whose bits are set, in the
      order UP, DOWN, RIGHT, LEFT. */
  lemma HatPressOrder(which: int, value: bv8)
    ensures Buttons(HatMove(which, 0, value), JoystickPress)
         == (if value & HatUp != 0 then [JoystickUp] else [])
          + (if value & HatDown != 0 then [JoystickDown] else [])
          + (if value & HatRight != 0 then [JoystickRight] else [])
          + (if value & HatLeft != 0 then [JoystickLeft] else [])
  {
    var u := DoHat(which, value, HatUp, JoystickUp);
    var d := DoHat(which, value, HatDown, JoystickDown);
    var rt := DoHat(which, value, HatRight, JoystickRight);
    var l := DoHat(which, value, HatLeft, JoystickLeft);
    assert HatMove(which, 0, value) == u + d + rt + l;
    ButtonsOfFour(u, d, rt, l, JoystickPress);
    DoHatPresses(which, value, HatUp, JoystickUp);
    DoHatPresses(which, value, HatDown, JoystickDown);
    DoHatPresses(which, value, HatRight, JoystickRight);
    DoHatPresses(which, value, HatLeft, JoystickLeft);
  }

  /** A move of hat 0 sends every press straight after the release of its
      direction. */
  lemma HatPressAfterRelease(which: int, value: bv8)
    ensures PressAfterRelease(HatMove(which, 0, value), which)
  {
    var u := DoHat(which, value, HatUp, JoystickUp);
    var d := DoHat(which, value, HatDown, JoystickDown);
    var rt := DoHat(which, value, HatRight, JoystickRight);
    var l := DoHat(which, value, HatLeft, JoystickLeft);
    assert HatMove(which, 0, value) == u + d + rt + l;
    DoHatPressAfterRelease(which, value, HatUp, JoystickUp);
    DoHatPressAfterRelease(which, value, HatDown, JoystickDown);
    DoHatPressAfterRelease(which, value, HatRight, JoystickRight);
    DoHatPressAfterRelease(which, value, HatLeft, JoystickLeft);
    PressAfterReleaseAppend(u, d, which);
    PressAfterReleaseAppend(u + d, rt, which);
    PressAfterReleaseAppend(u + d + rt, l, which);
  }

  /** The last value seen on axes 0 and 1, kept across calls and shared by
      both joysticks. */
  class AxisMemory {
    var lastAxis0Value: int
    var lastAxis1Value: int

    constructor ()
      ensures lastAxis0Value == 0 && lastAxis1Value == 0
    {
      lastAxis0Value := 0;
      lastAxis1Value := 0;
    }

    /** `sdljoystick_axismove`: axis 0 is left/right, axis 1 up/down, each
        judged against its own last value, which the new value then
        replaces; other axes are ignored. */
    method AxisMove(which: int, axis: int, value: Sint16) returns (events: seq<Event>)
      modifies this
      ensures axis == 0 ==> events == DoAxis(which, value, JoystickLeft, JoystickRight, old(lastAxis0Value))
                            && lastAxis0Value == value && lastAxis1Value == old(lastAxis1Value)
      ensures axis == 1 ==> events == DoAxis(which, value, JoystickUp, JoystickDown, old(lastAxis1Value))
                            && lastAxis1Value == value && lastAxis0Value == old(lastAxis0Value)
      ensures axis != 0 && axis != 1 ==> events == [] && unchanged(this)
    {
      if axis == 0 {
        events := DoAxis(which, value, JoystickLeft, JoystickRight, lastAxis0Value);
        lastAxis0Value := value;
      } else if axis == 1 {
        events := DoAxis(which, value, JoystickUp, JoystickDown, lastAxis1Value);
        lastAxis1Value := value;
      } else {
        events := [];
      }
    }
  }

  /** The events a run of readings on one axis sends: what successive
      `AxisMove` calls for that axis return, in order, each reading judged
      against the one before it (`last` for the first). */
  function AxisRun(which: int, values: seq<Sint16>, negative: InputKey, positive: InputKey, last: int): (r: seq<Event>)
    ensures |r| <= 2 * |values|
    decreases |values|
  {
    if values == [] then []
    else DoAxis(which, values[0], negative, positive, last) + AxisRun(which, values[1..], negative, positive, values[0])
  }

  /** Every reading is centred and each is within the flutter threshold
      of the one before it (`last` for the first). */
  predicate SlowDrift(values: seq<Sint16>, last: int) {
    && (forall i :: 0 <= i < |values| ==> -AxisThreshold <= values[i] <= AxisThreshold)
    && (|values| > 0 ==> Abs(last - values[0]) <= AxisFlutterThreshold)
    && (forall i :: 0 <= i < |values| - 1 ==> Abs(values[i] as int - values[i + 1]) <= AxisFlutterThreshold)
  }

  lemma SlowDriftStep(values: seq<Sint16>, last: int)
    requires values != []
    ensures SlowDrift(values, last)
        <==> && -AxisThreshold <= values[0] <= AxisThreshold
             && Abs(last - values[0]) <= AxisFlutterThreshold
             && SlowDrift(values[1..], values[0])
  {
    var tail := values[1..];
    if SlowDrift(tail, values[0]) && -AxisThreshold <= values[0] <= AxisThreshold {
      forall i | 0 <= i < |values| - 1
        ensures Abs(values[i] as int - values[i + 1]) <= AxisFlutterThreshold
      {
        if i > 0 {
          assert values[i] == tail[i - 1] && values[i + 1] == tail[i];
        }
      }
      forall i | 0 < i < |values|
        ensures -AxisThreshold <= values[i] <= AxisThreshold
      {
        assert values[i] == tail[i - 1];
      }
    }
  }

  /** A run of readings on one axis sends nothing exactly when it drifts
      slowly: an axis wandering, however far in total, in steps no bigger
      than the flutter threshold and never past the deflection threshold,
      never releases anything. */
  lemma {:induction false} DriftIgnored(which: int, values: seq<Sint16>, negative: InputKey, positive: InputKey, last: int)
    ensures AxisRun(which, values, negative, positive, last) == [] <==> SlowDrift(values, last)
    decreases |values|
  {
    if values != [] {
      DriftIgnored(which, values[1..], negative, positive, values[0]);
      SlowDriftStep(values, last);
    }
  }
}
