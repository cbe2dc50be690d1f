/** The Hermit Retro controller: eight buttons behind an MCP23008 I2C port
    expander. Each accepted poll reads the expander's GPIO register and turns
    every set bit into a joystick press, lowest bit first. The register byte
    is an input; reading it over I2C is not part of this model. */
module HermitController {
  import opened Input
  import opened GpioCommon
  import opened EventTranslator
  import HermitZxZero

  /** The register bit tested by check b. */
  function BitMask(b: nat): (m: bv8)
    requires b < 8
  {
    match b
    case 0 => 0x01
    case 1 => 0x02
    case 2 => 0x04
    case 3 => 0x08
    case 4 => 0x10
    case 5 => 0x20
    case 6 => 0x40
    case _ => 0x80
  }

  /** The joystick button of register bit b. */
  function BitKey(b: nat): (k: InputKey)
    requires b < 8
    ensures k.Joystick? && 0 <= k.offset < 8
    ensures b < 4 <==> k in {JoystickLeft, JoystickRight, JoystickUp, JoystickDown}
  {
    match b
    case 0 => JoystickLeft
    case 1 => JoystickRight
    case 2 => JoystickUp
    case 3 => JoystickDown
    case 4 => JoystickFire(3)
    case 5 => JoystickFire(4)
    case 6 => JoystickFire(1)
    case _ => JoystickFire(2)
  }

  /** The masks are the eight single bits of the byte, in ascending order,
      and the eight bits name eight different buttons. */
  lemma BitLayout()
    ensures forall b :: 0 <= b < 8 ==> BitMask(b) == 1 << b
    ensures forall b, c :: 0 <= b < 8 && 0 <= c < 8 && b != c ==> BitKey(b) != BitKey(c)
  {
  }

  /** The press a set bit produces; `which` is whatever the event record
      held, since the poll never sets it. */
  function BitPress(which: int, b: nat): Event
    requires b < 8
  {
    JoystickEvent(JoystickPress, which, BitKey(b))
  }

  /** What check b emits for register value `reg`. */
  function BitEvents(reg: bv8, which: int, b: nat): seq<Event>
    requires b < 8
  {
    if reg & BitMask(b) == BitMask(b) then [BitPress(which, b)] else []
  }

  /** The events of the first n bit checks. */
  function ChecksEvents(reg: bv8, which: int, n: nat): (r: seq<Event>)
    requires n <= 8
    ensures |r| <= n
  {
    if n == 0 then [] else ChecksEvents(reg, which, n - 1) + BitEvents(reg, which, n - 1)
  }

  /** The events of one accepted poll. */
  function ControllerEvents(reg: bv8, which: int): (r: seq<Event>)
    ensures |r| <= 8
  {
    ChecksEvents(reg, which, 8)
  }

  /** The number of set bits, counted the branch-free way (pairs, then
      nibbles, then the byte). */
  function PopCount(x: bv8): (n: nat)
    ensures n <= 8
  {
    var pairs := x - ((x >> 1) & 0x55);
    var nibbles := (pairs & 0x33) + ((pairs >> 2) & 0x33);
    ((nibbles + (nibbles >> 4)) & 0x0F) as nat
  }

  /** The first n checks written out one by one. */
  lemma ChecksUnrolled(reg: bv8, which: int)
    ensures ControllerEvents(reg, which)
         == BitEvents(reg, which, 0) + BitEvents(reg, which, 1) + BitEvents(reg, which, 2) + BitEvents(reg, which, 3)
          + BitEvents(reg, which, 4) + BitEvents(reg, which, 5) + BitEvents(reg, which, 6) + BitEvents(reg, which, 7)
  {
    assert ChecksEvents(reg, which, 1) == BitEvents(reg, which, 0);
    assert ChecksEvents(reg, which, 2) == ChecksEvents(reg, which, 1) + BitEvents(reg, which, 1);
    assert ChecksEvents(reg, which, 3) == ChecksEvents(reg, which, 2) + BitEvents(reg, which, 2);
    assert ChecksEvents(reg, which, 4) == ChecksEvents(reg, which, 3) + BitEvents(reg, which, 3);
    assert ChecksEvents(reg, which, 5) == ChecksEvents(reg, which, 4) + BitEvents(reg, which, 4);
    assert ChecksEvents(reg, which, 6) == ChecksEvents(reg, which, 5) + BitEvents(reg, which, 5);
    assert ChecksEvents(reg, which, 7) == ChecksEvents(reg, which, 6) + BitEvents(reg, which, 6);
  }

  /** One press per set bit: the poll emits as many events as the register
      has bits set. */
  lemma EventCountIsPopCount(reg: bv8, which: int)
    ensures |ControllerEvents(reg, which)| == PopCount(reg)
  {
    ChecksUnrolled(reg, which);
    PopCountCountsBits(reg);
    assert |BitEvents(reg, which, 0)| == if reg & 0x01 == 0x01 then 1 else 0;
    assert |BitEvents(reg, which, 1)| == if reg & 0x02 == 0x02 then 1 else 0;
    assert |BitEvents(reg, which, 2)| == if reg & 0x04 == 0x04 then 1 else 0;
    assert |BitEvents(reg, which, 3)| == if reg & 0x08 == 0x08 then 1 else 0;
    assert |BitEvents(reg, which, 4)| == if reg & 0x10 == 0x10 then 1 else 0;
    assert |BitEvents(reg, which, 5)| == if reg & 0x20 == 0x20 then 1 else 0;
    assert |BitEvents(reg, which, 6)| == if reg & 0x40 == 0x40 then 1 else 0;
    assert |BitEvents(reg, which, 7)| == if reg & 0x80 == 0x80 then 1 else 0;
  }

  /** The branch-free count is the number of bits that test set. */
  lemma PopCountCountsBits(x: bv8)
    ensures PopCount(x)
         == (if x & 0x01 == 0x01 then 1 else 0) + (if x & 0x02 == 0x02 then 1 else 0)
          + (if x & 0x04 == 0x04 then 1 else 0) + (if x & 0x08 == 0x08 then 1 else 0)
          + (if x & 0x10 == 0x10 then 1 else 0) + (if x & 0x20 == 0x20 then 1 else 0)
          + (if x & 0x40 == 0x40 then 1 else 0) + (if x & 0x80 == 0x80 then 1 else 0)
  {
  }

  /** Every event is a joystick press of `which`; no release is ever sent. */
  lemma {:induction false} OnlyPresses(reg: bv8, which: int, n: nat)
    requires n <= 8
    ensures forall e :: e in ChecksEvents(reg, which, n) ==>
              e.JoystickEvent? && e.kind == JoystickPress && e.which == which
  {
    if n > 0 {
      OnlyPresses(reg, which, n - 1);
    }
  }

  /** A button is pressed exactly when its bit is set. */
  lemma PressIffBit(reg: bv8, which: int, b: nat)
    requires b < 8
    ensures BitPress(which, b) in ControllerEvents(reg, which) <==> reg & BitMask(b) == BitMask(b)
  {
    InChecks(reg, which, 8, BitPress(which, b));
    if BitPress(which, b) in ControllerEvents(reg, which) {
      var j :| 0 <= j < 8 && BitPress(which, b) in BitEvents(reg, which, j);
      BitLayout();
    }
    if reg & BitMask(b) == BitMask(b) {
      assert BitPress(which, b) in BitEvents(reg, which, b);
    }
  }

  /** An event is among the first n checks exactly when one of them emits it. */
  lemma {:induction false} InChecks(reg: bv8, which: int, n: nat, e: Event)
    requires n <= 8
    ensures e in ChecksEvents(reg, which, n) <==> exists j :: 0 <= j < n && e in BitEvents(reg, which, j)
  {
    if n > 0 {
      InChecks(reg, which, n - 1, e);
      if e in BitEvents(reg, which, n - 1) {
        assert e in ChecksEvents(reg, which, n);
      }
    }
  }

  /** The bits below bit k. */
  function LowBits(k: nat): bv8
    requires k <= 8
  {
    match k
    case 0 => 0x00
    case 1 => 0x01
    case 2 => 0x03
    case 3 => 0x07
    case 4 => 0x0F
    case 5 => 0x1F
    case 6 => 0x3F
    case 7 => 0x7F
    case _ => 0xFF
  }

  /** Ascending bit order: when every set bit of `lo` is below bit k and
      every set bit of `hi` is at k or above, the events of both together
      are those of `lo` followed by those of `hi`. */
  lemma AscendingOrder(lo: bv8, hi: bv8, which: int, k: nat)
    requires k <= 8
    requires lo & LowBits(k) == lo && hi & LowBits(k) == 0
    ensures ControllerEvents(lo | hi, which) == ControllerEvents(lo, which) + ControllerEvents(hi, which)
  {
    SplitChecksLow(lo, hi, which, k, k);
    forall b | k <= b < 8
      ensures BitEvents(lo | hi, which, b) == BitEvents(hi, which, b)
    {
      BitOfUnion(lo, hi, which, k, b);
    }
    SplitChecks(lo | hi, lo, hi, which, k, 8);
    LowChecksOnly(lo, which, k, 8);
  }

  /** The checks from n on add nothing once the register has no set bit
      at or above n. */
  lemma {:induction false} LowChecksOnly(reg: bv8, which: int, k: nat, n: nat)
    requires k <= n <= 8
    requires reg & LowBits(k) == reg
    ensures ChecksEvents(reg, which, n) == ChecksEvents(reg, which, k)
  {
    if n > k {
      LowChecksOnly(reg, which, k, n - 1);
      assert BitMask(n - 1) != 0;
    }
  }

  /** Check b of `lo | hi` emits what check b of the part owning bit b
      emits; the other part emits nothing there. */
  lemma BitOfUnion(lo: bv8, hi: bv8, which: int, k: nat, b: nat)
    requires k <= 8 && b < 8
    requires lo & LowBits(k) == lo && hi & LowBits(k) == 0
    ensures b < k ==> BitEvents(lo | hi, which, b) == BitEvents(lo, which, b) && BitEvents(hi, which, b) == []
    ensures b >= k ==> BitEvents(lo | hi, which, b) == BitEvents(hi, which, b) && BitEvents(lo, which, b) == []
  {
    if b < k {
      assert hi & BitMask(b) == 0;
      assert (lo | hi) & BitMask(b) == lo & BitMask(b);
    } else {
      assert lo & BitMask(b) == 0;
      assert (lo | hi) & BitMask(b) == hi & BitMask(b);
    }
  }

  /** Below bit k the checks of `lo | hi` are those of `lo`, and `hi`
      emits nothing there. */
  lemma {:induction false} SplitChecksLow(lo: bv8, hi: bv8, which: int, k: nat, n: nat)
    requires n <= k <= 8
    requires lo & LowBits(k) == lo && hi & LowBits(k) == 0
    ensures ChecksEvents(lo | hi, which, n) == ChecksEvents(lo, which, n)
    ensures ChecksEvents(hi, which, n) == []
  {
    if n > 0 {
      SplitChecksLow(lo, hi, which, k, n - 1);
      BitOfUnion(lo, hi, which, k, n - 1);
    }
  }

  /** From bit k on, the checks of the union `u` of `lo` and `hi` are all
      of `lo`'s followed by those of `hi`, given that up to k they are
      `lo`'s alone and from k on each is `hi`'s. */
  lemma {:induction false} SplitChecks(u: bv8, lo: bv8, hi: bv8, which: int, k: nat, n: nat)
    requires k <= n <= 8
    requires ChecksEvents(u, which, k) == ChecksEvents(lo, which, k) && ChecksEvents(hi, which, k) == []
    requires forall b :: k <= b < 8 ==> BitEvents(u, which, b) == BitEvents(hi, which, b)
    ensures ChecksEvents(u, which, n) == ChecksEvents(lo, which, k) + ChecksEvents(hi, which, n)
  {
    if n > k {
      SplitChecks(u, lo, hi, which, k, n - 1);
      assert BitEvents(u, which, n - 1) == BitEvents(hi, which, n - 1);
      assert ChecksEvents(lo, which, k) + ChecksEvents(hi, which, n - 1) + BitEvents(hi, which, n - 1)
          == ChecksEvents(lo, which, k) + (ChecksEvents(hi, which, n - 1) + BitEvents(hi, which, n - 1));
    }
  }

  /** An accepted poll refreshes the debounce timestamp exactly when some
      bit is set; a zero byte leaves it alone. */
  lemma StampsIffNonZero(reg: bv8, which: int, stamp: U64, now: U64)
    ensures StampAfter(ControllerEvents(reg, which), stamp, now) == if reg != 0 then now else stamp
  {
    var r := ControllerEvents(reg, which);
    EventCountIsPopCount(reg, which);
    OnlyPresses(reg, which, 8);
    assert reg == 0 <==> PopCount(reg) == 0;
    if reg != 0 {
      assert r[0] in r;
    }
  }

  /** Check b of `hermitretro_controller_poll`, as a step of the poll. */
  method CheckBit(b: nat, reg: bv8, which: int, timer: DebounceTimer, sink: EventQueue, now: U64,
                  ghost log0: seq<Dispatch>, ghost stamp0: U64)
    requires b < 8
    requires sink.log == log0 + Dispatched(ChecksEvents(reg, which, b), stamp0, now)
    requires timer.lastEventTime == StampAfter(ChecksEvents(reg, which, b), stamp0, now)
    modifies timer, sink
    ensures sink.log == log0 + Dispatched(ChecksEvents(reg, which, b + 1), stamp0, now)
    ensures timer.lastEventTime == StampAfter(ChecksEvents(reg, which, b + 1), stamp0, now)
  {
    ghost var done := ChecksEvents(reg, which, b);
    ghost var bit := BitEvents(reg, which, b);
    ghost var logBefore := sink.log;
    DispatchedAppend(done, bit, stamp0, now);
    DispatchedSingle(BitPress(which, b), timer.lastEventTime, now);
    if reg & BitMask(b) == BitMask(b) {
      timer.UpdateLastEventTime(now);
      sink.InputEvent(JoystickEvent(JoystickPress, which, BitKey(b)), timer);
    } else {
      assert done + bit == done;
    }
    assert sink.log == logBefore + Dispatched(bit, StampAfter(done, stamp0, now), now);
    assert sink.log == log0 + (Dispatched(done, stamp0, now) + Dispatched(bit, StampAfter(done, stamp0, now), now));
  }

  /** `hermitretro_controller_poll`: nothing if the ZX Zero menu debounce
      interval (250 ms) has not passed; otherwise one press per set bit of the register byte,
      LEFT, RIGHT, UP, DOWN, FIRE 3, FIRE 4, FIRE 1, FIRE 2 in bit order,
      each after a timestamp refresh. */
  method Poll(reg: bv8, which: int, timer: DebounceTimer, sink: EventQueue, now: U64)
    modifies timer, sink
    ensures Discards(old(timer.lastEventTime), now, HermitZxZero.MenuDebounceMs) ==> unchanged(timer) && unchanged(sink)
    ensures !Discards(old(timer.lastEventTime), now, HermitZxZero.MenuDebounceMs) ==>
              && sink.log == old(sink.log) + Dispatched(ControllerEvents(reg, which), old(timer.lastEventTime), now)
              && timer.lastEventTime == StampAfter(ControllerEvents(reg, which), old(timer.lastEventTime), now)
  {
    if timer.DebounceEvent(HermitZxZero.MenuDebounceMs, now) {
      return;
    }
    ghost var log0 := sink.log;
    ghost var stamp0 := timer.lastEventTime;
    assert sink.log == log0 + Dispatched([], stamp0, now);
    CheckBit(0, reg, which, timer, sink, now, log0, stamp0);  // 0x01 LEFT
    CheckBit(1, reg, which, timer, sink, now, log0, stamp0);  // 0x02 RIGHT
    CheckBit(2, reg, which, timer, sink, now, log0, stamp0);  // 0x04 UP
    CheckBit(3, reg, which, timer, sink, now, log0, stamp0);  // 0x08 DOWN
    CheckBit(4, reg, which, timer, sink, now, log0, stamp0);  // 0x10 FIRE 3
    CheckBit(5, reg, which, timer, sink, now, log0, stamp0);  // 0x20 FIRE 4
    CheckBit(6, reg, which, timer, sink, now, log0, stamp0);  // 0x40 FIRE 1
    CheckBit(7, reg, which, timer, sink, now, log0, stamp0);  // 0x80 FIRE 2
  }
}
