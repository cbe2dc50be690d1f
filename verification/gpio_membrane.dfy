/** The ZX Spectrum membrane keyboard wired to GPIO: an 8 x 5 matrix of row
    and column lines, scanned by driving one row at a time and sampling the
    columns. The pin reads of one poll are an input, `low[Cell(r, c)]` being true
    when column `c` read LOW while row `r` was driven; the driver keeps a
    `keysPressed` table so that a release is sent only for a key it had
    pressed. */
module GpioMembrane {
  import opened Input
  import opened GpioCommon
  import opened EventTranslator

  const NumRows := 8
  const NumCols := 5
  const NumCells := 40

  const ShiftRow := 5
  const ShiftCol := 4
  const SymbolShiftRow := 7
  const SymbolShiftCol := 3

  /** Row-major position of cell (r, c). */
  function Cell(r: nat, c: nat): (k: nat)
    requires r < NumRows && c < NumCols
    ensures k < NumCells && k == 5 * r + c
  {
    5 * r + c  // NumCols == 5, written as a literal to keep the arithmetic linear
  }

  const ShiftCell := Cell(ShiftRow, ShiftCol)
  const SymbolShiftCell := Cell(SymbolShiftRow, SymbolShiftCol)

  predicate IsModifierCell(k: nat) {
    k == ShiftCell || k == SymbolShiftCell
  }

  /** `keyMap`, indexed by row-major cell position; each line below is one
      row of the matrix. */
  function KeyMap(k: nat): (key: InputKey)
    requires k < NumCells
  {
    match k
    case 0 => Char('5')  case 1 => Char('4')  case 2 => Char('3')  case 3 => Char('2')  case 4 => Char('1')
    case 5 => Char('t')  case 6 => Char('r')  case 7 => Char('e')  case 8 => Char('w')  case 9 => Char('q')
    case 10 => Char('g') case 11 => Char('f') case 12 => Char('d') case 13 => Char('s') case 14 => Char('a')
    case 15 => Char('6') case 16 => Char('7') case 17 => Char('8') case 18 => Char('9') case 19 => Char('0')
    case 20 => Char('y') case 21 => Char('u') case 22 => Char('i') case 23 => Char('o') case 24 => Char('p')
    case 25 => Char('v') case 26 => Char('c') case 27 => Char('x') case 28 => Char('z') case 29 => ShiftL
    case 30 => Char('h') case 31 => Char('j') case 32 => Char('k') case 33 => Char('l') case 34 => Return
    case 35 => Char('b') case 36 => Char('n') case 37 => Char('m') case 38 => ControlR case _ => Space
  }

  /** Each key sits in exactly one cell, and the two modifier cells hold
      Shift_L and Control_R. */
  lemma KeyMapInjective()
    ensures forall i, j :: 0 <= i < NumCells && 0 <= j < NumCells && KeyMap(i) == KeyMap(j) ==> i == j
    ensures KeyMap(ShiftCell) == ShiftL && KeyMap(SymbolShiftCell) == ControlR
  {
  }

  /** The keyboard sends keyboard keys only: no cell holds a joystick
      button or one of the menu keys (Escape, F1). */
  lemma KeyMapKeyboardOnly(k: nat)
    requires k < NumCells
    ensures !KeyMap(k).Joystick? && KeyMap(k) != Escape && KeyMap(k) != F1
  {
  }

  /** A modifier cell emits a press when it reads LOW and a release
      otherwise, whatever the table says. */
  function ModifierEvent(low: seq<bool>, k: nat): (e: Event)
    requires |low| == NumCells && IsModifierCell(k)
    ensures e == (if low[k] then Press(KeyMap(k)) else Release(KeyMap(k)))
  {
    if low[k] then Press(KeyMap(k)) else Release(KeyMap(k))
  }

  /** What the sweep emits for cell k: nothing for a modifier cell, otherwise
      the press/release convention. */
  function CellEvents(was: seq<bool>, low: seq<bool>, k: nat): seq<Event>
    requires |was| == |low| == NumCells && k < NumCells
  {
    if IsModifierCell(k) then []
    else Transition(low[k], was[k], Press(KeyMap(k)), Release(KeyMap(k)))
  }

  /** The events of the row-major sweep over the first n cells. */
  function SweepEvents(was: seq<bool>, low: seq<bool>, n: nat): (r: seq<Event>)
    requires |was| == |low| == NumCells && n <= NumCells
    ensures |r| <= n
  {
    if n == 0 then [] else SweepEvents(was, low, n - 1) + CellEvents(was, low, n - 1)
  }

  /** The events of one accepted poll, in order: shift, symbol shift, then
      the sweep over rows 0..7 and columns 0..4. */
  function ScanEvents(was: seq<bool>, low: seq<bool>): (r: seq<Event>)
    requires |was| == |low| == NumCells
    ensures |r| >= 2
    ensures r[0] == (if low[ShiftCell] then Press(ShiftL) else Release(ShiftL))
    ensures r[1] == (if low[SymbolShiftCell] then Press(ControlR) else Release(ControlR))
  {
    KeyMapInjective();
    [ModifierEvent(low, ShiftCell), ModifierEvent(low, SymbolShiftCell)] + SweepEvents(was, low, NumCells)
  }

  /** An event is in the sweep over the first n cells exactly when one of
      those cells emits it. */
  lemma {:induction false} InSweep(was: seq<bool>, low: seq<bool>, n: nat, e: Event)
    requires |was| == |low| == NumCells && n <= NumCells
    ensures e in SweepEvents(was, low, n) <==> exists k :: 0 <= k < n && e in CellEvents(was, low, k)
  {
    if n > 0 {
      InSweep(was, low, n - 1, e);
      var before, cell := SweepEvents(was, low, n - 1), CellEvents(was, low, n - 1);
      assert SweepEvents(was, low, n) == before + cell;
      if e in before {
        var k :| 0 <= k < n - 1 && e in CellEvents(was, low, k);
        assert 0 <= k < n && e in CellEvents(was, low, k);
      } else if e in cell {
        assert 0 <= n - 1 < n && e in CellEvents(was, low, n - 1);
      } else {
        assert e !in SweepEvents(was, low, n);
        forall k | 0 <= k < n
          ensures e !in CellEvents(was, low, k)
        {
          if k < n - 1 {
            assert !(0 <= k < n - 1 && e in CellEvents(was, low, k));
          }
        }
      }
    }
  }

  /** One more cell of the sweep: the record grows by that cell's events,
      dispatched from the timestamp the earlier cells left. */
  lemma SweepStep(was: seq<bool>, low: seq<bool>, k: nat, stamp0: U64, now: U64)
    requires |was| == |low| == NumCells && k < NumCells
    ensures Dispatched(SweepEvents(was, low, k + 1), stamp0, now)
         == Dispatched(SweepEvents(was, low, k), stamp0, now)
          + Dispatched(CellEvents(was, low, k), StampAfter(SweepEvents(was, low, k), stamp0, now), now)
    ensures StampAfter(SweepEvents(was, low, k + 1), stamp0, now)
         == StampAfter(CellEvents(was, low, k), StampAfter(SweepEvents(was, low, k), stamp0, now), now)
  {
    assert SweepEvents(was, low, k + 1) == SweepEvents(was, low, k) + CellEvents(was, low, k);
    DispatchedAppend(SweepEvents(was, low, k), CellEvents(was, low, k), stamp0, now);
  }

  /** The sweep presses a key exactly when its cell reads LOW, and releases
      it exactly when its cell does not read LOW but the table had it
      pressed; the two modifier keys never appear in the sweep. */
  lemma SweepKey(was: seq<bool>, low: seq<bool>, k: nat)
    requires |was| == |low| == NumCells && k < NumCells
    ensures Press(KeyMap(k)) in SweepEvents(was, low, NumCells) <==> !IsModifierCell(k) && low[k]
    ensures Release(KeyMap(k)) in SweepEvents(was, low, NumCells) <==> !IsModifierCell(k) && !low[k] && was[k]
  {
    KeyMapInjective();
    InSweep(was, low, NumCells, Press(KeyMap(k)));
    InSweep(was, low, NumCells, Release(KeyMap(k)));
    if Press(KeyMap(k)) in SweepEvents(was, low, NumCells) {
      var j :| 0 <= j < NumCells && Press(KeyMap(k)) in CellEvents(was, low, j);
      assert KeyMap(j) == KeyMap(k);
    }
    if Release(KeyMap(k)) in SweepEvents(was, low, NumCells) {
      var j :| 0 <= j < NumCells && Release(KeyMap(k)) in CellEvents(was, low, j);
      assert KeyMap(j) == KeyMap(k);
    }
    if !IsModifierCell(k) {
      assert Transition(low[k], was[k], Press(KeyMap(k)), Release(KeyMap(k))) == CellEvents(was, low, k);
    }
  }

  /** Shift and symbol shift are reported only by the two checks ahead of the
      sweep: a press when the cell reads LOW and a release otherwise, on
      every accepted poll. */
  lemma ModifiersFirst(was: seq<bool>, low: seq<bool>)
    requires |was| == |low| == NumCells
    ensures Press(ShiftL) !in SweepEvents(was, low, NumCells) && Release(ShiftL) !in SweepEvents(was, low, NumCells)
    ensures Press(ControlR) !in SweepEvents(was, low, NumCells) && Release(ControlR) !in SweepEvents(was, low, NumCells)
    ensures ScanEvents(was, low)[..2]
         == [if low[ShiftCell] then Press(ShiftL) else Release(ShiftL),
             if low[SymbolShiftCell] then Press(ControlR) else Release(ControlR)]
  {
    KeyMapInjective();
    SweepKey(was, low, ShiftCell);
    SweepKey(was, low, SymbolShiftCell);
  }

  /** Reads that match the table produce no release: a held key is pressed
      again on every accepted poll, and nothing else is reported by the
      sweep. */
  lemma SteadyReads(low: seq<bool>, k: nat)
    requires |low| == NumCells && k < NumCells
    ensures Release(KeyMap(k)) !in SweepEvents(low, low, NumCells)
    ensures Press(KeyMap(k)) in SweepEvents(low, low, NumCells) <==> !IsModifierCell(k) && low[k]
  {
    SweepKey(low, low, k);
  }

  /** With no cell LOW and nothing in the table, the sweep is silent. */
  lemma {:induction false} QuietSweep(was: seq<bool>, low: seq<bool>, n: nat)
    requires |was| == |low| == NumCells && n <= NumCells
    requires forall k :: 0 <= k < NumCells ==> !low[k] && !was[k]
    ensures SweepEvents(was, low, n) == []
  {
    if n > 0 {
      QuietSweep(was, low, n - 1);
    }
  }

  /** An idle keyboard still reports both modifiers as released on every
      accepted poll, and nothing else. */
  lemma IdlePoll(was: seq<bool>, low: seq<bool>)
    requires |was| == |low| == NumCells
    requires forall k :: 0 <= k < NumCells ==> !low[k] && !was[k]
    ensures ScanEvents(was, low) == [Release(ShiftL), Release(ControlR)]
  {
    QuietSweep(was, low, NumCells);
  }

  /** An accepted poll refreshes the debounce timestamp exactly when some
      cell of the matrix reads LOW. */
  lemma {:induction false} PollStampsIffKeyDown(was: seq<bool>, low: seq<bool>)
    requires |was| == |low| == NumCells
    ensures HasPress(ScanEvents(was, low)) <==> exists k :: 0 <= k < NumCells && low[k]
  {
    var r := ScanEvents(was, low);
    var sweep := SweepEvents(was, low, NumCells);
    assert r == [r[0], r[1]] + sweep;
    if exists k :: 0 <= k < NumCells && low[k] {
      var k :| 0 <= k < NumCells && low[k];
      if IsModifierCell(k) {
        assert r[0].IsPress() || r[1].IsPress();
      } else {
        SweepKey(was, low, k);
        var i :| 0 <= i < |sweep| && sweep[i] == Press(KeyMap(k));
        assert r[2 + i].IsPress();
      }
    }
    if HasPress(r) {
      var i :| 0 <= i < |r| && r[i].IsPress();
      if i >= 2 {
        var e := sweep[i - 2];
        InSweep(was, low, NumCells, e);
        var k :| 0 <= k < NumCells && e in CellEvents(was, low, k);
        assert low[k];
      } else if i == 0 {
        assert low[ShiftCell];
      } else {
        assert low[SymbolShiftCell];
      }
    }
  }

  /** Row and column are recovered from a cell's position. */
  lemma CellRowCol()
    ensures forall r, c :: 0 <= r < NumRows && 0 <= c < NumCols ==>
      Cell(r, c) / NumCols == r && Cell(r, c) % NumCols == c
  {
  }

  /** The table read as a row-major sequence. */
  ghost function Cells(a: array2<bool>): (s: seq<bool>)
    reads a
    requires a.Length0 == NumRows && a.Length1 == NumCols
    ensures |s| == NumCells
    ensures forall r, c :: 0 <= r < NumRows && 0 <= c < NumCols ==> s[Cell(r, c)] == a[r, c]
  {
    CellRowCol();
    seq(NumCells, k requires 0 <= k < NumCells reads a => a[k / NumCols, k % NumCols])
  }

  class MembraneKeyboard {
    /** `keysPressed[NUM_ROWS][NUM_COLS]` */
    var keysPressed: array2<bool>

    ghost predicate Valid()
      reads this
    {
      keysPressed.Length0 == NumRows && keysPressed.Length1 == NumCols
    }

    /** The table partway through a sweep: cells before position k and the
        modifier cells hold this poll's reads, the others last poll's table. */
    ghost predicate SweptTo(was: seq<bool>, low: seq<bool>, k: nat)
      reads this, keysPressed
      requires Valid() && |was| == |low| == NumCells
    {
      forall i, j :: 0 <= i < NumRows && 0 <= j < NumCols ==>
        keysPressed[i, j] == if Cell(i, j) < k || IsModifierCell(Cell(i, j)) then low[Cell(i, j)] else was[Cell(i, j)]
    }

    /** The static table, all zero. */
    constructor ()
      ensures Valid() && fresh(keysPressed)
      ensures forall r, c :: 0 <= r < NumRows && 0 <= c < NumCols ==> !keysPressed[r, c]
    {
      keysPressed := new bool[NumRows, NumCols]((_, _) => false);
    }

    /** The table reset in `_gpio_membrane_init`. */
    method Init()
      requires Valid()
      modifies keysPressed
      ensures forall r, c :: 0 <= r < NumRows && 0 <= c < NumCols ==> !keysPressed[r, c]
    {
      for c := 0 to NumCols
        invariant forall i, j :: 0 <= i < NumRows && 0 <= j < c ==> !keysPressed[i, j]
      {
        for r := 0 to NumRows
          invariant forall i, j :: 0 <= i < NumRows && 0 <= j < c ==> !keysPressed[i, j]
          invariant forall i :: 0 <= i < r ==> !keysPressed[i, c]
        {
          keysPressed[r, c] := false;
        }
      }
    }

    /** `pressKey`: marks the cell, stamps the timer, then dispatches. */
    method PressKey(r: nat, c: nat, timer: DebounceTimer, sink: EventQueue, now: U64)
      requires Valid() && r < NumRows && c < NumCols
      modifies keysPressed, timer, sink
      ensures keysPressed[r, c]
      ensures forall i, j :: 0 <= i < NumRows && 0 <= j < NumCols && (i != r || j != c) ==>
                keysPressed[i, j] == old(keysPressed[i, j])
      ensures timer.lastEventTime == now
      ensures sink.log == old(sink.log) + [Dispatch(Press(KeyMap(Cell(r, c))), now)]
    {
      var key := KeyMap(Cell(r, c));
      keysPressed[r, c] := true;
      timer.UpdateLastEventTime(now);
      sink.InputEvent(Press(key), timer);
    }

    /** `unpressKey`: clears the cell and dispatches; the timer is left alone. */
    method UnpressKey(r: nat, c: nat, timer: DebounceTimer, sink: EventQueue)
      requires Valid() && r < NumRows && c < NumCols
      modifies keysPressed, sink
      ensures !keysPressed[r, c]
      ensures forall i, j :: 0 <= i < NumRows && 0 <= j < NumCols && (i != r || j != c) ==>
                keysPressed[i, j] == old(keysPressed[i, j])
      ensures sink.log == old(sink.log) + [Dispatch(Release(KeyMap(Cell(r, c))), timer.lastEventTime)]
    {
      var key := KeyMap(Cell(r, c));
      keysPressed[r, c] := false;
      sink.InputEvent(Release(key), timer);
    }

    /** One modifier check of `gpio_membrane_poll`: press if the cell reads
        LOW, release otherwise. */
    method ScanModifier(r: nat, c: nat, low: seq<bool>, timer: DebounceTimer, sink: EventQueue, now: U64)
      requires Valid() && |low| == NumCells
      requires r < NumRows && c < NumCols && IsModifierCell(Cell(r, c))
      modifies keysPressed, timer, sink
      ensures keysPressed[r, c] == low[Cell(r, c)]
      ensures forall i, j :: 0 <= i < NumRows && 0 <= j < NumCols && (i != r || j != c) ==>
                keysPressed[i, j] == old(keysPressed[i, j])
      ensures sink.log == old(sink.log) + Dispatched([ModifierEvent(low, Cell(r, c))], old(timer.lastEventTime), now)
      ensures timer.lastEventTime == StampAfter([ModifierEvent(low, Cell(r, c))], old(timer.lastEventTime), now)
    {
      ghost var e := ModifierEvent(low, Cell(r, c));
      DispatchedSingle(e, timer.lastEventTime, now);
      if low[Cell(r, c)] {
        PressKey(r, c, timer, sink, now);
      } else {
        UnpressKey(r, c, timer, sink);
      }
    }

    /** One cell of the sweep: press if it reads LOW; otherwise release it if
        the table says it was pressed, and clear it. */
    method ScanCell(r: nat, c: nat, low: seq<bool>, timer: DebounceTimer, sink: EventQueue, now: U64)
      requires Valid() && |low| == NumCells
      requires r < NumRows && c < NumCols && !IsModifierCell(Cell(r, c))
      modifies keysPressed, timer, sink
      ensures keysPressed[r, c] == low[Cell(r, c)]
      ensures forall i, j :: 0 <= i < NumRows && 0 <= j < NumCols && (i != r || j != c) ==>
                keysPressed[i, j] == old(keysPressed[i, j])
      ensures var events := Transition(low[Cell(r, c)], old(keysPressed[r, c]),
                                       Press(KeyMap(Cell(r, c))), Release(KeyMap(Cell(r, c))));
              && sink.log == old(sink.log) + Dispatched(events, old(timer.lastEventTime), now)
              && timer.lastEventTime == StampAfter(events, old(timer.lastEventTime), now)
    {
      ghost var key := KeyMap(Cell(r, c));
      DispatchedSingle(Press(key), timer.lastEventTime, now);
      DispatchedSingle(Release(key), timer.lastEventTime, now);
      if low[Cell(r, c)] {
        PressKey(r, c, timer, sink, now);
      } else {
        if keysPressed[r, c] {
          UnpressKey(r, c, timer, sink);
        }
        keysPressed[r, c] := false;
      }
    }

    /** Cell (r, c) as a step of the sweep: the sink, the timer and the
        table hold what the sweep has produced up to the cell, before and
        after it. */
    method SweepCell(r: nat, c: nat, low: seq<bool>, timer: DebounceTimer, sink: EventQueue, now: U64,
                     ghost was: seq<bool>, ghost log0: seq<Dispatch>, ghost stamp0: U64)
      requires Valid() && |low| == NumCells && |was| == NumCells
      requires r < NumRows && c < NumCols
      requires sink.log == log0 + Dispatched(SweepEvents(was, low, Cell(r, c)), stamp0, now)
      requires timer.lastEventTime == StampAfter(SweepEvents(was, low, Cell(r, c)), stamp0, now)
      requires SweptTo(was, low, Cell(r, c))
      modifies keysPressed, timer, sink
      ensures sink.log == log0 + Dispatched(SweepEvents(was, low, Cell(r, c) + 1), stamp0, now)
      ensures timer.lastEventTime == StampAfter(SweepEvents(was, low, Cell(r, c) + 1), stamp0, now)
      ensures SweptTo(was, low, Cell(r, c) + 1)
    {
      ghost var k := Cell(r, c);
      ghost var done := SweepEvents(was, low, k);
      ghost var cell := CellEvents(was, low, k);
      SweepStep(was, low, k, stamp0, now);
      if (r == ShiftRow && c == ShiftCol) || (r == SymbolShiftRow && c == SymbolShiftCol) {
        assert cell == [];
        assert Dispatched(done, stamp0, now) + Dispatched(cell, StampAfter(done, stamp0, now), now)
            == Dispatched(done, stamp0, now);
        return;
      }
      assert keysPressed[r, c] == was[k];
      ghost var logBefore := sink.log;
      ScanCell(r, c, low, timer, sink, now);
      assert sink.log == log0 + (Dispatched(done, stamp0, now) + Dispatched(cell, StampAfter(done, stamp0, now), now));
    }

    /** Row r of the sweep: every column of the row in turn. */
    method ScanRow(r: nat, low: seq<bool>, timer: DebounceTimer, sink: EventQueue, now: U64,
                   ghost was: seq<bool>, ghost log0: seq<Dispatch>, ghost stamp0: U64)
      requires Valid() && |low| == NumCells && |was| == NumCells && r < NumRows
      requires sink.log == log0 + Dispatched(SweepEvents(was, low, 5 * r), stamp0, now)
      requires timer.lastEventTime == StampAfter(SweepEvents(was, low, 5 * r), stamp0, now)
      requires SweptTo(was, low, 5 * r)
      modifies keysPressed, timer, sink
      ensures sink.log == log0 + Dispatched(SweepEvents(was, low, 5 * r + 5), stamp0, now)
      ensures timer.lastEventTime == StampAfter(SweepEvents(was, low, 5 * r + 5), stamp0, now)
      ensures SweptTo(was, low, 5 * r + 5)
    {
      for c := 0 to NumCols
        invariant sink.log == log0 + Dispatched(SweepEvents(was, low, 5 * r + c), stamp0, now)
        invariant timer.lastEventTime == StampAfter(SweepEvents(was, low, 5 * r + c), stamp0, now)
        invariant SweptTo(was, low, 5 * r + c)
      {
        SweepCell(r, c, low, timer, sink, now, was, log0, stamp0);
      }
    }

    /** The row-major sweep of `gpio_membrane_poll`, which skips the two
        modifier cells. */
    method Sweep(low: seq<bool>, timer: DebounceTimer, sink: EventQueue, now: U64, ghost was: seq<bool>)
      requires Valid() && |low| == NumCells && |was| == NumCells
      requires SweptTo(was, low, 0)
      modifies keysPressed, timer, sink
      ensures forall r, c :: 0 <= r < NumRows && 0 <= c < NumCols ==> keysPressed[r, c] == low[Cell(r, c)]
      ensures sink.log == old(sink.log) + Dispatched(SweepEvents(was, low, NumCells), old(timer.lastEventTime), now)
      ensures timer.lastEventTime == StampAfter(SweepEvents(was, low, NumCells), old(timer.lastEventTime), now)
    {
      ghost var stamp0 := timer.lastEventTime;
      ghost var log0 := sink.log;
      for r := 0 to NumRows
        invariant sink.log == log0 + Dispatched(SweepEvents(was, low, 5 * r), stamp0, now)
        invariant timer.lastEventTime == StampAfter(SweepEvents(was, low, 5 * r), stamp0, now)
        invariant SweptTo(was, low, 5 * r)
      {
        ScanRow(r, low, timer, sink, now, was, log0, stamp0);
        assert 5 * (r + 1) == 5 * r + 5;
      }
      forall i, j | 0 <= i < NumRows && 0 <= j < NumCols
        ensures keysPressed[i, j] == low[Cell(i, j)]
      {
        assert Cell(i, j) < NumCells;
      }
    }

    /** The two modifier reads that open every accepted poll: shift first,
        then symbol shift, each sent whatever the table says. */
    method ScanModifiers(low: seq<bool>, timer: DebounceTimer, sink: EventQueue, now: U64, ghost was: seq<bool>)
      requires Valid() && |low| == NumCells && was == Cells(keysPressed)
      modifies keysPressed, timer, sink
      ensures SweptTo(was, low, 0)
      ensures sink.log == old(sink.log) + Dispatched([ModifierEvent(low, ShiftCell), ModifierEvent(low, SymbolShiftCell)],
                                                     old(timer.lastEventTime), now)
      ensures timer.lastEventTime == StampAfter([ModifierEvent(low, ShiftCell), ModifierEvent(low, SymbolShiftCell)],
                                                old(timer.lastEventTime), now)
    {
      ghost var stamp0 := timer.lastEventTime;
      ScanModifier(ShiftRow, ShiftCol, low, timer, sink, now);
      ScanModifier(SymbolShiftRow, SymbolShiftCol, low, timer, sink, now);
      ghost var shift := [ModifierEvent(low, ShiftCell)];
      DispatchedAppend(shift, [ModifierEvent(low, SymbolShiftCell)], stamp0, now);
      assert shift + [ModifierEvent(low, SymbolShiftCell)] == [ModifierEvent(low, ShiftCell), ModifierEvent(low, SymbolShiftCell)];
    }

    /** `gpio_membrane_poll`. */
    method Poll(gpioInit: int, uiWidgetLevel: int, debounceInterval: U64, low: seq<bool>,
                timer: DebounceTimer, sink: EventQueue, now: U64)
      requires Valid() && |low| == NumCells
      modifies keysPressed, timer, sink
      ensures gpioInit == 0 || Discards(old(timer.lastEventTime), now,
                                        ScaledInterval(debounceInterval, 5, InWidget(uiWidgetLevel))) ==>
                unchanged(keysPressed) && unchanged(timer) && unchanged(sink)
      ensures gpioInit != 0 && !Discards(old(timer.lastEventTime), now,
                                         ScaledInterval(debounceInterval, 5, InWidget(uiWidgetLevel))) ==>
                && (forall r, c :: 0 <= r < NumRows && 0 <= c < NumCols ==> keysPressed[r, c] == low[Cell(r, c)])
                && sink.log == old(sink.log) + Dispatched(ScanEvents(old(Cells(keysPressed)), low),
                                                          old(timer.lastEventTime), now)
                && timer.lastEventTime == StampAfter(ScanEvents(old(Cells(keysPressed)), low),
                                                     old(timer.lastEventTime), now)
    {
      if gpioInit == 0 {
        return;
      }
      var interval := ScaledInterval(debounceInterval, 5, InWidget(uiWidgetLevel));
      if timer.DebounceEvent(interval, now) {
        return;
      }
      ghost var was := Cells(keysPressed);
      ghost var stamp0 := timer.lastEventTime;
      ScanModifiers(low, timer, sink, now, was);
      ghost var mods := [ModifierEvent(low, ShiftCell), ModifierEvent(low, SymbolShiftCell)];
      Sweep(low, timer, sink, now, was);
      DispatchedAppend(mods, SweepEvents(was, low, NumCells), stamp0, now);
      assert ScanEvents(was, low) == mods + SweepEvents(was, low, NumCells);
    }
  }
}
