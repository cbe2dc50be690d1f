/** The ZX Zero menu button: a GPIO pin that opens the emulator's menu
    (F1) or, while a menu is showing, closes it (Escape). The pin level and
    the clock readings of one poll are inputs. */
module HermitZxZero {
  import opened Input
  import opened GpioCommon
  import opened EventTranslator

  /** HERMITRETRO_ZXZERO_MENU_DEBOUNCE_IN_MS */
  const MenuDebounceMs: U64 := 250

  /** What an accepted poll sends when the pin reads LOW: one key press. */
  function MenuEvents(pinLow: bool, uiWidgetLevel: int): (r: seq<Event>)
    ensures |r| <= 1
    ensures r != [] <==> pinLow
  {
    if pinLow then [Press(MenuKey(uiWidgetLevel))] else []
  }

  /** The menu button only ever presses: one key press for a LOW pin,
      Escape while a menu is showing and F1 otherwise, with the same key
      as native and Spectrum key; a HIGH pin sends nothing. */
  lemma MenuEventsPressOnly(pinLow: bool, uiWidgetLevel: int)
    ensures |MenuEvents(pinLow, uiWidgetLevel)| == if pinLow then 1 else 0
    ensures forall e :: e in MenuEvents(pinLow, uiWidgetLevel) ==>
              && e.KeyEvent? && e.kind == KeyPress && e.nativeKey == e.spectrumKey
              && (e.nativeKey == Escape <==> InWidget(uiWidgetLevel))
              && (e.nativeKey == F1 <==> !InWidget(uiWidgetLevel))
  {
  }

  /** With a clock that does not go backwards, the second debounce check,
      made after the pin read, never discards once the first one let the
      poll through: what the poll does depends on the first check only. */
  lemma InnerCheckRedundant(last: U64, now: U64, later: U64)
    requires last <= now <= later
    ensures !Discards(last, now, MenuDebounceMs) ==> !Discards(last, later, MenuDebounceMs)
  {
    if !Discards(last, now, MenuDebounceMs) {
      AcceptStaysAccepted(last, now, later, MenuDebounceMs);
    }
  }

  /** `hermitretro_zxzero_poll`: `now` is the clock at the first debounce
      check and `later` the clock at the second check and the refresh. */
  method Poll(pinLow: bool, uiWidgetLevel: int, timer: DebounceTimer, sink: EventQueue, now: U64, later: U64)
    modifies timer, sink
    ensures Discards(old(timer.lastEventTime), now, MenuDebounceMs) || !pinLow
            || Discards(old(timer.lastEventTime), later, MenuDebounceMs) ==>
              unchanged(timer) && unchanged(sink)
    ensures !Discards(old(timer.lastEventTime), now, MenuDebounceMs)
            && !Discards(old(timer.lastEventTime), later, MenuDebounceMs) ==>
              && sink.log == old(sink.log) + Dispatched(MenuEvents(pinLow, uiWidgetLevel), old(timer.lastEventTime), later)
              && timer.lastEventTime == StampAfter(MenuEvents(pinLow, uiWidgetLevel), old(timer.lastEventTime), later)
  {
    if timer.DebounceEvent(MenuDebounceMs, now) {
      return;
    }
    if pinLow {
      // The extra check keeps the menu from closing straight after it opened.
      if timer.DebounceEvent(MenuDebounceMs, later) {
        return;
      }
      var key := MenuKey(uiWidgetLevel);
      DispatchedSingle(Press(key), timer.lastEventTime, later);
      timer.UpdateLastEventTime(later);
      sink.InputEvent(KeyEvent(KeyPress, key, key), timer);
      return;
    }
  }
}
