/** The menu button of the I2C build: the same decision as the ZX Zero
    driver's, in its own copy of the poll, against the ZX Zero debounce
    interval. */
module HermitI2c {
  import opened Input
  import opened GpioCommon
  import opened EventTranslator
  import opened HermitZxZero

  /** `hermitretro_controller_poll` of the I2C build: `now` is the clock at
      the first debounce check and `later` the clock at the second check and
      the refresh. */
  method Poll(pinLow: bool, uiWidgetLevel: int, timer: DebounceTimer, sink: EventQueue, now: U64, later: U64)
    modifies timer, sink
    ensures Discards(old(timer.lastEventTime), now, MenuDebounceMs) || !pinLow
            || Discards(old(timer.lastEventTime), later, MenuDebounceMs) ==>
              unchanged(timer) && unchanged(sink)
    ensures !Discards(old(timer.lastEventTime), now, MenuDebounceMs)
            && !Discards(old(timer.lastEventTime), later, MenuDebounceMs) ==>
              && sink.log == old(sink.log) + Dispatched(MenuEvents(pinLow, uiWidgetLevel), old(timer.lastEventTime), later)
              && timer.lastEventTime == StampAfter(MenuEvents(pinLow, uiWidgetLevel), old(timer.lastEventTime), later)
  {
    if timer.DebounceEvent(MenuDebounceMs, now) {
      return;
    }
    if pinLow {
      if timer.DebounceEvent(MenuDebounceMs, later) {
        return;
      }
      var key := if InWidget(uiWidgetLevel) then Escape else F1;
      DispatchedSingle(Press(key), timer.lastEventTime, later);
      timer.UpdateLastEventTime(later);
      sink.InputEvent(KeyEvent(KeyPress, key, key), timer);
      return;
    }
  }
}
