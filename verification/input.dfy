/** The emulator's input vocabulary as the drivers use it: key identifiers,
    event types and the event record handed to the input sink. */
module Input {

  /** `input_key` values used by the drivers. Joystick buttons are numbered
      by their distance from INPUT_JOYSTICK_UP, which is how the GPIO
      joystick driver indexes its state table and how the SDL driver
      computes fire buttons (INPUT_JOYSTICK_FIRE_1 + n). */
  datatype InputKey =
    | Char(c: char)        // INPUT_KEY_0 .. INPUT_KEY_9, INPUT_KEY_a .. INPUT_KEY_z
    | ShiftL
    | ControlR
    | Return
    | Space
    | Escape
    | F1
    | Joystick(offset: int)

  const JoystickUp := Joystick(0)
  const JoystickDown := Joystick(1)
  const JoystickLeft := Joystick(2)
  const JoystickRight := Joystick(3)

  /** INPUT_JOYSTICK_FIRE_n, for n >= 1. */
  function JoystickFire(n: int): InputKey {
    Joystick(3 + n)
  }

  datatype EventType = KeyPress | KeyRelease | JoystickPress | JoystickRelease

  /** `input_event_t`: a key event carries the native and the Spectrum key,
      a joystick event the joystick number and the button. */
  datatype Event =
    | KeyEvent(kind: EventType, nativeKey: InputKey, spectrumKey: InputKey)
    | JoystickEvent(kind: EventType, which: int, button: InputKey)
  {
    predicate IsPress() {
      kind == KeyPress || kind == JoystickPress
    }
  }

  function Press(k: InputKey): Event {
    KeyEvent(KeyPress, k, k)
  }

  function Release(k: InputKey): Event {
    KeyEvent(KeyRelease, k, k)
  }

  /** The UI is showing a widget (a menu) when its nesting level is above -1. */
  predicate InWidget(uiWidgetLevel: int) {
    uiWidgetLevel > -1
  }

  /** The key the menu button sends: Escape closes an open menu, F1 opens it. */
  function MenuKey(uiWidgetLevel: int): (k: InputKey)
    ensures k == Escape <==> InWidget(uiWidgetLevel)
    ensures k == F1 <==> !InWidget(uiWidgetLevel)
  {
    if InWidget(uiWidgetLevel) then Escape else F1
  }
}
