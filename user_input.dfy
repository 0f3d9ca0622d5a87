/**
 * A user's game controls: the conversions from script integers to SFML input
 * IDs, the joystick-axis comparison, the test of whether a configured input
 * is being pressed, and the per-frame update of one control's signal
 * (free-form, button-form and delayed-form). Scanning the keyboard, mouse
 * and joystick is outside the model: the scan is a parameter, as are whether
 * the mouse is over a GUI widget and the current time.
 */
module UserInput {
  import opened Integers

  /** sf::Keyboard::KeyCount, sf::Mouse::ButtonCount and sf::Joystick::AxisCount (SFML 2). */
  const KEY_COUNT: nat := 101
  const MOUSE_BUTTON_COUNT: nat := 5
  const AXIS_COUNT: nat := 8

  /** sf::Time values in microseconds: sf::seconds(1.0f) and sf::seconds(0.1f). */
  const ONE_SECOND: int := 1000000
  const TENTH_OF_A_SECOND: int := 100000

  // ------------------------------------------------------------------
  // Conversions
  // ------------------------------------------------------------------

  /** An ID lowered to count - 1 when it is too large. */
  function ClampToCount(v: nat, count: nat): (r: nat)
    requires count > 0
    ensures r < count
    ensures v < count ==> r == v
    ensures v >= count ==> r == count - 1
  {
    if v >= count then count - 1 else v
  }

  function ToKeyCode(k: UInt32): (r: nat)
    ensures r < KEY_COUNT && (k < KEY_COUNT ==> r == k) && (k >= KEY_COUNT ==> r == KEY_COUNT - 1)
  {
    ClampToCount(k, KEY_COUNT)
  }

  function ToMouseButton(b: UInt32): (r: nat)
    ensures r < MOUSE_BUTTON_COUNT && (b < MOUSE_BUTTON_COUNT ==> r == b) &&
            (b >= MOUSE_BUTTON_COUNT ==> r == MOUSE_BUTTON_COUNT - 1)
  {
    ClampToCount(b, MOUSE_BUTTON_COUNT)
  }

  function ToAxis(a: UInt32): (r: nat)
    ensures r < AXIS_COUNT && (a < AXIS_COUNT ==> r == a) && (a >= AXIS_COUNT ==> r == AXIS_COUNT - 1)
  {
    ClampToCount(a, AXIS_COUNT)
  }

  /** sfx::axis_direction. */
  datatype AxisDirection = Negative | Positive

  function ToAxisDirection(d: Int32): (r: AxisDirection)
    ensures r == Negative <==> d < 0
  {
    if d < 0 then Negative else Positive
  }

  /** sfx::control_signal, without its SignalTypeCount end marker. */
  datatype ControlSignal = FreeForm | ButtonForm | DelayedForm

  /** The enumerator's integer value. */
  function SignalTypeValue(t: ControlSignal): (n: nat)
    ensures n < 3
  {
    match t
    case FreeForm => 0
    case ButtonForm => 1
    case DelayedForm => 2
  }

  /** An out-of-range signal type becomes ButtonForm. */
  function ToSignalType(s: UInt32): (r: ControlSignal)
    ensures s < 3 ==> SignalTypeValue(r) == s
    ensures s >= 3 ==> r == ButtonForm
  {
    if s == 0 then FreeForm
    else if s == 1 then ButtonForm
    else if s == 2 then DelayedForm
    else ButtonForm
  }

  lemma ToSignalTypeOfValue(t: ControlSignal)
    ensures ToSignalType(SignalTypeValue(t)) == t
  {
    match t
    case FreeForm =>
    case ButtonForm =>
    case DelayedForm =>
  }

  // ------------------------------------------------------------------
  // Joystick axes
  // ------------------------------------------------------------------

  /** sfx::joystick: an axis pushed in a direction. */
  datatype Joystick = Joystick(axis: nat, direction: AxisDirection)

  predicate JoystickEqual(a: Joystick, b: Joystick)
  {
    a.axis == b.axis && a.direction == b.direction
  }

  predicate JoystickNotEqual(a: Joystick, b: Joystick)
  {
    !JoystickEqual(a, b)
  }

  /** The member-wise operator== is value equality, and != is its negation. */
  lemma JoystickEqualIsEquality(a: Joystick, b: Joystick)
    ensures JoystickEqual(a, b) <==> a == b
    ensures JoystickNotEqual(a, b) <==> a != b
  {
  }

  // ------------------------------------------------------------------
  // Is a configured input being pressed?
  // ------------------------------------------------------------------

  /** Some element of configured equals some element of list. */
  predicate SharesElement<T(==)>(configured: seq<T>, list: seq<T>)
  {
    exists i, j :: 0 <= i < |configured| && 0 <= j < |list| && configured[i] == list[j]
  }

  /** user_input::_isBeingTriggered: the nested search for a common element. */
  method IsBeingTriggered<T(==)>(configured: seq<T>, list: seq<T>) returns (r: bool)
    ensures r <==> SharesElement(configured, list)
  {
    var c := 0;
    while c < |configured|
      invariant 0 <= c <= |configured|
      invariant forall i, j :: 0 <= i < c && 0 <= j < |list| ==> configured[i] != list[j]
    {
      var l := 0;
      while l < |list|
        invariant 0 <= l <= |list|
        invariant forall j :: 0 <= j < l ==> configured[c] != list[j]
      {
        if configured[c] == list[l] {
          return true;
        }
        l := l + 1;
      }
      c := c + 1;
    }
    return false;
  }

  lemma SharesElementEmpty<T>(configured: seq<T>, list: seq<T>)
    requires |configured| == 0 || |list| == 0
    ensures !SharesElement(configured, list)
  {
  }

  lemma SharesElementSymmetric<T>(a: seq<T>, b: seq<T>)
    ensures SharesElement(a, b) <==> SharesElement(b, a)
  {
    if SharesElement(a, b) {
      var i, j :| 0 <= i < |a| && 0 <= j < |b| && a[i] == b[j];
      assert b[j] == a[i];
    }
    if SharesElement(b, a) {
      var j, i :| 0 <= j < |b| && 0 <= i < |a| && b[j] == a[i];
      assert a[i] == b[j];
    }
  }

  function Elements<T>(s: seq<T>): set<T>
  {
    set i | 0 <= i < |s| :: s[i]
  }

  /** Only which elements the lists hold matters, not their order or repetitions. */
  lemma SharesElementBySets<T>(configured: seq<T>, list: seq<T>)
    ensures SharesElement(configured, list) <==> Elements(configured) * Elements(list) != {}
  {
    if SharesElement(configured, list) {
      var i, j :| 0 <= i < |configured| && 0 <= j < |list| && configured[i] == list[j];
      assert configured[i] in Elements(configured) * Elements(list);
    }
    if Elements(configured) * Elements(list) != {} {
      var x :| x in Elements(configured) * Elements(list);
      var i :| 0 <= i < |configured| && configured[i] == x;
      var j :| 0 <= j < |list| && list[j] == x;
      assert configured[i] == list[j];
    }
  }

  lemma SharesElementSameElements<T>(a: seq<T>, b: seq<T>, a': seq<T>, b': seq<T>)
    requires Elements(a) == Elements(a') && Elements(b) == Elements(b')
    ensures SharesElement(a, b) <==> SharesElement(a', b')
  {
    SharesElementBySets(a, b);
    SharesElementBySets(a', b');
  }

  // ------------------------------------------------------------------
  // Signals
  // ------------------------------------------------------------------

  /** sfx::user_configuration plus the mouse-over-widget option of the control. */
  datatype UserConfiguration = UserConfiguration(
    keyboard: seq<nat>,
    mouse: seq<nat>,
    joystickButton: seq<nat>,
    joystickAxis: seq<Joystick>,
    triggerViaMouseEvenIfMouseIsOverWidget: bool)

  /**
   * sfx::signal_properties. The clock is the time at which it last
   * restarted; all times are in microseconds.
   */
  datatype SignalProperties = SignalProperties(
    signalType: ControlSignal,
    previous: bool,
    current: bool,
    signal: bool,
    previousTriggeredByMouse: bool,
    currentTriggeredByMouse: bool,
    triggeredByMouse: bool,
    startedWhenMouseOverWidget: bool,
    clockStart: int,
    delayIndex: nat,
    delayLength: seq<int>)

  datatype UserControl = UserControl(config: UserConfiguration, signal: SignalProperties)

  /** The delay lengths a delayed-form control uses: its own, or [1s, 0.1s]. */
  function Delays(s: SignalProperties): (d: seq<int>)
    ensures |d| > 0
  {
    if |s.delayLength| == 0 then [ONE_SECOND, TENTH_OF_A_SECOND] else s.delayLength
  }

  /** The delay index of a delayed-form control points at one of its delays. */
  predicate DelayIndexInRange(s: SignalProperties)
  {
    s.signalType == DelayedForm ==> s.delayIndex < |Delays(s)|
  }

  /** Whether any configured key, axis, button or mouse button is in the scan. */
  predicate Pressed(config: UserConfiguration, scan: UserConfiguration)
  {
    SharesElement(config.keyboard, scan.keyboard) || SharesElement(config.joystickAxis, scan.joystickAxis) ||
    SharesElement(config.joystickButton, scan.joystickButton) || SharesElement(config.mouse, scan.mouse)
  }

  /** Whether the control's input began with the mouse over a widget. */
  function StartedOverWidget(s: SignalProperties, config: UserConfiguration, scan: UserConfiguration,
                             mouseOverWidget: bool): bool
  {
    s.startedWhenMouseOverWidget ||
    (mouseOverWidget && SharesElement(config.mouse, scan.mouse) && !s.currentTriggeredByMouse)
  }

  /** The first step of a frame: previous := current, then the scan sets current. */
  function Scanned(s: SignalProperties, config: UserConfiguration, scan: UserConfiguration,
                   mouseOverWidget: bool): (r: SignalProperties)
    ensures r.previous == s.current && r.current == Pressed(config, scan)
    ensures r.previousTriggeredByMouse == s.currentTriggeredByMouse
    ensures r.currentTriggeredByMouse == SharesElement(config.mouse, scan.mouse)
    ensures r.signalType == s.signalType && r.delayIndex == s.delayIndex && r.delayLength == s.delayLength
  {
    s.(previousTriggeredByMouse := s.currentTriggeredByMouse,
       currentTriggeredByMouse := SharesElement(config.mouse, scan.mouse),
       previous := s.current, current := Pressed(config, scan),
       startedWhenMouseOverWidget := StartedOverWidget(s, config, scan, mouseOverWidget))
  }

  /** The second step: the signal the control's form gives. */
  function FormSignal(s: SignalProperties, now: int): (r: SignalProperties)
    requires DelayIndexInRange(s)
    ensures r.previous == s.previous && r.current == s.current
    ensures r.previousTriggeredByMouse == s.previousTriggeredByMouse
    ensures r.currentTriggeredByMouse == s.currentTriggeredByMouse
    ensures r.startedWhenMouseOverWidget == s.startedWhenMouseOverWidget
    ensures r.signalType == s.signalType
    ensures r.triggeredByMouse ==> r.signal
    ensures DelayIndexInRange(r)
  {
    match s.signalType
    case FreeForm => s.(signal := s.current, triggeredByMouse := s.current && s.currentTriggeredByMouse)
    case ButtonForm =>
      var fire := s.previous && !s.current;
      s.(signal := fire, triggeredByMouse := fire && s.previousTriggeredByMouse)
    case DelayedForm =>
      var delays := Delays(s);
      if !s.previous && s.current then
        s.(delayLength := delays, clockStart := now, delayIndex := 0, signal := true,
           triggeredByMouse := s.currentTriggeredByMouse)
      else if s.current && now - s.clockStart >= delays[s.delayIndex] then
        s.(delayLength := delays, clockStart := now,
           delayIndex := if s.delayIndex + 1 >= |delays| then |delays| - 1 else s.delayIndex + 1,
           signal := true, triggeredByMouse := s.currentTriggeredByMouse)
      else
        s.(delayLength := delays, signal := false, triggeredByMouse := false)
  }

  /** The last step: cancel an input that began over a widget, and clear that flag on release. */
  function OverWidgetRule(s: SignalProperties, config: UserConfiguration): (r: SignalProperties)
    ensures r.previous == s.previous && r.current == s.current
    ensures r.previousTriggeredByMouse == s.previousTriggeredByMouse
    ensures r.currentTriggeredByMouse == s.currentTriggeredByMouse
    ensures r.signalType == s.signalType && r.delayIndex == s.delayIndex && r.delayLength == s.delayLength
    ensures (s.triggeredByMouse ==> s.signal) ==> (r.triggeredByMouse ==> r.signal)
  {
    var s1 := if s.startedWhenMouseOverWidget && !config.triggerViaMouseEvenIfMouseIsOverWidget
              then s.(signal := false, triggeredByMouse := false) else s;
    if s1.previousTriggeredByMouse && !s1.currentTriggeredByMouse
    then s1.(startedWhenMouseOverWidget := false) else s1
  }

  /**
   * One frame of a control's signal, given the scan, whether the mouse is
   * over a widget, and the time now.
   */
  function UpdatedSignal(s: SignalProperties, config: UserConfiguration, scan: UserConfiguration,
                         mouseOverWidget: bool, now: int): (r: SignalProperties)
    requires DelayIndexInRange(s)
    ensures r.previous == s.current && r.current == Pressed(config, scan)
    ensures r.previousTriggeredByMouse == s.currentTriggeredByMouse
    ensures r.currentTriggeredByMouse == SharesElement(config.mouse, scan.mouse)
    ensures r.signalType == s.signalType
    ensures r.triggeredByMouse ==> r.signal
    ensures DelayIndexInRange(r)
  {
    OverWidgetRule(FormSignal(Scanned(s, config, scan, mouseOverWidget), now), config)
  }

  /** Whether the signal is suppressed because the input began over a widget. */
  predicate Suppressed(s: SignalProperties, config: UserConfiguration, scan: UserConfiguration,
                       mouseOverWidget: bool)
  {
    StartedOverWidget(s, config, scan, mouseOverWidget) && !config.triggerViaMouseEvenIfMouseIsOverWidget
  }

  /** A free-form control signals while pressed. */
  lemma FreeFormFollowsInput(s: SignalProperties, config: UserConfiguration, scan: UserConfiguration,
                             mouseOverWidget: bool, now: int)
    requires s.signalType == FreeForm && !Suppressed(s, config, scan, mouseOverWidget)
    ensures UpdatedSignal(s, config, scan, mouseOverWidget, now).signal == Pressed(config, scan)
  {
  }

  /** A button-form control signals on the release edge. */
  lemma ButtonFormSignalsOnRelease(s: SignalProperties, config: UserConfiguration, scan: UserConfiguration,
                                   mouseOverWidget: bool, now: int)
    requires s.signalType == ButtonForm && !Suppressed(s, config, scan, mouseOverWidget)
    ensures var r := UpdatedSignal(s, config, scan, mouseOverWidget, now);
            r.signal <==> r.previous && !r.current
  {
  }

  /** A suppressed control never signals. */
  lemma SuppressedNeverSignals(s: SignalProperties, config: UserConfiguration, scan: UserConfiguration,
                               mouseOverWidget: bool, now: int)
    requires DelayIndexInRange(s) && Suppressed(s, config, scan, mouseOverWidget)
    ensures !UpdatedSignal(s, config, scan, mouseOverWidget, now).signal
  {
  }

  /** Letting go of the mouse clears the over-widget flag. */
  lemma MouseReleaseClearsFlag(s: SignalProperties, config: UserConfiguration, scan: UserConfiguration,
                               mouseOverWidget: bool, now: int)
    requires DelayIndexInRange(s) && s.currentTriggeredByMouse && !SharesElement(config.mouse, scan.mouse)
    ensures !UpdatedSignal(s, config, scan, mouseOverWidget, now).startedWhenMouseOverWidget
  {
  }

  /**
   * A delayed-form control fires on the press and restarts its clock there;
   * while held it fires each time the current delay has elapsed, moving on
   * to the next delay and staying on the last; otherwise it does not fire.
   */
  lemma DelayedFormTiming(s: SignalProperties, config: UserConfiguration, scan: UserConfiguration,
                          mouseOverWidget: bool, now: int)
    requires s.signalType == DelayedForm && DelayIndexInRange(s)
    requires !Suppressed(s, config, scan, mouseOverWidget)
    ensures var r := UpdatedSignal(s, config, scan, mouseOverWidget, now);
            var delays := Delays(s);
            r.delayLength == delays &&
            (!s.current && Pressed(config, scan) ==> r.signal && r.delayIndex == 0 && r.clockStart == now) &&
            (s.current && Pressed(config, scan) && now - s.clockStart >= delays[s.delayIndex] ==>
               r.signal && r.clockStart == now &&
               r.delayIndex == (if s.delayIndex + 1 < |delays| then s.delayIndex + 1 else |delays| - 1)) &&
            (s.current && Pressed(config, scan) && now - s.clockStart < delays[s.delayIndex] ==>
               !r.signal && r.clockStart == s.clockStart && r.delayIndex == s.delayIndex) &&
            (!Pressed(config, scan) ==> !r.signal)
  {
  }

  /** The scanning half of _updateSingle. */
  method ScanSignal(s: SignalProperties, config: UserConfiguration, scan: UserConfiguration,
                    mouseOverWidget: bool) returns (signal: SignalProperties)
    ensures signal == Scanned(s, config, scan, mouseOverWidget)
  {
    signal := s.(previousTriggeredByMouse := s.currentTriggeredByMouse,
                 currentTriggeredByMouse := false, previous := s.current, current := false);
    var keys := IsBeingTriggered(config.keyboard, scan.keyboard);
    if keys {
      signal := signal.(current := true);
    } else {
      var axes := IsBeingTriggered(config.joystickAxis, scan.joystickAxis);
      if axes {
        signal := signal.(current := true);
      } else {
        var buttons := IsBeingTriggered(config.joystickButton, scan.joystickButton);
        if buttons {
          signal := signal.(current := true);
        }
      }
    }
    var mouse := IsBeingTriggered(config.mouse, scan.mouse);
    if mouse {
      signal := signal.(current := true, currentTriggeredByMouse := true);
    }
    if mouseOverWidget && signal.currentTriggeredByMouse && !signal.previousTriggeredByMouse {
      signal := signal.(startedWhenMouseOverWidget := true);
    }
  }

  /** The switch on the signal type in _updateSingle. */
  method ApplyForm(s: SignalProperties, now: int) returns (signal: SignalProperties)
    requires DelayIndexInRange(s)
    ensures signal == FormSignal(s, now)
  {
    signal := s;
    match signal.signalType {
      case FreeForm =>
        signal := signal.(signal := signal.current);
        signal := signal.(triggeredByMouse := signal.signal && signal.currentTriggeredByMouse);
      case ButtonForm =>
        signal := signal.(signal := signal.previous && !signal.current);
        signal := signal.(triggeredByMouse := signal.signal && signal.previousTriggeredByMouse);
      case DelayedForm =>
        signal := ApplyDelayedForm(s, now);
    }
  }

  /** The DelayedForm case of that switch. */
  method ApplyDelayedForm(s: SignalProperties, now: int) returns (signal: SignalProperties)
    requires s.signalType == DelayedForm && DelayIndexInRange(s)
    ensures signal == FormSignal(s, now)
  {
    signal := s.(signal := false, triggeredByMouse := false);
    if |signal.delayLength| == 0 {
      signal := signal.(delayLength := [ONE_SECOND, TENTH_OF_A_SECOND]);
    }
    if !signal.previous && signal.current {
      signal := signal.(clockStart := now, delayIndex := 0, signal := true);
    } else if signal.current {
      if now - signal.clockStart >= signal.delayLength[signal.delayIndex] {
        signal := signal.(clockStart := now, delayIndex := signal.delayIndex + 1);
        if signal.delayIndex >= |signal.delayLength| {
          signal := signal.(delayIndex := |signal.delayLength| - 1);
        }
        signal := signal.(signal := true);
      }
    }
    signal := signal.(triggeredByMouse := signal.signal && signal.currentTriggeredByMouse);
  }

  /** The mouse-over-widget tail of _updateSingle. */
  method ApplyOverWidgetRule(s: SignalProperties, config: UserConfiguration) returns (signal: SignalProperties)
    ensures signal == OverWidgetRule(s, config)
  {
    signal := s;
    if signal.startedWhenMouseOverWidget && !config.triggerViaMouseEvenIfMouseIsOverWidget {
      signal := signal.(signal := false, triggeredByMouse := false);
    }
    if signal.previousTriggeredByMouse && !signal.currentTriggeredByMouse {
      signal := signal.(startedWhenMouseOverWidget := false);
    }
  }

  /** A user's controls by name. */
  class UserInputState {
    var control: map<string, UserControl>

    predicate Valid()
      reads this
    {
      forall name :: name in control ==> DelayIndexInRange(control[name].signal)
    }

    constructor (controls: map<string, UserControl>)
      requires forall name :: name in controls ==> DelayIndexInRange(controls[name].signal)
      ensures control == controls && Valid()
    {
      control := controls;
    }

    /** operator[]: whether the named control is signalling; false for an unknown control. */
    method Signalling(name: string) returns (b: bool)
      ensures b <==> name in control && control[name].signal.signal
    {
      if name !in control {
        return false;
      }
      b := control[name].signal.signal;
    }

    /** _updateSingle: one frame of the named control. */
    method UpdateSingle(scan: UserConfiguration, name: string, mouseOverWidget: bool, now: int)
      requires name in control && DelayIndexInRange(control[name].signal)
      modifies this
      ensures control == old(control)[name := old(control)[name].(signal :=
                UpdatedSignal(old(control)[name].signal, old(control)[name].config, scan, mouseOverWidget, now))]
    {
      var c := control[name];
      var signal := ScanSignal(c.signal, c.config, scan, mouseOverWidget);
      signal := ApplyForm(signal, now);
      signal := ApplyOverWidgetRule(signal, c.config);
      control := control[name := c.(signal := signal)];
    }

    /** update(): one frame of every control, for an already scanned input. */
    method Update(scan: UserConfiguration, mouseOverWidget: bool, now: int)
      requires Valid()
      modifies this
      ensures Valid() && control.Keys == old(control).Keys
      ensures forall name :: name in control ==>
                control[name] == old(control)[name].(signal := UpdatedSignal(old(control)[name].signal,
                                   old(control)[name].config, scan, mouseOverWidget, now))
    {
      var left := control.Keys;
      while left != {}
        invariant left <= control.Keys && control.Keys == old(control).Keys && Valid()
        invariant forall name :: name in left ==> control[name] == old(control)[name]
        invariant forall name :: name in control && name !in left ==>
                    control[name] == old(control)[name].(signal := UpdatedSignal(old(control)[name].signal,
                                       old(control)[name].config, scan, mouseOverWidget, now))
        decreases left
      {
        var name :| name in left;
        UpdateSingle(scan, name, mouseOverWidget, now);
        left := left - {name};
      }
    }
  }
}
