/**
 * The GUI's own signal handlers: dispatching a signal to a widget's script
 * handlers, recording which message-box button was pressed, and closing a
 * child window. The script engine is outside the model: whether a call into
 * a script succeeded, and what a closing handler left its `close` flag as,
 * are parameters.
 */
module GuiSignalHandlers {
  import opened Wrappers

  /** The handlers a widget has: single handlers by signal name, and a multi handler. */
  datatype WidgetSignals = WidgetSignals(singleSignalHandlers: set<string>, hasMultiSignalHandler: bool)

  /**
   * The result of signalHandler: false without scripts or when the widget is
   * gone; otherwise whether some handler ran and all that ran succeeded.
   * singleOk and multiOk are the results of the two script calls.
   */
  method SignalHandler(hasScripts: bool, data: Option<WidgetSignals>, signal: string,
                       singleOk: bool, multiOk: bool) returns (r: bool)
    ensures !hasScripts || data.None? ==> !r
    ensures hasScripts && data.Some? ==>
              (r <==> (signal in data.value.singleSignalHandlers || data.value.hasMultiSignalHandler) &&
                      (signal in data.value.singleSignalHandlers ==> singleOk) &&
                      (data.value.hasMultiSignalHandler ==> multiOk))
  {
    if !hasScripts {
      return false;
    }
    if data.None? {
      return false;
    }
    var calledAny := false;
    var allSuccessful := true;
    if signal in data.value.singleSignalHandlers {
      calledAny := true;
      allSuccessful := allSuccessful && singleOk;
    }
    if data.value.hasMultiSignalHandler {
      calledAny := true;
      allSuccessful := allSuccessful && multiOk;
    }
    r := calledAny && allSuccessful;
  }

  /**
   * The index recorded when a message-box button with caption is pressed:
   * that of the first button with that caption, or the button count.
   */
  method PressedButtonIndex(buttons: seq<string>, caption: string) returns (i: nat)
    ensures i <= |buttons|
    ensures i < |buttons| ==> buttons[i] == caption
    ensures forall j :: 0 <= j < i ==> buttons[j] != caption
    ensures i == |buttons| <==> caption !in buttons
  {
    i := 0;
    while i < |buttons|
      invariant i <= |buttons|
      invariant forall j :: 0 <= j < i ==> buttons[j] != caption
    {
      if buttons[i] == caption {
        break;
      }
      i := i + 1;
    }
  }

  /** What closing a child window does. */
  datatype ClosingOutcome = ClosingOutcome(abort: bool, hidden: bool, restored: bool)

  /**
   * closingSignalHandler: the window's closing handler (if any) may clear
   * `close`; a window that closes is restored first if it was minimised, and
   * then hidden rather than removed; TGUI's own closing is always aborted.
   * closeAfterHandler is the value the handler leaves in `close`.
   */
  method ClosingSignalHandler(hasClosingHandler: bool, closeAfterHandler: bool, isMinimised: bool)
    returns (o: ClosingOutcome)
    ensures o.abort
    ensures o.hidden <==> !hasClosingHandler || closeAfterHandler
    ensures o.restored <==> o.hidden && isMinimised
  {
    var close := true;
    if hasClosingHandler {
      close := closeAfterHandler;
    }
    var hidden := false;
    var restored := false;
    if close {
      if isMinimised {
        restored := true;
      }
      hidden := true;
    }
    o := ClosingOutcome(true, hidden, restored);
  }
}
