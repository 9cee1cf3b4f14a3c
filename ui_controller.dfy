/**
 * The window controller of MacroPadApp/gui/UIController.py: it owns the button panel,
 * edits bindings through the macro manager, pushes them over the serial manager, and
 * closes the connection on quit. Widgets, the status label and the pop-up windows are not
 * modelled; the logger is the `events` trace.
 */
module Controller {
  import opened Wrappers
  import opened Text
  import opened Keys
  import opened Events
  import opened Serial
  import opened Macros
  import opened Panel
  import Editing

  const QuitText: string := "Quit button pressed. Closing application."

  class UIController {
    const serialManager: SerialManager
    const macroManager: MacroManager
    const panel: ButtonPanel
    var events: seq<Event>

    /** `__init__`: keeps the two managers and starts with no widgets and the nine
        "Disabled" states; the widgets come later, from `createWidgets`. */
    constructor (serial: SerialManager, macros: MacroManager)
      ensures serialManager == serial && macroManager == macros && fresh(panel)
      ensures panel.buttons == map[] && panel.buttonStates == InitialStates()
      ensures panel.buttonStates.Keys == KeyNames()
      ensures events == []
    {
      serialManager := serial;
      macroManager := macros;
      panel := new ButtonPanel();
      events := [];
    }

    /** `createWidgets`: registers the nine keypad buttons, disabled, each with the state
        "Disabled" (`SetupPanel` states what this leaves after `__init__`). */
    method CreateWidgets()
      modifies panel
      ensures panel.buttons == Register(old(panel.buttons), Layout(), |Layout()|, false)
      ensures panel.buttonStates == Register(old(panel.buttonStates), Layout(), |Layout()|, "Disabled")
    {
      panel.CreateWidgets();
    }

    /** `toggleButtons(enable)` on the controller's own panel. */
    method ToggleButtons(enable: bool)
      modifies panel
      ensures Toggled(old(panel.buttons), old(panel.buttonStates), panel.buttons, panel.buttonStates, enable)
    {
      panel.ToggleButtons(enable);
    }

    /** `editAction(name)` with the dialog's answer `dialog`: the bindings are updated and
        saved unless the dialog was cancelled, and "SET<n><action>\n" is pushed only while
        connected; `crashed` is the `int()` failure on a name without a number. */
    method EditAction(name: string, dialog: Option<string>) returns (prompt: string, crashed: bool)
      modifies macroManager, serialManager, serialManager.ser
      ensures prompt == Editing.DisplayedAction(old(macroManager.GetAction(name)))
      ensures crashed <==> dialog.Some? && ButtonNumber(name).None?
      ensures dialog.None? ==>
        macroManager.buttonActions == old(macroManager.buttonActions)
        && macroManager.configFile == old(macroManager.configFile)
      ensures dialog.Some? ==>
        macroManager.buttonActions == old(macroManager.buttonActions)[name := Editing.ActionToSave(dialog.value)]
        && macroManager.configFile == Some(macroManager.buttonActions)
      ensures !(dialog.Some? && !crashed && old(serialManager.IsConnected())) ==>
        serialManager.ser == old(serialManager.ser) && serialManager.serialPort == old(serialManager.serialPort)
        && serialManager.connected == old(serialManager.connected)
        && (serialManager.ser != null ==> unchanged(serialManager.ser))
      ensures dialog.Some? && !crashed && old(serialManager.IsConnected()) && !old(serialManager.ser.ioFails) ==>
        serialManager.ser == old(serialManager.ser) && serialManager.IsConnected()
        && serialManager.ser.written == old(serialManager.ser.written)
           + [Encode(Editing.SetCommand(ButtonNumber(name).value, Editing.ActionToSave(dialog.value)))]
      ensures dialog.Some? && !crashed && old(serialManager.IsConnected()) && old(serialManager.ser.ioFails) ==>
        serialManager.ClosedAfter(old(serialManager.ser), old(serialManager.serialPort))
    {
      prompt, crashed := Editing.EditAction(macroManager, serialManager, name, dialog);
    }

    /** `quitApplication`: logs the quit and closes the connection, but only when the
        manager reports itself connected; a disconnected manager is left as it is. */
    method QuitApplication()
      modifies this, serialManager, serialManager.ser
      ensures events == old(events) + [Log(Info, QuitText)]
      ensures !old(serialManager.IsConnected()) ==>
        serialManager.ser == old(serialManager.ser) && serialManager.serialPort == old(serialManager.serialPort)
        && serialManager.connected == old(serialManager.connected)
        && (serialManager.ser != null ==> unchanged(serialManager.ser))
      ensures old(serialManager.IsConnected()) ==>
        serialManager.ClosedAfter(old(serialManager.ser), old(serialManager.serialPort))
      ensures old(serialManager.IsConnected()) && !old(serialManager.ser.closeFails) ==>
        !serialManager.IsConnected() && serialManager.GetPort() == None
    {
      events := events + [Log(Info, QuitText)];
      if serialManager.IsConnected() {
        serialManager.Close();
      }
    }
  }
}
