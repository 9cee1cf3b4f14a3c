/**
 * `editAction` of MacroPadApp/gui/MacroPadGUI.py and MacroPadApp/gui/UIController.py (the two
 * bodies are the same): the "EMPTY" sentinel shown for an unbound button and stored as the
 * empty string, the binding update, the button number read back from the name, and the
 * `SET<n><action>\n` message pushed to the device while connected.
 *
 * The `simpledialog.askstring` result is the input `dialog` (None when cancelled); the
 * prompt's initial text is returned as `prompt`.
 */
module Editing {
  import opened Wrappers
  import opened Text
  import opened Keys
  import opened Serial
  import opened Macros

  /** Shown in the dialog for a button without a binding. */
  const Sentinel: string := "EMPTY"

  /** The dialog's initial text for the current binding. */
  function DisplayedAction(current: string): (shown: string)
    ensures shown != []
    ensures shown == Sentinel <==> current == [] || current == Sentinel
  {
    if current == [] then Sentinel else current
  }

  /** What is stored for the entered text. */
  function ActionToSave(entered: string): (action: string)
    ensures action == [] <==> entered == [] || entered == Sentinel
    ensures action != Sentinel
  {
    if entered == Sentinel then [] else entered
  }

  /** Accepting the dialog unchanged stores the binding it showed, except a binding that is
      literally "EMPTY", which comes back as the empty binding. */
  lemma SentinelRoundTrip(current: string)
    ensures ActionToSave(DisplayedAction(current)) == if current == Sentinel then [] else current
  {
  }

  /** The push message `f"SET{n}{action}\n"`. */
  function SetCommand(n: int, action: string): string {
    "SET" + IntToString(n) + action + "\n"
  }

  /** For one of the nine buttons the message is "SET", one digit, the action and a newline,
      and its UTF-8 bytes are the ASCII codes of those four parts around the action's own
      encoding. */
  lemma SetCommandOfKey(name: string, action: string)
    requires name in KeyNames()
    ensures ButtonNumber(name).Some?
    ensures var n := ButtonNumber(name).value;
      && 1 <= n <= 9
      && SetCommand(n, action) == "SET" + [DigitChar(n)] + action + "\n"
      && Encode(SetCommand(n, action)) == [83, 69, 84, (48 + n) as byte] + Encode(action) + [10]
  {
    KeyNamesNumbered(name);
    var n := ButtonNumber(name).value;
    assert IntToString(n) == [DigitChar(n)];
    var head := "SET" + [DigitChar(n)];
    assert SetCommand(n, action) == head + action + "\n";
    EncodeAppend(head + action, "\n");
    EncodeAppend(head, action);
    EncodeAscii(head);
    EncodeAscii("\n");
    assert Encode(head) == [83, 69, 84, (48 + n) as byte];
  }

  /** `editAction(name)`. A cancelled dialog changes nothing. Otherwise the entered text is
      stored (and saved) through `setActions`, then the button number is read from the name:
      when that fails, the exception ends the call (`crashed`); when it succeeds and the device
      is connected, the SET message is written to it. */
  method EditAction(macros: MacroManager, serial: SerialManager, name: string, dialog: Option<string>)
    returns (prompt: string, crashed: bool)
    modifies macros, serial, serial.ser
    ensures prompt == DisplayedAction(old(macros.GetAction(name)))
    ensures crashed <==> dialog.Some? && ButtonNumber(name).None?
    ensures dialog.None? ==> macros.buttonActions == old(macros.buttonActions) && macros.configFile == old(macros.configFile)
    ensures dialog.Some? ==>
      macros.buttonActions == old(macros.buttonActions)[name := ActionToSave(dialog.value)]
      && macros.configFile == Some(macros.buttonActions)
    ensures !(dialog.Some? && !crashed && old(serial.IsConnected())) ==>
      serial.ser == old(serial.ser) && serial.serialPort == old(serial.serialPort)
      && serial.connected == old(serial.connected) && (serial.ser != null ==> unchanged(serial.ser))
    ensures dialog.Some? && !crashed && old(serial.IsConnected()) && !old(serial.ser.ioFails) ==>
      serial.ser == old(serial.ser) && serial.IsConnected()
      && serial.ser.written == old(serial.ser.written) + [Encode(SetCommand(ButtonNumber(name).value, ActionToSave(dialog.value)))]
    ensures dialog.Some? && !crashed && old(serial.IsConnected()) && old(serial.ser.ioFails) ==>
      serial.ClosedAfter(old(serial.ser), old(serial.serialPort))
  {
    prompt := DisplayedAction(macros.GetAction(name));
    crashed := false;
    if dialog.Some? {
      var action := ActionToSave(dialog.value);
      macros.SetActions(name, action);
      var n := ButtonNumber(name);
      if n.None? {
        crashed := true;
        return;
      }
      if serial.IsConnected() {
        serial.Write(Encode(SetCommand(n.value, action)));
      }
    }
  }
}
