/**
 * The application class of MacroPadApp/gui/MacroPadGUI.py. It owns the serial manager, the
 * binding store and the button panel, and runs the same supervision loop and listener as
 * the connection manager, with the callbacks replaced by direct calls: the status label,
 * `toggleButtons` on its own panel, and `runAction`, which spawns the bound command.
 *
 * As for the connection manager, the logger, the status label (`updateStatus`),
 * `time.sleep`, started listener threads and spawned processes are recorded in `events`.
 * `subprocess.Popen` is an input: `spawnError` is the exception it raises, if any.
 */
module Gui {
  import opened Wrappers
  import opened Text
  import opened Events
  import opened Serial
  import opened Macros
  import opened Dispatch
  import opened Backoff
  import opened Keys
  import opened Panel

  /** The texts the supervision loop logs and shows. */
  const AttemptText: string := "Attempting auto-connect..."
  const ConnectedToText: string := "Connected to "
  const ConnectedText: string := "Connected: "
  const FailedText: string := "Auto-connect failed. Retrying in "
  const SecondsText: string := " seconds..."
  const DisconnectedText: string := "Disconnected"
  const QuitText: string := "Quit button pressed. Closing application."

  /** The trace of one pass of the supervision loop with retry interval `r`. */
  function CycleEvents(r: nat, c: Cycle, wasListening: bool): seq<Event> {
    match c
    case AlreadyConnected => [Sleep(2.0)]
    case Connected(port) =>
      [Log(Info, AttemptText), Log(Info, ConnectedToText + port), Status(ConnectedText + port)]
      + (if wasListening then [] else [ListenerStarted])
    case Failed =>
      [Log(Info, AttemptText),
       Log(Warning, FailedText + IntToString(r) + SecondsText),
       Status(DisconnectedText), Sleep(r as real)]
  }

  /** A pass sleeps exactly what the backoff policy prescribes. */
  lemma CycleEventsSleep(r: nat, c: Cycle, wasListening: bool)
    ensures Sleeps(CycleEvents(r, c, wasListening)) == CycleSleep(r, c)
  {
    var t := CycleEvents(r, c, wasListening);
    match c
    case AlreadyConnected =>
      assert t[1..] == [];
    case Connected(_) =>
      NoSleeps(t);
    case Failed =>
      assert t == t[..3] + [Sleep(r as real)];
      SleepsAppend(t[..3], [Sleep(r as real)]);
      NoSleeps(t[..3]);
      assert [Sleep(r as real)][1..] == [];
  }

  /** A pass starts a listener exactly when it connects while none is running. */
  lemma CycleEventsStarts(r: nat, c: Cycle, wasListening: bool)
    ensures ListenerStarts(CycleEvents(r, c, wasListening)) == (if c.Connected? && !wasListening then 1 else 0)
  {
    var t := CycleEvents(r, c, wasListening);
    if c.Connected? && !wasListening {
      assert t == t[..3] + [ListenerStarted];
      ListenerStartsAppend(t[..3], [ListenerStarted]);
      NoListenerStarts(t[..3]);
      assert [ListenerStarted][1..] == [];
    } else {
      NoListenerStarts(t);
    }
  }

  /** What `runAction(command)` records: the spawned process and its log line, or the
      spawn's exception, logged and not raised. */
  function RunActionEvents(command: string, spawnError: Option<string>): (t: seq<Event>)
    ensures spawnError.None? <==> Spawn(command) in t
    ensures forall e :: e in t && e.Spawn? ==> e.command == command
  {
    match spawnError
    case None => [Spawn(command), Log(Info, "Running command: " + command)]
    case Some(err) => [Log(Error, "Failed to run command " + command + ": " + err)]
  }

  /** `runAction` spawns the command once when the spawn succeeds, and nothing otherwise. */
  lemma RunActionSpawns(command: string, spawnError: Option<string>)
    ensures Spawns(RunActionEvents(command, spawnError)) == if spawnError.None? then 1 else 0
  {
    var t := RunActionEvents(command, spawnError);
    if spawnError.None? {
      assert t == [Spawn(command)] + t[1..];
      SpawnsAppend([Spawn(command)], t[1..]);
      NoSpawns(t[1..]);
      assert [Spawn(command)][1..] == [];
    } else {
      NoSpawns(t);
    }
  }

  /** What one inbound line causes in the GUI's listener: the first matching command is
      handed to `runAction`; no match is a warning. */
  function LineEvents(items: seq<Binding>, line: string, spawnError: Option<string>): seq<Event> {
    if line == [] then []
    else match FirstMatch(items, line)
      case Some(i) =>
        RunActionEvents(items[i].1, spawnError)
        + [Log(Info, "Executed action for " + line + " (mapped to " + items[i].0 + ")")]
      case None => [Log(Warning, "No action mapped for " + line)]
  }

  /** The GUI's listener spawns a process exactly for the lines on which the connection
      manager's listener runs an action, when the spawn does not fail, and the command
      spawned is the one that would run. */
  lemma SpawnsAsDispatched(items: seq<Binding>, line: string, spawnError: Option<string>)
    ensures Spawns(LineEvents(items, line, spawnError))
            == if spawnError.None? then Runs(Dispatch.DispatchEvents(items, line)) else 0
    ensures forall e :: e in LineEvents(items, line, spawnError) && e.Spawn? ==> e.command == line
  {
    DispatchRunsAtMostOnce(items, line);
    if line != [] && FirstMatch(items, line).Some? {
      var i := FirstMatch(items, line).value;
      var tail := [Log(Info, "Executed action for " + line + " (mapped to " + items[i].0 + ")")];
      SpawnsAppend(RunActionEvents(items[i].1, spawnError), tail);
      RunActionSpawns(items[i].1, spawnError);
      NoSpawns(tail);
    } else {
      NoSpawns(LineEvents(items, line, spawnError));
    }
  }

  /** The trace of one listener iteration that read `line`. */
  function ListenerEvents(items: seq<Binding>, line: Option<string>, spawnError: Option<string>): seq<Event> {
    (match line case Some(l) => LineEvents(items, l, spawnError) case None => []) + [Sleep(0.01)]
  }

  /** The listener never starts another listener. */
  lemma NoStartsInListener(items: seq<Binding>, line: Option<string>, spawnError: Option<string>)
    ensures ListenerStarts(ListenerEvents(items, line, spawnError)) == 0
  {
    NoListenerStarts(ListenerEvents(items, line, spawnError));
  }

  /** `n` dots. */
  function Dots(n: nat): (r: string)
    ensures |r| == n && forall i :: 0 <= i < n ==> r[i] == '.'
  {
    seq(n, _ => '.')
  }

  /** The status text `animateStatus` shows for the counter `dots`. */
  function ConnectingText(dots: nat): string {
    "Connecting" + Dots(dots + 1)
  }

  /** The three texts of the animation. */
  const ConnectingTexts: seq<string> := ["Connecting.", "Connecting..", "Connecting..."]

  lemma ConnectingTextAt(dots: nat)
    requires dots < 3
    ensures ConnectingText(dots) == ConnectingTexts[dots]
  {
    assert Dots(dots + 1) == ConnectingTexts[dots][10..];
  }

  /** The trace of the `animateStatus` passes from the counter `dots`, where the device is
      connected at the k-th pass exactly when `connectedAt[k]`. */
  function AnimationEvents(dots: nat, connectedAt: seq<bool>): seq<Event>
    decreases |connectedAt|
  {
    if connectedAt == [] then []
    else if connectedAt[0] then [Sleep(0.5)] + AnimationEvents(dots, connectedAt[1..])
    else [Status(ConnectingText(dots)), Sleep(0.5)] + AnimationEvents((dots + 1) % 3, connectedAt[1..])
  }

  /** The animation only ever shows "Connecting" with one, two or three dots. */
  lemma {:induction false} AnimationShowsDots(dots: nat, connectedAt: seq<bool>)
    requires dots < 3
    ensures forall e :: e in AnimationEvents(dots, connectedAt) && e.Status? ==> e.text in ConnectingTexts
    decreases |connectedAt|
  {
    if connectedAt != [] {
      ConnectingTextAt(dots);
      AnimationShowsDots(if connectedAt[0] then dots else (dots + 1) % 3, connectedAt[1..]);
    }
  }

  /** While the device stays disconnected, the k-th pass shows the text for `(dots + k) % 3`
      and then sleeps half a second: one, two, three dots, and again. */
  lemma {:induction false} AnimationWhileDisconnected(dots: nat, connectedAt: seq<bool>)
    requires dots < 3
    requires forall k :: 0 <= k < |connectedAt| ==> !connectedAt[k]
    ensures var t := AnimationEvents(dots, connectedAt);
      && |t| == 2 * |connectedAt|
      && forall k :: 0 <= k < |connectedAt| ==>
           t[2 * k] == Status(ConnectingText((dots + k) % 3)) && t[2 * k + 1] == Sleep(0.5)
    decreases |connectedAt|
  {
    if connectedAt != [] {
      var d := (dots + 1) % 3;
      AnimationWhileDisconnected(d, connectedAt[1..]);
      var rest := AnimationEvents(d, connectedAt[1..]);
      var t := AnimationEvents(dots, connectedAt);
      assert t == [Status(ConnectingText(dots)), Sleep(0.5)] + rest;
      forall k | 1 <= k < |connectedAt|
        ensures t[2 * k] == Status(ConnectingText((dots + k) % 3)) && t[2 * k + 1] == Sleep(0.5)
      {
        var j := k - 1;
        assert t[2 * k] == rest[2 * j] && t[2 * k + 1] == rest[2 * j + 1];
        NextDots(dots, k);
        assert (d + j) % 3 == (dots + k) % 3;
      }
    }
  }

  lemma NextDots(dots: nat, k: nat)
    requires dots < 3 && 1 <= k
    ensures ((dots + 1) % 3 + (k - 1)) % 3 == (dots + k) % 3
  {
  }

  /** A pass that starts from a trace with one listener start per `listening` ends in one. */
  lemma PassKeepsOneListener(t0: seq<Event>, r: nat, c: Cycle, wasListening: bool)
    requires ListenerStarts(t0) == (if wasListening then 1 else 0)
    ensures ListenerStarts(t0 + CycleEvents(r, c, wasListening)) == (if wasListening || c.Connected? then 1 else 0)
  {
    CycleEventsStarts(r, c, wasListening);
    ListenerStartsAppend(t0, CycleEvents(r, c, wasListening));
  }

  class MacroPadApp {
    const serialManager: SerialManager
    const macroManager: MacroManager
    const panel: ButtonPanel
    var listening: bool
    var running: bool
    var stopRequested: bool
    var events: seq<Event>

    /** At most one listener has been started, and `listening` says whether one has. */
    ghost predicate Valid()
      reads this
    {
      ListenerStarts(events) == (if listening then 1 else 0)
    }

    /** `__init__` with the configuration file `file`: a disconnected serial manager, the
        loaded bindings, and the nine disabled buttons. */
    constructor (file: Option<Actions>)
      ensures Valid()
      ensures fresh(serialManager) && fresh(macroManager) && fresh(panel)
      ensures !serialManager.IsConnected() && serialManager.GetPort() == None
      ensures macroManager.buttonActions == LoadActions(file)
      ensures panel.buttons.Keys == KeyNames() && (forall k :: k in panel.buttons ==> !panel.buttons[k])
      ensures panel.buttonStates == InitialStates()
      ensures !listening && running && !stopRequested && events == []
    {
      var s := new SerialManager();
      var m := new MacroManager(file);
      var p := new ButtonPanel();
      p.CreateWidgets();
      SetupPanel();
      serialManager, macroManager, panel := s, m, p;
      listening := false;
      running := true;
      stopRequested := false;
      events := [];
    }

    /** `startSerialListener`: starts a listener only when none is running and the device is
        connected. */
    method StartSerialListener()
      requires Valid()
      modifies this
      ensures Valid()
      ensures var starts := !old(listening) && serialManager.IsConnected();
        listening == (old(listening) || starts)
        && events == old(events) + (if starts then [ListenerStarted] else [])
      ensures running == old(running) && stopRequested == old(stopRequested)
    {
      if !listening && serialManager.IsConnected() {
        ListenerStartsAppend(events, [ListenerStarted]);
        assert [ListenerStarted][1..] == [];
        events := events + [ListenerStarted];
        listening := true;
      }
    }

    /** One pass of `connectionManager`, reading the connected port with `getPort`. After a
        connection attempt the buttons are enabled exactly when the device is connected. */
    method ConnectionCycle(retry: nat, ports: seq<Endpoint>) returns (next: nat, ghost cycle: Cycle)
      requires Valid()
      modifies this, serialManager, panel
      ensures Valid()
      ensures cycle == if old(serialManager.IsConnected()) then AlreadyConnected
                       else if FirstOpening(ports).None? then Failed
                       else Connected(ports[FirstOpening(ports).value].device)
      ensures next == StepRetry(retry, cycle)
      ensures events == old(events) + CycleEvents(retry, cycle, old(listening))
      ensures listening == (old(listening) || cycle.Connected?)
      ensures cycle.Connected? ==> serialManager.IsConnected() && serialManager.GetPort() == Some(cycle.port)
      ensures !cycle.Connected? ==>
        serialManager.ser == old(serialManager.ser) && serialManager.serialPort == old(serialManager.serialPort)
        && serialManager.connected == old(serialManager.connected)
      ensures cycle.AlreadyConnected? ==> panel.buttons == old(panel.buttons) && panel.buttonStates == old(panel.buttonStates)
      ensures !cycle.AlreadyConnected? ==>
        Toggled(old(panel.buttons), old(panel.buttonStates), panel.buttons, panel.buttonStates, cycle.Connected?)
      ensures !cycle.AlreadyConnected? ==> serialManager.IsConnected() == cycle.Connected?
      ensures running == old(running) && stopRequested == old(stopRequested)
    {
      var t0 := events;
      if !serialManager.IsConnected() {
        var ok := serialManager.AutoConnect(ports);
        if ok {
          var port := serialManager.GetPort().value;
          cycle := Connected(port);
          OnConnected(retry, port);
          next := RetryFloor;
        } else {
          cycle := Failed;
          OnFailed(retry);
          next := NextRetry(retry);
        }
      } else {
        cycle := AlreadyConnected;
        events := events + [Sleep(2.0)];
        next := retry;
      }
      PassKeepsOneListener(t0, retry, cycle, old(listening));
    }

    /** The trace of a pass that connected to `port`: the attempt, the port logged and shown,
        the listener started unless one is running; the buttons are enabled. */
    method OnConnected(retry: nat, port: string)
      requires Valid() && serialManager.IsConnected()
      modifies this, panel
      ensures events == old(events) + CycleEvents(retry, Connected(port), old(listening))
      ensures listening
      ensures Toggled(old(panel.buttons), old(panel.buttonStates), panel.buttons, panel.buttonStates, true)
      ensures running == old(running) && stopRequested == old(stopRequested)
    {
      var opening := [Log(Info, AttemptText), Log(Info, ConnectedToText + port), Status(ConnectedText + port)];
      ListenerStartsAppend(events, opening);
      NoListenerStarts(opening);
      events := events + opening;
      StartSerialListener();
      panel.ToggleButtons(true);
    }

    /** The trace of a pass whose connection attempt failed: the attempt, the warning, the
        state shown, the sleep; the buttons are disabled. */
    method OnFailed(retry: nat)
      modifies this, panel
      ensures events == old(events) + CycleEvents(retry, Failed, old(listening))
      ensures Toggled(old(panel.buttons), old(panel.buttonStates), panel.buttons, panel.buttonStates, false)
      ensures listening == old(listening) && running == old(running) && stopRequested == old(stopRequested)
    {
      events := events + [Log(Info, AttemptText), Log(Warning, FailedText + IntToString(retry) + SecondsText)];
      panel.ToggleButtons(false);
      events := events + [Status(DisconnectedText), Sleep(retry as real)];
    }

    /** The same pass as written: it calls `get_port`, which the serial manager does not
        define, so a successful connect raises AttributeError, ends the supervision thread,
        and leaves the device connected with no listener started and every button still as
        it was. */
    method ConnectionCycleAsWritten(retry: nat, ports: seq<Endpoint>) returns (next: nat, crashed: bool, ghost cycle: Cycle)
      requires Valid()
      modifies this, serialManager, panel
      ensures Valid()
      ensures cycle == if old(serialManager.IsConnected()) then AlreadyConnected
                       else if FirstOpening(ports).None? then Failed
                       else Connected(ports[FirstOpening(ports).value].device)
      ensures crashed <==> cycle.Connected?
      ensures crashed ==>
        && events == old(events) + [Log(Info, AttemptText)]
        && listening == old(listening)
        && serialManager.IsConnected() && serialManager.GetPort() == Some(cycle.port)
        && panel.buttons == old(panel.buttons) && panel.buttonStates == old(panel.buttonStates)
      ensures !crashed ==>
        && next == StepRetry(retry, cycle)
        && events == old(events) + CycleEvents(retry, cycle, old(listening))
        && listening == old(listening)
      ensures running == old(running) && stopRequested == old(stopRequested)
    {
      var t0 := events;
      crashed := false;
      next := retry;
      if !serialManager.IsConnected() {
        var ok := serialManager.AutoConnect(ports);
        if ok {
          cycle := Connected(serialManager.GetPort().value);
          NoListenerStarts([Log(Info, AttemptText)]);
          ListenerStartsAppend(t0, [Log(Info, AttemptText)]);
          events := events + [Log(Info, AttemptText)];
          crashed := true;
          return;
        }
        cycle := Failed;
        OnFailed(retry);
        next := NextRetry(retry);
      } else {
        cycle := AlreadyConnected;
        events := events + [Sleep(2.0)];
      }
      PassKeepsOneListener(t0, retry, cycle, old(listening));
    }

    /** `connectionManager`: passes of the supervision loop, one per entry of `schedule` (the
        port enumeration each pass would see), until the schedule ends or a stop is requested. */
    method Supervise(schedule: seq<seq<Endpoint>>) returns (retry: nat, ghost cycles: seq<Cycle>)
      requires Valid()
      modifies this, serialManager, panel
      ensures Valid()
      ensures |cycles| == if old(stopRequested) then 0 else |schedule|
      ensures retry == RetryAfter(RetryFloor, cycles) && RetryFloor <= retry <= RetryCap
      ensures Sleeps(events) == Sleeps(old(events)) + SleepsDuring(RetryFloor, cycles)
      ensures ListenerStarts(events) <= 1
      ensures running == old(running) && stopRequested == old(stopRequested)
    {
      retry := RetryFloor;
      cycles := [];
      var k := 0;
      while k < |schedule| && !stopRequested
        invariant 0 <= k <= |schedule| && |cycles| == k
        invariant Valid()
        invariant old(stopRequested) ==> k == 0
        invariant retry == RetryAfter(RetryFloor, cycles) && RetryFloor <= retry <= RetryCap
        invariant Sleeps(events) == Sleeps(old(events)) + SleepsDuring(RetryFloor, cycles)
        invariant running == old(running) && stopRequested == old(stopRequested)
      {
        var before, wasListening := events, listening;
        var next, cycle := ConnectionCycle(retry, schedule[k]);
        CycleEventsSleep(retry, cycle, wasListening);
        PassFacts(old(events), before, CycleEvents(retry, cycle, wasListening), retry, cycles, cycle);
        cycles := cycles + [cycle];
        retry := next;
        k := k + 1;
      }
    }

    /** `animateStatus`, while the application runs, over one pass per entry of
        `connectedAt` (whether the device is connected at that pass). */
    method AnimateStatus(connectedAt: seq<bool>)
      modifies this
      ensures running ==> events == old(events) + AnimationEvents(0, connectedAt)
      ensures !running ==> events == old(events)
      ensures listening == old(listening) && running == old(running) && stopRequested == old(stopRequested)
    {
      var dots: nat := 0;
      var t := events;
      var k := 0;
      while running && k < |connectedAt|
        invariant 0 <= k <= |connectedAt| && dots < 3
        invariant running ==> t + AnimationEvents(dots, connectedAt[k..]) == old(events) + AnimationEvents(0, connectedAt)
        invariant !running ==> t == old(events)
      {
        assert connectedAt[k..][1..] == connectedAt[k + 1..];
        if !connectedAt[k] {
          t := t + [Status(ConnectingText(dots))];
          dots := (dots + 1) % 3;
        }
        t := t + [Sleep(0.5)];
        k := k + 1;
      }
      events := t;
    }

    /** One iteration of `serialListener` while `running`, with the bindings visited in the
        dictionary order `order`. The read consumes the oldest waiting line, or closes the
        connection when it raises, as `SerialManager.ReadLine` does. */
    method ListenerStep(order: seq<string>, spawnError: Option<string>)
      requires Valid()
      requires IsEnumeration(order, macroManager.buttonActions)
      modifies this, serialManager, serialManager.ser
      ensures Valid()
      ensures !old(running) ==>
        events == old(events) && unchanged(serialManager)
        && (serialManager.ser != null ==> unchanged(serialManager.ser))
      ensures old(running) && !old(serialManager.IsConnected() && serialManager.ser.waiting != []) ==>
        serialManager.ser == old(serialManager.ser) && serialManager.serialPort == old(serialManager.serialPort)
        && serialManager.connected == old(serialManager.connected)
        && (serialManager.ser != null ==> unchanged(serialManager.ser))
      ensures old(running) && old(serialManager.IsConnected() && serialManager.ser.waiting != [] && !serialManager.ser.ioFails) ==>
        serialManager.ser == old(serialManager.ser) && serialManager.serialPort == old(serialManager.serialPort)
        && serialManager.IsConnected() && serialManager.ser.waiting == old(serialManager.ser.waiting)[1..]
        && serialManager.ser.written == old(serialManager.ser.written)
      ensures old(running) && old(serialManager.IsConnected() && serialManager.ser.waiting != [] && serialManager.ser.ioFails) ==>
        serialManager.ClosedAfter(old(serialManager.ser), old(serialManager.serialPort))
      ensures old(running) ==>
        events == old(events) + ListenerEvents(Items(macroManager.buttonActions, order), old(serialManager.NextLine()), spawnError)
      ensures listening == old(listening) && running == old(running) && stopRequested == old(stopRequested)
    {
      if running {
        var items := Items(macroManager.buttonActions, order);
        var line := serialManager.ReadLine();
        var step: seq<Event> := [];
        if line.Some? {
          step := DispatchLine(items, line.value, spawnError);
        }
        ListenerStartsAppend(events, step + [Sleep(0.01)]);
        NoStartsInListener(items, line, spawnError);
        events := events + (step + [Sleep(0.01)]);
      }
    }

    /** `quitApplication`: logs the quit and sets the stop event. The connection is not
        closed: the handle it tests, `serial_connection`, is never assigned after
        `__init__` sets it to None, so the serial manager is untouched. */
    method QuitApplication()
      requires Valid()
      modifies this
      ensures Valid()
      ensures events == old(events) + [Log(Info, QuitText)]
      ensures stopRequested
      ensures listening == old(listening) && running == old(running)
    {
      ListenerStartsAppend(events, [Log(Info, QuitText)]);
      NoListenerStarts([Log(Info, QuitText)]);
      events := events + [Log(Info, QuitText)];
      stopRequested := true;
    }
  }

  /** `runAction(command)`: the trace of the call. */
  method RunAction(command: string, spawnError: Option<string>) returns (t: seq<Event>)
    ensures t == RunActionEvents(command, spawnError)
  {
    match spawnError {
      case None =>
        t := [Spawn(command), Log(Info, "Running command: " + command)];
      case Some(err) =>
        t := [Log(Error, "Failed to run command " + command + ": " + err)];
    }
  }

  /** The body of the listener for a line it read: the `for ... break ... else` scan, with
      the first match handed to `runAction`. */
  method DispatchLine(items: seq<Binding>, line: string, spawnError: Option<string>) returns (t: seq<Event>)
    ensures t == LineEvents(items, line, spawnError)
  {
    t := [];
    if line != [] {
      var hit := FindMatch(items, line);
      if hit.Some? {
        t := RunAction(items[hit.value].1, spawnError);
        t := t + [Log(Info, "Executed action for " + line + " (mapped to " + items[hit.value].0 + ")")];
      } else {
        t := [Log(Warning, "No action mapped for " + line)];
      }
    }
  }
}
