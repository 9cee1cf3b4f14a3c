/**
 * MacroPadApp/logic/ConnectionManager.py: the supervision loop that keeps the device
 * connected with exponential backoff, the guard that starts at most one listener, one
 * iteration of the listener, and `stop`.
 *
 * The three callbacks (status, toggle, run action), the logger and `time.sleep` are
 * recorded in the `events` trace. Threads are not modelled: the supervision loop and the
 * listener are methods that a caller interleaves, and a started listener thread is the
 * event `ListenerStarted`. `stop_event` is the flag `stopRequested`.
 */
module Supervisor {
  import opened Wrappers
  import opened Text
  import opened Events
  import opened Serial
  import opened Macros
  import opened Dispatch
  import opened Backoff

  /** The trace of one pass of the supervision loop with retry interval `r`; on a success
      the listener is started unless one already is. */
  function CycleEvents(r: nat, c: Cycle, wasListening: bool): seq<Event> {
    match c
    case AlreadyConnected => [Sleep(2.0)]
    case Connected(port) =>
      [Log(Info, "Attempting auto-connect..."), Status("Connected: " + port)]
      + (if wasListening then [] else [ListenerStarted]) + [Toggle(true)]
    case Failed =>
      [Log(Info, "Attempting auto-connect..."),
       Log(Warning, "Auto-connect failed. Retrying in " + IntToString(r) + " seconds..."),
       Toggle(false), Status("Disconnected"), Sleep(r as real)]
  }

  /** A pass sleeps exactly what the backoff policy prescribes. */
  lemma CycleEventsSleep(r: nat, c: Cycle, wasListening: bool)
    ensures Sleeps(CycleEvents(r, c, wasListening)) == CycleSleep(r, c)
  {
    var t := CycleEvents(r, c, wasListening);
    match c
    case AlreadyConnected =>
      assert t[1..] == [];
    case Connected(_) =>
      NoSleeps(t);
    case Failed =>
      assert t == t[..4] + [Sleep(r as real)];
      SleepsAppend(t[..4], [Sleep(r as real)]);
      NoSleeps(t[..4]);
      assert [Sleep(r as real)][1..] == [];
  }

  /** A pass starts a listener exactly when it connects while none is running. */
  lemma CycleEventsStarts(r: nat, c: Cycle, wasListening: bool)
    ensures ListenerStarts(CycleEvents(r, c, wasListening)) == (if c.Connected? && !wasListening then 1 else 0)
  {
    var t := CycleEvents(r, c, wasListening);
    if c.Connected? && !wasListening {
      assert t == t[..2] + [ListenerStarted] + [Toggle(true)];
      ListenerStartsAppend(t[..2] + [ListenerStarted], [Toggle(true)]);
      ListenerStartsAppend(t[..2], [ListenerStarted]);
      NoListenerStarts(t[..2]);
      NoListenerStarts([Toggle(true)]);
      assert [ListenerStarted][1..] == [];
    } else {
      NoListenerStarts(t);
    }
  }

  /** A pass that starts from a trace with one listener start per `listening` ends in one. */
  lemma PassKeepsOneListener(t0: seq<Event>, r: nat, c: Cycle, wasListening: bool)
    requires ListenerStarts(t0) == (if wasListening then 1 else 0)
    ensures ListenerStarts(t0 + CycleEvents(r, c, wasListening)) == (if wasListening || c.Connected? then 1 else 0)
  {
    CycleEventsStarts(r, c, wasListening);
    ListenerStartsAppend(t0, CycleEvents(r, c, wasListening));
  }

  class ConnectionManager {
    const serialManager: SerialManager
    const macroManager: MacroManager
    var listening: bool
    var running: bool
    var stopRequested: bool
    var events: seq<Event>

    /** `listening` is set exactly when a listener thread has been started, so at most one
        ever is. */
    ghost predicate Valid()
      reads this
    {
      ListenerStarts(events) == (if listening then 1 else 0)
    }

    constructor (serialManager: SerialManager, macroManager: MacroManager)
      ensures this.serialManager == serialManager && this.macroManager == macroManager
      ensures !listening && running && !stopRequested && events == []
      ensures Valid()
    {
      this.serialManager := serialManager;
      this.macroManager := macroManager;
      listening := false;
      running := true;
      stopRequested := false;
      events := [];
    }

    /** `startSerialListener`: starts a listener only when none is running and the device is
        connected. */
    method StartSerialListener()
      requires Valid()
      modifies this
      ensures Valid()
      ensures var starts := !old(listening) && serialManager.IsConnected();
        listening == (old(listening) || starts)
        && events == old(events) + (if starts then [ListenerStarted] else [])
      ensures running == old(running) && stopRequested == old(stopRequested)
    {
      if !listening && serialManager.IsConnected() {
        ListenerStartsAppend(events, [ListenerStarted]);
        assert [ListenerStarted][1..] == [];
        events := events + [ListenerStarted];
        listening := true;
      }
    }

    /** One pass of the `connectionManager` loop with retry interval `retry`, against the
        port enumeration `ports`. `cycle` says what the pass found. */
    method ConnectionCycle(retry: nat, ports: seq<Endpoint>) returns (next: nat, ghost cycle: Cycle)
      requires Valid()
      modifies this, serialManager
      ensures Valid()
      ensures cycle == if old(serialManager.IsConnected()) then AlreadyConnected
                       else if FirstOpening(ports).None? then Failed
                       else Connected(ports[FirstOpening(ports).value].device)
      ensures next == StepRetry(retry, cycle)
      ensures events == old(events) + CycleEvents(retry, cycle, old(listening))
      ensures listening == (old(listening) || cycle.Connected?)
      ensures cycle.Connected? ==> serialManager.IsConnected() && serialManager.GetPort() == Some(cycle.port)
      ensures !cycle.Connected? ==>
        serialManager.ser == old(serialManager.ser) && serialManager.serialPort == old(serialManager.serialPort)
        && serialManager.connected == old(serialManager.connected)
      ensures running == old(running) && stopRequested == old(stopRequested)
    {
      var t0 := events;
      if !serialManager.IsConnected() {
        events := events + [Log(Info, "Attempting auto-connect...")];
        var ok := serialManager.AutoConnect(ports);
        if ok {
          var port := serialManager.GetPort().value;
          cycle := Connected(port);
          ghost var opening := [Log(Info, "Attempting auto-connect..."), Status("Connected: " + port)];
          ListenerStartsAppend(t0, opening);
          NoListenerStarts(opening);
          events := events + [Status("Connected: " + port)];
          assert events == t0 + opening;
          StartSerialListener();
          events := events + [Toggle(true)];
          next := RetryFloor;
        } else {
          cycle := Failed;
          events := events + [Log(Warning, "Auto-connect failed. Retrying in " + IntToString(retry) + " seconds..."),
                              Toggle(false), Status("Disconnected"), Sleep(retry as real)];
          next := NextRetry(retry);
        }
      } else {
        cycle := AlreadyConnected;
        events := events + [Sleep(2.0)];
        next := retry;
      }
      assert events == t0 + CycleEvents(retry, cycle, old(listening));
      PassKeepsOneListener(t0, retry, cycle, old(listening));
    }

    /** `connectionManager`: passes of the supervision loop, one per entry of `schedule` (the
        port enumeration each pass would see), until the schedule ends or a stop is requested.
        The retry interval starts at 2 seconds. */
    method Supervise(schedule: seq<seq<Endpoint>>) returns (retry: nat, ghost cycles: seq<Cycle>)
      requires Valid()
      modifies this, serialManager
      ensures Valid()
      ensures |cycles| == if old(stopRequested) then 0 else |schedule|
      ensures retry == RetryAfter(RetryFloor, cycles) && RetryFloor <= retry <= RetryCap
      ensures Sleeps(events) == Sleeps(old(events)) + SleepsDuring(RetryFloor, cycles)
      ensures ListenerStarts(events) <= 1
      ensures running == old(running) && stopRequested == old(stopRequested)
    {
      retry := RetryFloor;
      cycles := [];
      var k := 0;
      while k < |schedule| && !stopRequested
        invariant 0 <= k <= |schedule| && |cycles| == k
        invariant Valid()
        invariant old(stopRequested) ==> k == 0
        invariant retry == RetryAfter(RetryFloor, cycles) && RetryFloor <= retry <= RetryCap
        invariant Sleeps(events) == Sleeps(old(events)) + SleepsDuring(RetryFloor, cycles)
        invariant running == old(running) && stopRequested == old(stopRequested)
      {
        var before, wasListening := events, listening;
        var next, cycle := ConnectionCycle(retry, schedule[k]);
        CycleEventsSleep(retry, cycle, wasListening);
        PassFacts(old(events), before, CycleEvents(retry, cycle, wasListening), retry, cycles, cycle);
        cycles := cycles + [cycle];
        retry := next;
        k := k + 1;
      }
    }

    /** One iteration of `serialListener` while `running`: read a line; a non-empty line runs
        the first binding (in the dictionary order `order`) whose action equals it, or logs a
        warning; then sleep 10 ms. The read consumes the oldest waiting line, or closes the
        connection when it raises, as `SerialManager.ReadLine` does. When not running the
        listener has exited and nothing happens. */
    method ListenerStep(order: seq<string>)
      requires Valid()
      requires IsEnumeration(order, macroManager.buttonActions)
      modifies this, serialManager, serialManager.ser
      ensures Valid()
      ensures !old(running) ==>
        events == old(events) && unchanged(serialManager)
        && (serialManager.ser != null ==> unchanged(serialManager.ser))
      ensures old(running) && !old(serialManager.IsConnected() && serialManager.ser.waiting != []) ==>
        serialManager.ser == old(serialManager.ser) && serialManager.serialPort == old(serialManager.serialPort)
        && serialManager.connected == old(serialManager.connected)
        && (serialManager.ser != null ==> unchanged(serialManager.ser))
      ensures old(running) && old(serialManager.IsConnected() && serialManager.ser.waiting != [] && !serialManager.ser.ioFails) ==>
        serialManager.ser == old(serialManager.ser) && serialManager.serialPort == old(serialManager.serialPort)
        && serialManager.IsConnected() && serialManager.ser.waiting == old(serialManager.ser.waiting)[1..]
        && serialManager.ser.written == old(serialManager.ser.written)
      ensures old(running) && old(serialManager.IsConnected() && serialManager.ser.waiting != [] && serialManager.ser.ioFails) ==>
        serialManager.ClosedAfter(old(serialManager.ser), old(serialManager.serialPort))
      ensures old(running) ==>
        events == old(events) + ListenerEvents(Items(macroManager.buttonActions, order), old(serialManager.NextLine()))
      ensures listening == old(listening) && running == old(running) && stopRequested == old(stopRequested)
    {
      if running {
        var line := serialManager.ReadLine();
        var step: seq<Event> := [];
        if line.Some? {
          step := DispatchLine(Items(macroManager.buttonActions, order), line.value);
        }
        ListenerStartsAppend(events, step + [Sleep(0.01)]);
        NoStartsInListener(Items(macroManager.buttonActions, order), line);
        events := events + (step + [Sleep(0.01)]);
      }
    }

    /** `stop`: both loops see their flag cleared and exit. */
    method Stop()
      modifies this
      ensures !running && stopRequested
      ensures listening == old(listening) && events == old(events)
    {
      running := false;
      stopRequested := true;
    }
  }

  /** The dispatch of one received line: `DispatchEvents`, computed with the match search. */
  method DispatchLine(items: seq<Binding>, line: string) returns (t: seq<Event>)
    ensures t == DispatchEvents(items, line)
  {
    if line == [] {
      return [];
    }
    var hit := FindMatch(items, line);
    if hit.Some? {
      var name := items[hit.value].0;
      t := [Run(line), Log(Info, "Executed action for " + line + " (mapped to " + name + ")")];
    } else {
      t := [Log(Warning, "No action mapped for " + line)];
    }
  }

  /** The trace of one listener iteration that read `line` (None when nothing was read). */
  function ListenerEvents(items: seq<Binding>, line: Option<string>): seq<Event> {
    (match line case Some(l) => DispatchEvents(items, l) case None => []) + [Sleep(0.01)]
  }

  /** The listener never starts another listener. */
  lemma NoStartsInListener(items: seq<Binding>, line: Option<string>)
    ensures ListenerStarts(ListenerEvents(items, line)) == 0
  {
    NoListenerStarts(ListenerEvents(items, line));
  }
}
