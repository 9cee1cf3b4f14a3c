/**
 * The observable effects of the application's background loops, recorded in order
 * instead of performed: logger calls, the status and button-toggle callbacks, sleeps,
 * listener threads started, actions run and processes spawned.
 */
module Events {

  datatype Level = Info | Warning | Error

  datatype Event =
    | Log(level: Level, text: string)   // Logger.info / Logger.warning / Logger.error
    | Status(text: string)              // update_status callback
    | Toggle(enable: bool)              // toggle_buttons callback
    | Sleep(seconds: real)              // time.sleep
    | ListenerStarted                   // a serialListener thread is started
    | Run(command: string)              // run_action callback
    | Spawn(command: string)            // subprocess.Popen(command, shell=True)

  /** The sleeps of a trace, in order. */
  function Sleeps(t: seq<Event>): seq<real> {
    if t == [] then []
    else (if t[0].Sleep? then [t[0].seconds] else []) + Sleeps(t[1..])
  }

  /** How many listener threads a trace starts. */
  function ListenerStarts(t: seq<Event>): nat {
    if t == [] then 0 else (if t[0].ListenerStarted? then 1 else 0) + ListenerStarts(t[1..])
  }

  /** How many actions a trace runs. */
  function Runs(t: seq<Event>): nat {
    if t == [] then 0 else (if t[0].Run? then 1 else 0) + Runs(t[1..])
  }

  /** How many processes a trace spawns. */
  function Spawns(t: seq<Event>): nat {
    if t == [] then 0 else (if t[0].Spawn? then 1 else 0) + Spawns(t[1..])
  }

  lemma {:induction false} SleepsAppend(a: seq<Event>, b: seq<Event>)
    ensures Sleeps(a + b) == Sleeps(a) + Sleeps(b)
  {
    if a == [] {
      assert a + b == b;
    } else {
      assert (a + b)[1..] == a[1..] + b;
      SleepsAppend(a[1..], b);
    }
  }

  lemma {:induction false} ListenerStartsAppend(a: seq<Event>, b: seq<Event>)
    ensures ListenerStarts(a + b) == ListenerStarts(a) + ListenerStarts(b)
  {
    if a == [] {
      assert a + b == b;
    } else {
      assert (a + b)[1..] == a[1..] + b;
      ListenerStartsAppend(a[1..], b);
    }
  }

  lemma {:induction false} RunsAppend(a: seq<Event>, b: seq<Event>)
    ensures Runs(a + b) == Runs(a) + Runs(b)
  {
    if a == [] {
      assert a + b == b;
    } else {
      assert (a + b)[1..] == a[1..] + b;
      RunsAppend(a[1..], b);
    }
  }

  lemma {:induction false} SpawnsAppend(a: seq<Event>, b: seq<Event>)
    ensures Spawns(a + b) == Spawns(a) + Spawns(b)
  {
    if a == [] {
      assert a + b == b;
    } else {
      assert (a + b)[1..] == a[1..] + b;
      SpawnsAppend(a[1..], b);
    }
  }

  /** A trace without sleeps sleeps nothing. */
  lemma {:induction false} NoSleeps(t: seq<Event>)
    requires forall i :: 0 <= i < |t| ==> !t[i].Sleep?
    ensures Sleeps(t) == []
  {
    if t != [] {
      NoSleeps(t[1..]);
    }
  }

  /** A trace without `Spawn` spawns nothing. */
  lemma {:induction false} NoSpawns(t: seq<Event>)
    requires forall i :: 0 <= i < |t| ==> !t[i].Spawn?
    ensures Spawns(t) == 0
  {
    if t != [] {
      NoSpawns(t[1..]);
    }
  }

  /** A trace without `ListenerStarted` starts no listener. */
  lemma {:induction false} NoListenerStarts(t: seq<Event>)
    requires forall i :: 0 <= i < |t| ==> !t[i].ListenerStarted?
    ensures ListenerStarts(t) == 0
  {
    if t != [] {
      NoListenerStarts(t[1..]);
    }
  }
}
