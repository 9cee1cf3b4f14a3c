/**
 * Match-and-dispatch, the body of `serialListener` in MacroPadApp/logic/ConnectionManager.py
 * (and its copy in MacroPadGUI.py): a non-empty inbound line is compared with the bindings
 * in the dictionary's iteration order, and the first binding whose command equals the line
 * is run, once.
 *
 * A Python dict iterates in insertion order, which the map model of the binding store
 * does not keep; the scan therefore takes the iteration order as an input, and every
 * property below holds for every order.
 */
module Dispatch {
  import opened Wrappers
  import opened Events

  /** `(button_name, command)`, one item of `getAllActions().items()`. */
  type Binding = (string, string)

  /** `order` lists every key of `m` exactly once, as iterating over the dict does. */
  predicate IsEnumeration(order: seq<string>, m: map<string, string>) {
    && (forall k :: 0 <= k < |order| ==> order[k] in m)
    && (forall key :: key in m ==> key in order)
    && (forall i, j :: 0 <= i < j < |order| ==> order[i] != order[j])
  }

  /** The items of `m`, visited in the order `order`. */
  function Items(m: map<string, string>, order: seq<string>): (r: seq<Binding>)
    requires forall k :: 0 <= k < |order| ==> order[k] in m
    ensures |r| == |order| && forall k :: 0 <= k < |r| ==> r[k] == (order[k], m[order[k]])
  {
    seq(|order|, k requires 0 <= k < |order| => (order[k], m[order[k]]))
  }

  /** The position of the first binding whose command equals `line`. */
  function FirstMatch(items: seq<Binding>, line: string): (r: Option<nat>)
    ensures r.Some? ==> r.value < |items| && items[r.value].1 == line
    ensures r.Some? ==> forall j :: 0 <= j < r.value ==> items[j].1 != line
    ensures r.None? ==> forall j :: 0 <= j < |items| ==> items[j].1 != line
  {
    if items == [] then None
    else if items[0].1 == line then Some(0)
    else match FirstMatch(items[1..], line)
      case None => None
      case Some(i) => Some(i + 1)
  }

  /** The `for ... break ... else` scan over the bindings. */
  method FindMatch(items: seq<Binding>, line: string) returns (hit: Option<nat>)
    ensures hit == FirstMatch(items, line)
  {
    var i := 0;
    while i < |items|
      invariant 0 <= i <= |items|
      invariant forall j :: 0 <= j < i ==> items[j].1 != line
    {
      if items[i].1 == line {
        FirstMatchUnique(items, line, i);
        return Some(i);
      }
      i := i + 1;
    }
    FirstMatchNone(items, line);
    return None;
  }

  /** The first match is the only position that is a match with no match before it. */
  lemma FirstMatchUnique(items: seq<Binding>, line: string, i: nat)
    requires i < |items| && items[i].1 == line
    requires forall j :: 0 <= j < i ==> items[j].1 != line
    ensures FirstMatch(items, line) == Some(i)
  {
  }

  lemma FirstMatchNone(items: seq<Binding>, line: string)
    requires forall j :: 0 <= j < |items| ==> items[j].1 != line
    ensures FirstMatch(items, line) == None
  {
  }

  /** What one inbound line causes through the `run_action` callback and the logger:
      nothing for an empty line, the first matching command run and logged, or a warning. */
  function DispatchEvents(items: seq<Binding>, line: string): seq<Event> {
    if line == [] then []
    else match FirstMatch(items, line)
      case Some(i) =>
        [Run(items[i].1), Log(Info, "Executed action for " + line + " (mapped to " + items[i].0 + ")")]
      case None => [Log(Warning, "No action mapped for " + line)]
  }

  /** Exactly one action runs for a non-empty line that some binding equals, none otherwise;
      the action run is the line itself, and no warning is logged when it runs. */
  lemma DispatchRunsAtMostOnce(items: seq<Binding>, line: string)
    ensures var t := DispatchEvents(items, line);
      && Runs(t) == (if line != [] && FirstMatch(items, line).Some? then 1 else 0)
      && (forall e :: e in t && e.Run? ==> e.command == line && e.command != [])
      && (line != [] && FirstMatch(items, line).None? ==> t == [Log(Warning, "No action mapped for " + line)])
  {
    var t := DispatchEvents(items, line);
    if line != [] && FirstMatch(items, line).Some? {
      var i := FirstMatch(items, line).value;
      assert t == [Run(items[i].1)] + [Log(Info, "Executed action for " + line + " (mapped to " + items[i].0 + ")")];
      RunsAppend([Run(items[i].1)], [Log(Info, "Executed action for " + line + " (mapped to " + items[i].0 + ")")]);
    }
  }

  /** A binding to the empty command never fires: empty lines are skipped before the scan. */
  lemma EmptyBindingNeverFires(items: seq<Binding>, line: string, i: nat)
    requires i < |items| && items[i].1 == []
    ensures forall e :: e in DispatchEvents(items, line) ==> !(e.Run? && e.command == items[i].1)
  {
  }

  /** Some binding matches exactly when the line is one of the bound commands, whatever
      order the bindings are visited in. */
  lemma MatchIffBound(m: map<string, string>, order: seq<string>, line: string)
    requires IsEnumeration(order, m)
    ensures FirstMatch(Items(m, order), line).Some? <==> exists key :: key in m && m[key] == line
  {
    var items := Items(m, order);
    var r := FirstMatch(items, line);
    if r.Some? {
      assert order[r.value] in m && m[order[r.value]] == line;
    }
  }

  /** Two iteration orders of the same bindings run the same command for every line:
      the order can only change which key the log credits. */
  lemma DispatchOrderIndependent(m: map<string, string>, o1: seq<string>, o2: seq<string>, line: string)
    requires IsEnumeration(o1, m) && IsEnumeration(o2, m)
    ensures Runs(DispatchEvents(Items(m, o1), line)) == Runs(DispatchEvents(Items(m, o2), line))
    ensures FirstMatch(Items(m, o1), line).Some? == FirstMatch(Items(m, o2), line).Some?
  {
    MatchIffBound(m, o1, line);
    MatchIffBound(m, o2, line);
    DispatchRunsAtMostOnce(Items(m, o1), line);
    DispatchRunsAtMostOnce(Items(m, o2), line);
  }
}
