/**
 * The keypad firmware: nine buttons on pull-up inputs, read once per pass; a button
 * that goes from HIGH to LOW presses its key and one that goes back to HIGH releases it.
 * A pin level is a `bool` (`true` is HIGH); the pin readings of one pass are an input,
 * and the key presses and releases are the output, in button order.
 */
module Firmware {

  const NumButtons := 9

  /** `button_pins`: button i is wired to pin i + 2. */
  const ButtonPins: seq<int> := [2, 3, 4, 5, 6, 7, 8, 9, 10]

  /** `key_chars`: button i types the digit '1' + i. */
  const KeyChars: seq<char> := ['1', '2', '3', '4', '5', '6', '7', '8', '9']

  datatype KeyEvent = Press(key: char) | Release(key: char)

  /** Button i uses pin i + 2 and key '1' + i, so no two buttons share a key. */
  lemma PinsAndKeys()
    ensures |ButtonPins| == |KeyChars| == NumButtons
    ensures forall i :: 0 <= i < NumButtons ==> ButtonPins[i] == i + 2 && KeyChars[i] as int == '1' as int + i
    ensures forall i, j :: 0 <= i < NumButtons && 0 <= j < NumButtons && KeyChars[i] == KeyChars[j] ==> i == j
  {
  }

  /** What one button emits when its level goes from `last` to `now`: a press on a fall to
      LOW, a release on a rise to HIGH, nothing when the level is unchanged. */
  function ButtonEdge(last: bool, now: bool, key: char): seq<KeyEvent> {
    if now != last && !now then [Press(key)]
    else if now != last && now then [Release(key)]
    else []
  }

  /** The events of the first `n` buttons of a pass, in button order. */
  function EdgesUpTo(last: seq<bool>, now: seq<bool>, n: nat): seq<KeyEvent>
    requires n <= |last| == |now| == NumButtons
  {
    if n == 0 then [] else EdgesUpTo(last, now, n - 1) + ButtonEdge(last[n - 1], now[n - 1], KeyChars[n - 1])
  }

  /** The events of a whole pass from the levels `last` to the readings `now`. */
  function Edges(last: seq<bool>, now: seq<bool>): seq<KeyEvent>
    requires |last| == |now| == NumButtons
  {
    EdgesUpTo(last, now, NumButtons)
  }

  /** The events of `t` for the key `c`, in order. */
  function KeyEvents(t: seq<KeyEvent>, c: char): (r: seq<KeyEvent>)
    ensures forall e :: e in r <==> e in t && e.key == c
  {
    if t == [] then []
    else
      assert t == t[..|t| - 1] + [t[|t| - 1]];
      KeyEvents(t[..|t| - 1], c) + (if t[|t| - 1].key == c then [t[|t| - 1]] else [])
  }

  lemma {:induction false} KeyEventsAppend(a: seq<KeyEvent>, b: seq<KeyEvent>, c: char)
    ensures KeyEvents(a + b, c) == KeyEvents(a, c) + KeyEvents(b, c)
  {
    if b == [] {
      assert a + b == a;
    } else {
      assert (a + b)[..|a + b| - 1] == a + b[..|b| - 1];
      KeyEventsAppend(a, b[..|b| - 1], c);
    }
  }

  /** In a pass, key i sees exactly its own button's edge: the other buttons' events carry
      other keys. */
  lemma {:induction false} EdgesOfKey(last: seq<bool>, now: seq<bool>, n: nat, i: nat)
    requires n <= |last| == |now| == NumButtons && i < NumButtons
    ensures KeyEvents(EdgesUpTo(last, now, n), KeyChars[i]) ==
      if i < n then ButtonEdge(last[i], now[i], KeyChars[i]) else []
  {
    if n > 0 {
      var m := n - 1;
      var e := ButtonEdge(last[m], now[m], KeyChars[m]);
      EdgesOfKey(last, now, m, i);
      KeyEventsAppend(EdgesUpTo(last, now, m), e, KeyChars[i]);
      KeyEventsOfEdge(last[m], now[m], KeyChars[m], KeyChars[i]);
      if m != i {
        assert KeyChars[m] != KeyChars[i] by { PinsAndKeys(); }
      }
    }
  }

  /** A button's edge carries only its own key. */
  lemma KeyEventsOfEdge(last: bool, now: bool, key: char, c: char)
    ensures KeyEvents(ButtonEdge(last, now, key), c) == if key == c then ButtonEdge(last, now, key) else []
  {
    var e := ButtonEdge(last, now, key);
    if e != [] {
      assert e[..0] == [];
    }
  }

  /** In a pass, button i presses its key exactly when it fell from HIGH to LOW and
      releases it exactly when it rose back to HIGH, and emits at most one event. */
  lemma EdgeMeaning(last: seq<bool>, now: seq<bool>, i: nat)
    requires |last| == |now| == NumButtons && i < NumButtons
    ensures Press(KeyChars[i]) in Edges(last, now) <==> last[i] && !now[i]
    ensures Release(KeyChars[i]) in Edges(last, now) <==> !last[i] && now[i]
    ensures |KeyEvents(Edges(last, now), KeyChars[i])| <= 1
    ensures last[i] == now[i] ==> KeyEvents(Edges(last, now), KeyChars[i]) == []
  {
    EdgesOfKey(last, now, NumButtons, i);
    assert Press(KeyChars[i]) in Edges(last, now) <==> Press(KeyChars[i]) in KeyEvents(Edges(last, now), KeyChars[i]);
    assert Release(KeyChars[i]) in Edges(last, now) <==> Release(KeyChars[i]) in KeyEvents(Edges(last, now), KeyChars[i]);
  }

  // ---------------------------------------------------------------- many passes

  function AllHigh(): seq<bool> {
    seq(NumButtons, i => true)
  }

  predicate Readings(passes: seq<seq<bool>>) {
    forall p :: 0 <= p < |passes| ==> |passes[p]| == NumButtons
  }

  /** The levels after the passes `passes`, from `init`: the last pass's readings. */
  function LevelsAfter(init: seq<bool>, passes: seq<seq<bool>>): seq<bool> {
    if passes == [] then init else passes[|passes| - 1]
  }

  /** Every event of the passes `passes`, from the levels `init`. */
  function History(init: seq<bool>, passes: seq<seq<bool>>): seq<KeyEvent>
    requires |init| == NumButtons && Readings(passes)
  {
    if passes == [] then []
    else
      var front := passes[..|passes| - 1];
      History(init, front) + Edges(LevelsAfter(init, front), passes[|passes| - 1])
  }

  /** Presses and releases alternate, starting with a press. */
  predicate Alternates(t: seq<KeyEvent>) {
    forall k :: 0 <= k < |t| ==> (t[k].Press? <==> k % 2 == 0)
  }

  /** From the all-HIGH start `setup` leaves, each key's events alternate press, release,
      press, …, so no key is released before it is pressed, and the key is held down
      (its last event a press) exactly when its button is LOW now. */
  lemma {:induction false} Alternation(passes: seq<seq<bool>>, i: nat)
    requires Readings(passes) && i < NumButtons
    ensures var t := KeyEvents(History(AllHigh(), passes), KeyChars[i]);
      Alternates(t) && (|t| % 2 == 1 <==> !LevelsAfter(AllHigh(), passes)[i])
  {
    if passes != [] {
      var front := passes[..|passes| - 1];
      var last, now := LevelsAfter(AllHigh(), front), passes[|passes| - 1];
      assert Readings(front);
      Alternation(front, i);
      assert |last| == NumButtons;
      KeyEventsAppend(History(AllHigh(), front), Edges(last, now), KeyChars[i]);
      EdgesOfKey(last, now, NumButtons, i);
      AlternationStep(KeyEvents(History(AllHigh(), front), KeyChars[i]), last[i], now[i], KeyChars[i]);
    }
  }

  /** One more pass keeps a key's events alternating, and a key whose events so far end in
      a press (odd length) is exactly one whose button is LOW. */
  lemma AlternationStep(t: seq<KeyEvent>, last: bool, now: bool, key: char)
    requires Alternates(t) && (|t| % 2 == 1 <==> !last)
    ensures Alternates(t + ButtonEdge(last, now, key))
    ensures |t + ButtonEdge(last, now, key)| % 2 == 1 <==> !now
  {
    var u := t + ButtonEdge(last, now, key);
    forall k | 0 <= k < |u|
      ensures u[k].Press? <==> k % 2 == 0
    {
      if k < |t| {
        assert u[k] == t[k];
      }
    }
  }

  // ---------------------------------------------------------------- the sketch

  /** The sketch's two global arrays. */
  class Keypad {
    const buttonState: array<bool>
    const lastButtonState: array<bool>

    predicate Valid()
      reads this
    {
      buttonState.Length == NumButtons && lastButtonState.Length == NumButtons && buttonState != lastButtonState
    }

    /** The globals before `setup`: nine zero-initialised (LOW) entries each. */
    constructor ()
      ensures Valid() && fresh(buttonState) && fresh(lastButtonState)
      ensures forall i :: 0 <= i < NumButtons ==> !buttonState[i] && !lastButtonState[i]
    {
      buttonState := new bool[NumButtons](i => false);
      lastButtonState := new bool[NumButtons](i => false);
    }

    /** `setup`: configures the nine pins, in order, as pulled-up inputs and records every
        button as released (HIGH) in both arrays. */
    method Setup() returns (pins: seq<int>)
      requires Valid()
      modifies buttonState, lastButtonState
      ensures buttonState[..] == AllHigh() && lastButtonState[..] == AllHigh()
      ensures pins == ButtonPins
    {
      pins := [];
      for i := 0 to NumButtons
        invariant forall k :: 0 <= k < i ==> buttonState[k] && lastButtonState[k]
        invariant pins == ButtonPins[..i]
      {
        pins := pins + [ButtonPins[i]];
        buttonState[i] := true;
        lastButtonState[i] := true;
      }
    }

    /** `loop`: one pass over the buttons with the pin readings `readings`; both arrays end
        up holding the readings, and the events are the edges from the levels of the
        previous pass. */
    method Loop(readings: seq<bool>) returns (events: seq<KeyEvent>)
      requires Valid() && |readings| == NumButtons
      modifies buttonState, lastButtonState
      ensures buttonState[..] == readings && lastButtonState[..] == readings
      ensures events == Edges(old(lastButtonState[..]), readings)
    {
      ghost var last := lastButtonState[..];
      events := [];
      for i := 0 to NumButtons
        invariant forall k :: 0 <= k < i ==> buttonState[k] == readings[k] && lastButtonState[k] == readings[k]
        invariant forall k :: i <= k < NumButtons ==> lastButtonState[k] == last[k]
        invariant events == EdgesUpTo(last, readings, i)
      {
        buttonState[i] := readings[i];
        if buttonState[i] != lastButtonState[i] && !buttonState[i] {
          events := events + [Press(KeyChars[i])];
        } else if buttonState[i] != lastButtonState[i] && buttonState[i] {
          events := events + [Release(KeyChars[i])];
        }
        lastButtonState[i] := buttonState[i];
      }
    }
  }
}
