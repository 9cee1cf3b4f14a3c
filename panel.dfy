/**
 * The keypad panel of MacroPadApp/gui/MacroPadGUI.py and MacroPadApp/gui/UIController.py
 * (the two files carry the same code): the widget dictionary `buttons`, the
 * `button_states` dictionary, `createWidgets` and `toggleButtons`.
 *
 * A tkinter button is reduced to whether it is enabled (`state='normal'`) or not.
 */
module Panel {
  import opened Keys

  /** `keypad_order`: the keypad rows from top to bottom. */
  const KeypadOrder: seq<seq<int>> := [[7, 8, 9], [4, 5, 6], [1, 2, 3]]

  /** The keypad read row by row: the number placed at each step of the nested loop. */
  function Cells(): (c: seq<int>)
    ensures |c| == 9
  {
    KeypadOrder[0] + KeypadOrder[1] + KeypadOrder[2]
  }

  /** Step `3 * i + j` of the nested loop places `KeypadOrder[i][j]`. */
  lemma CellAt(i: nat, j: nat)
    requires i < 3 && j < 3
    ensures Cells()[3 * i + j] == KeypadOrder[i][j]
  {
    assert Cells() == [7, 8, 9, 4, 5, 6, 1, 2, 3];
  }

  /** The keypad layout places each of the numbers 1..9 exactly once. */
  lemma KeypadPlacesEachOnce()
    ensures forall i :: i in Cells() <==> 1 <= i <= 9
    ensures forall k, l :: 0 <= k < l < 9 ==> Cells()[k] != Cells()[l]
  {
    assert Cells() == [7, 8, 9, 4, 5, 6, 1, 2, 3];
  }

  /** The names the nested loop registers, in order (`LayoutAt` ties each to its cell). */
  function Layout(): (names: seq<string>)
    ensures |names| == 9
  {
    [KeyName(7), KeyName(8), KeyName(9), KeyName(4), KeyName(5), KeyName(6), KeyName(1), KeyName(2), KeyName(3)]
  }

  /** Step `3 * i + j` of the nested loop registers the name of `KeypadOrder[i][j]`. */
  lemma LayoutAt(i: nat, j: nat)
    requires i < 3 && j < 3
    ensures Layout()[3 * i + j] == KeyName(KeypadOrder[i][j])
  {
    CellAt(i, j);
  }

  /** The loop registers exactly the nine buttons. */
  lemma LayoutNames()
    ensures forall name :: name in Layout() <==> name in KeyNames()
  {
    KeypadPlacesEachOnce();
    forall name | name in KeyNames()
      ensures name in Layout()
    {
      var i :| 1 <= i <= 9 && name == KeyName(i);
      assert i in Cells();
      var k :| 0 <= k < 9 && Cells()[k] == i;
      assert Layout()[k] == name;
    }
  }

  /** A dictionary `m` after the first n names of `names` have been set to `v`. */
  function Register<V>(m: map<string, V>, names: seq<string>, n: nat, v: V): map<string, V>
    requires n <= |names|
  {
    if n == 0 then m else Register(m, names, n - 1, v)[names[n - 1] := v]
  }

  lemma {:induction false} RegisterPlaced<V>(m: map<string, V>, names: seq<string>, n: nat, v: V)
    requires n <= |names|
    ensures forall k :: k in Register(m, names, n, v) <==> k in m || k in names[..n]
    ensures forall k :: k in names[..n] ==> Register(m, names, n, v)[k] == v
    ensures forall k :: k in m && k !in names[..n] ==> Register(m, names, n, v)[k] == m[k]
  {
    if n > 0 {
      RegisterPlaced(m, names, n - 1, v);
      assert names[..n] == names[..n - 1] + [names[n - 1]];
    }
  }

  /** The whole loop sets exactly the nine button names to `v` and leaves every other entry. */
  lemma RegisterAll<V>(m: map<string, V>, v: V)
    ensures Register(m, Layout(), |Layout()|, v).Keys == m.Keys + KeyNames()
    ensures forall k :: k in KeyNames() ==> Register(m, Layout(), |Layout()|, v)[k] == v
    ensures forall k :: k in m && k !in KeyNames() ==> Register(m, Layout(), |Layout()|, v)[k] == m[k]
  {
    RegisterPlaced(m, Layout(), |Layout()|, v);
    LayoutNames();
    assert Layout()[..|Layout()|] == Layout();
  }

  /** The entry `toggleButtons` writes into `button_states`. */
  function ButtonStatus(enable: bool): string {
    if enable then "Connected" else "Disconnected"
  }

  /** `{f"Button {i} pressed": "Disabled" for i in range(1, 10)}`. */
  function InitialStates(): (m: map<string, string>)
    ensures m.Keys == KeyNames()
    ensures forall k :: k in m ==> m[k] == "Disabled"
  {
    map k | k in KeyNames() :: "Disabled"
  }

  class ButtonPanel {
    var buttons: map<string, bool>         // `self.buttons`: each widget and whether it is enabled
    var buttonStates: map<string, string>  // `self.button_states`

    /** The panel as `__init__` sets it up before `createWidgets`: no widgets, nine
        "Disabled" states. */
    constructor ()
      ensures buttons == map[] && buttonStates == InitialStates()
    {
      buttons := map[];
      buttonStates := InitialStates();
    }

    /** `createWidgets`: for each keypad cell, row by row, registers the disabled button
        "Button n pressed" and records it as "Disabled". */
    method CreateWidgets()
      modifies this
      ensures buttons == Register(old(buttons), Layout(), |Layout()|, false)
      ensures buttonStates == Register(old(buttonStates), Layout(), |Layout()|, "Disabled")
    {
      var b, s := buttons, buttonStates;
      for i := 0 to 3
        invariant b == Register(old(buttons), Layout(), 3 * i, false)
        invariant s == Register(old(buttonStates), Layout(), 3 * i, "Disabled")
      {
        for j := 0 to 3
          invariant b == Register(old(buttons), Layout(), 3 * i + j, false)
          invariant s == Register(old(buttonStates), Layout(), 3 * i + j, "Disabled")
        {
          var idx := KeypadOrder[i][j];
          var name := KeyName(idx);
          LayoutAt(i, j);
          b := b[name := false];
          s := s[name := "Disabled"];
        }
      }
      buttons, buttonStates := b, s;
    }

    /** `toggleButtons(enable)`: every registered button is enabled or disabled and its state
        set to "Connected" or "Disconnected"; no button is added or removed, and a button
        without a tracked state gets one. */
    method ToggleButtons(enable: bool)
      modifies this
      ensures Toggled(old(buttons), old(buttonStates), buttons, buttonStates, enable)
    {
      var status := ButtonStatus(enable);
      var b, s := buttons, buttonStates;
      var todo := b.Keys;
      while todo != {}
        invariant todo <= old(buttons).Keys
        invariant b.Keys == old(buttons).Keys && s.Keys == old(buttonStates).Keys + (old(buttons).Keys - todo)
        invariant forall k :: k in b && k !in todo ==> b[k] == enable
        invariant forall k :: k in old(buttons) && k !in todo ==> s[k] == status
        invariant forall k :: k in old(buttonStates) && k !in old(buttons) ==> s[k] == old(buttonStates)[k]
        decreases todo
      {
        var name :| name in todo;
        b := b[name := enable];
        s := s[name := status];
        todo := todo - {name};
      }
      buttons, buttonStates := b, s;
    }

    /** `getButtonStatus`. */
    function GetButtonStatus(): map<string, string>
      reads this
    {
      buttonStates
    }
  }

  /** The panel `(b, s)` is `(b0, s0)` after `toggleButtons(enable)`: the same buttons, all
      with `enable`; every button's state `ButtonStatus(enable)`; other states kept. */
  predicate Toggled(b0: map<string, bool>, s0: map<string, string>, b: map<string, bool>, s: map<string, string>, enable: bool) {
    && b.Keys == b0.Keys && s.Keys == s0.Keys + b0.Keys
    && (forall k :: k in b ==> b[k] == enable)
    && (forall k :: k in b0 ==> s[k] == ButtonStatus(enable))
    && (forall k :: k in s0 && k !in b0 ==> s[k] == s0[k])
  }

  /** Set-up (`__init__` then `createWidgets`) leaves exactly the nine buttons, all disabled,
      each with the state "Disabled"; so every widget has a tracked state. */
  lemma SetupPanel()
    ensures Register(map[], Layout(), |Layout()|, false).Keys == KeyNames()
    ensures forall k :: k in KeyNames() ==> !Register(map[], Layout(), |Layout()|, false)[k]
    ensures Register(InitialStates(), Layout(), |Layout()|, "Disabled") == InitialStates()
  {
    RegisterAll(map[], false);
    RegisterAll(InitialStates(), "Disabled");
  }
}
