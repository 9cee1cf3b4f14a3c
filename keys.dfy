/**
 * The nine key identifiers and their canonical event names, "Button 1 pressed" to
 * "Button 9 pressed", as GUI/MacroManager.py, MacroPadGUI.py and UIController.py build
 * them, and the parse `int(button_name.split()[1])` that editAction applies to a name.
 */
module Keys {
  import opened Wrappers
  import opened Text

  /** `f'Button {i} pressed'`. */
  function KeyName(i: int): string {
    "Button " + IntToString(i) + " pressed"
  }

  /** `int(button_name.split()[1])`; None stands for the IndexError or ValueError it raises. */
  function ButtonNumber(name: string): Option<int> {
    var w := Words(name);
    if |w| < 2 then None else ParseInt(w[1])
  }

  /** The names of keys 1 to 9. */
  function KeyNames(): set<string> {
    set i | 1 <= i <= 9 :: KeyName(i)
  }

  lemma IntToStringWord(n: int)
    ensures IntToString(n) != [] && NoSpace(IntToString(n))
  {
    var d := NatToString(if n < 0 then -n else n);
    assert forall k :: 0 <= k < |d| ==> !IsSpace(d[k]);
    if n < 0 {
      assert IntToString(n) == "-" + d;
      assert forall k :: 1 <= k < |"-" + d| ==> ("-" + d)[k] == d[k - 1];
    }
  }

  /** Parsing a key's name gives back its number. */
  lemma ButtonNumberOfKeyName(i: int)
    ensures ButtonNumber(KeyName(i)) == Some(i)
  {
    IntToStringWord(i);
    assert NoSpace("Button") && NoSpace("pressed");
    WordsOfThree("Button", IntToString(i), "pressed");
    assert KeyName(i) == "Button" + " " + IntToString(i) + " " + "pressed";
    ParseIntToString(i);
  }

  /** Different keys have different names. */
  lemma KeyNameInjective(i: int, j: int)
    ensures KeyName(i) == KeyName(j) ==> i == j
  {
    ButtonNumberOfKeyName(i);
    ButtonNumberOfKeyName(j);
  }

  /** The names of keys 1 to n are n distinct strings. */
  lemma {:induction false} KeyNamesUpTo(n: nat)
    ensures |set i | 1 <= i <= n :: KeyName(i)| == n
  {
    if n > 0 {
      var below := set i | 1 <= i <= n - 1 :: KeyName(i);
      KeyNamesUpTo(n - 1);
      assert (set i | 1 <= i <= n :: KeyName(i)) == below + {KeyName(n)};
      if KeyName(n) in below {
        var i :| 1 <= i <= n - 1 && KeyName(i) == KeyName(n);
        KeyNameInjective(i, n);
      }
    }
  }

  /** There are exactly nine key names. */
  lemma NineKeyNames()
    ensures |KeyNames()| == 9
  {
    KeyNamesUpTo(9);
  }

  /** Each key name carries the number of one of the nine keys. */
  lemma KeyNamesNumbered(name: string)
    requires name in KeyNames()
    ensures ButtonNumber(name).Some? && 1 <= ButtonNumber(name).value <= 9
    ensures name == KeyName(ButtonNumber(name).value)
  {
    var i :| 1 <= i <= 9 && name == KeyName(i);
    ButtonNumberOfKeyName(i);
  }
}
