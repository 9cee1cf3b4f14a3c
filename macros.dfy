/**
 * The binding store of GUI/MacroManager.py: a map from key event names to shell
 * commands, loaded from and saved to a configuration file. The file is modelled by
 * its content, `Some(map)` for a file holding a JSON object of strings and `None`
 * for a file that does not exist.
 */
module Macros {
  import opened Wrappers
  import opened Keys

  type Actions = map<string, string>

  /** The first-run bindings: every one of the nine keys unbound. */
  function DefaultActions(): (m: Actions)
    ensures m.Keys == KeyNames()
    ensures forall k :: k in m ==> m[k] == ""
  {
    map k | k in KeyNames() :: ""
  }

  /** `loadActions`: the file's content when it exists, the default bindings otherwise. */
  function LoadActions(file: Option<Actions>): Actions {
    match file
    case Some(m) => m
    case None => DefaultActions()
  }

  /** Without a configuration file there are exactly nine bindings, "Button 1 pressed" to
      "Button 9 pressed", all empty. */
  lemma LoadWithoutFile()
    ensures var m := LoadActions(None);
      && |m| == 9
      && (forall i :: 1 <= i <= 9 ==> KeyName(i) in m && m[KeyName(i)] == "")
      && (forall k :: k in m ==> exists i :: 1 <= i <= 9 && k == KeyName(i))
  {
    NineKeyNames();
    assert |LoadActions(None)| == |KeyNames()|;
  }

  class MacroManager {
    var buttonActions: Actions
    var configFile: Option<Actions>   // the configuration file on disk

    /** `__init__`: loads the bindings from the configuration file. */
    constructor (file: Option<Actions>)
      ensures configFile == file && buttonActions == LoadActions(file)
    {
      configFile := file;
      buttonActions := LoadActions(file);
    }

    /** `saveActions`: overwrites the file with the whole map. */
    method SaveActions()
      modifies this
      ensures buttonActions == old(buttonActions) && configFile == Some(buttonActions)
      ensures LoadActions(configFile) == buttonActions
    {
      configFile := Some(buttonActions);
    }

    /** `getAction`: the command bound to `name`, "" for a name without a binding. */
    function GetAction(name: string): string
      reads this
    {
      if name in buttonActions then buttonActions[name] else ""
    }

    /** `setActions`: binds `name` to `action`, every other binding kept, then saves. */
    method SetActions(name: string, action: string)
      modifies this
      ensures buttonActions == old(buttonActions)[name := action]
      ensures GetAction(name) == action
      ensures forall k :: k != name ==> GetAction(k) == old(GetAction(k))
      ensures buttonActions.Keys == old(buttonActions).Keys + {name}
      ensures configFile == Some(buttonActions) && LoadActions(configFile) == buttonActions
    {
      buttonActions := buttonActions[name := action];
      SaveActions();
    }

    /** `getAllActions`: the current bindings. */
    function GetAllActions(): Actions
      reads this
    {
      buttonActions
    }
  }
}
