/**
  `find_key` of `context_menu` (src/menu.rs:56-63): the text of a key binding
  shown beside a context-menu item. It walks the key-binding table in the
  map's own (unspecified) order and returns the first binding of the action,
  or the empty string when the action has none.
 */
module KeyBinds {
  import opened MenuTypes

  datatype Modifier = Super | Ctrl | Alt | Shift

  /** `KeyBind`: modifiers and a key. How it is printed belongs to the toolkit and is a parameter here. */
  datatype KeyBind = KeyBind(modifiers: seq<Modifier>, key: string)

  /** Whether some binding of the table emits `action`. */
  ghost predicate Bound(keyBinds: map<KeyBind, Action>, action: Action) {
    exists kb :: kb in keyBinds && keyBinds[kb] == action
  }

  /**
    The search: any binding of the action may be the one found, since the
    table's iteration order is not fixed; with none, the result is empty.
   */
  method FindKey(keyBinds: map<KeyBind, Action>, action: Action, show: KeyBind -> string) returns (text: string)
    ensures Bound(keyBinds, action) ==> exists kb :: kb in keyBinds && keyBinds[kb] == action && text == show(kb)
    ensures !Bound(keyBinds, action) ==> text == ""
  {
    var remaining := keyBinds.Keys;
    while remaining != {}
      invariant remaining <= keyBinds.Keys
      invariant forall kb :: kb in keyBinds && kb !in remaining ==> keyBinds[kb] != action
      decreases remaining
    {
      var kb :| kb in remaining;
      if keyBinds[kb] == action {
        return show(kb);
      }
      remaining := remaining - {kb};
    }
    text := "";
  }
}
