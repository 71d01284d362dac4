/** The input snapshot the engine keeps: one button per registered key
    code, three mouse buttons and a mouse position. */
module Inputs {
  import opened Wrappers
  import opened Buttons
  import Keys = KeyCodes

  type Byte = x: int | 0 <= x < 256

  datatype MouseButton = Left | Right | Middle | Other(code: Byte)

  /** No button object serves two keys of the table. */
  ghost predicate DistinctButtons<K>(table: map<K, Button>)
  {
    forall a, b :: a in table && b in table && a != b ==> table[a] != table[b]
  }

  /** One new button per key code, inserted in registration order. */
  method RegisterKeys() returns (keys: map<Keys.KeyCode, Button>)
    ensures forall k: Keys.KeyCode :: k in keys
    ensures forall k :: k in keys ==> fresh(keys[k]) && keys[k].state == Up
    ensures DistinctButtons(keys)
  {
    keys := map[];
    for i := 0 to Keys.Count
      invariant forall k: Keys.KeyCode :: k in keys <==> (k as int) < i
      invariant forall k :: k in keys ==> fresh(keys[k]) && keys[k].state == Up
      invariant DistinctButtons(keys)
    {
      var button := new Button();
      keys := keys[i as Keys.KeyCode := button];
    }
  }

  class Input {
    var keys: map<Keys.KeyCode, Button>
    /** The mouse position; its floating-point coordinates are only stored. */
    var mousePosition: (real, real)
    var mouseButtons: map<MouseButton, Button>
    var mouseExtraButtons: map<Byte, Button>

    ghost predicate Valid()
      reads this
    {
      DistinctButtons(keys)
    }

    /** Every key code, and the Left, Right and Middle mouse buttons, get a
        button at rest; no extra mouse button is known yet. */
    constructor ()
      ensures Valid()
      ensures forall k: Keys.KeyCode :: k in keys
      ensures forall k :: k in keys ==> fresh(keys[k]) && keys[k].state == Up
      ensures mouseButtons.Keys == {Left, Right, Middle}
      ensures forall m :: m in mouseButtons ==> fresh(mouseButtons[m]) && mouseButtons[m].state == Up
      ensures mouseExtraButtons == map[] && mousePosition == (0.0, 0.0)
    {
      var registered := RegisterKeys();
      var left := new Button();
      var right := new Button();
      var middle := new Button();
      keys := registered;
      mousePosition := (0.0, 0.0);
      mouseButtons := map[Left := left, Right := right, Middle := middle];
      mouseExtraButtons := map[];
    }

    /** The button registered for `key`, if any. */
    function Key(key: Keys.KeyCode): (r: Option<Button>)
      reads this
      ensures r.Some? <==> key in keys
      ensures r.Some? ==> r.value == keys[key]
    {
      if key in keys then Some(keys[key]) else None
    }

    /** The same entry as `Key`, handed out for mutation. */
    method KeyMut(key: Keys.KeyCode) returns (r: Option<Button>)
      ensures r == Key(key)
    {
      r := if key in keys then Some(keys[key]) else None;
    }
  }

  /** Pressing a key through `KeyMut` moves only that key's button. */
  method PressKey(input: Input, key: Keys.KeyCode)
    requires input.Valid()
    modifies input.keys.Values
    ensures key in input.keys ==> input.keys[key].state == AfterPress(old(input.keys[key].state))
    ensures forall k :: k in input.keys && k != key ==> input.keys[k].state == old(input.keys[k].state)
  {
    var entry := input.KeyMut(key);
    if entry.Some? {
      entry.value.Press();
    }
  }
}
