/** The keyboard object as it is updated in place, with the array of held keys behind it. */
module KeyboardProgram {
  import opened Wrappers
  import opened IntSets
  import opened KeyTable
  import opened Keyboard

  class Device {
    const layout: Layout
    const table: seq<TableEntry>
    const keys: IntSet
    var xkb: Xkb
    var updates: nat
    var lastSentGroup: nat
    var log: seq<Request>

    ghost predicate Valid()
      reads this, keys, keys.storage
    {
      layout.Valid() && Sorted(table) && keys.Valid() && xkb.group < layout.groups
    }

    ghost function Abs(): (k: Kbd)
      reads this, keys, keys.storage
      requires keys.Valid()
    {
      Kbd(xkb, updates, lastSentGroup, keys.Contents(), log)
    }

    constructor (layout: Layout, table: seq<TableEntry>)
      requires layout.Valid() && Sorted(table)
      ensures Valid() && Abs() == INITIAL && fresh(keys) && fresh(keys.storage)
      ensures this.layout == layout && this.table == table && keys.storage.Length == DEFAULT_CAPACITY
    {
      this.layout, this.table := layout, table;
      keys := new IntSet(0);
      xkb, updates, lastSentGroup, log := Xkb(NO_MODS, 0), 0, 0, [];
    }

    method SendModifiers()
      requires Valid()
      modifies this
      ensures Valid() && Abs() == SendMods(old(Abs()))
    {
      lastSentGroup := xkb.group;
      log := log + [Modifiers(xkb.mods, xkb.group)];
    }

    method ApplyModifiers(code: nat, pressed: bool)
      requires Valid()
      modifies this
      ensures Valid() && Abs() == ApplyMods(layout, old(Abs()), code, pressed)
    {
      var before := xkb.mods;
      xkb := layout.update(updates, xkb, code, pressed);
      updates := updates + 1;
      var changed := before != xkb.mods;
      if !changed && lastSentGroup == xkb.group { return; }
      SendModifiers();
    }

    method SendKeyEvent(code: nat, pressed: bool)
      requires Valid()
      modifies this
      ensures Valid() && Abs() == SendKey(old(Abs()), code, pressed)
    {
      log := log + [Key(code as int - 8, pressed, xkb)];
    }

    method SendKeyAtLevel(code: nat, pressed: bool, level: nat)
      requires Valid()
      modifies this
      ensures Valid() && Abs() == SendKeyWithLevel(layout, old(Abs()), code, pressed, level)
    {
      var save := xkb.mods;
      xkb := xkb.(mods := Mods(layout.levelMods(code, xkb.group, level), 0, 0));
      SendModifiers();
      SendKeyEvent(code, pressed);
      xkb := xkb.(mods := save);
      SendModifiers();
    }

    /** There is no room for one more held key. */
    ghost predicate Full(code: nat, pressed: bool)
      reads this, keys, keys.storage
      requires keys.Valid()
    {
      pressed && code as int !in keys.Contents() && keys.len >= RoomForWrite(keys.len, keys.storage.Length)
    }

    /** Tells whether the key changed, and whether it could be stored. */
    method UpdateKeyState(code: nat, pressed: bool) returns (changed: bool, inside: bool)
      requires Valid()
      modifies keys, keys.storage
      ensures Valid() && (inside <==> !old(Full(code, pressed)))
      ensures changed <==> inside && (code as int in old(Abs()).held) != pressed
      ensures Abs() == if changed then UpdateHeld(old(Abs()), code, pressed) else old(Abs())
    {
      var wasPressed := keys.IsSet(code);
      if wasPressed == pressed { return false, true; }
      inside := true;
      if pressed {
        inside := keys.Set(code);
      } else {
        keys.Clear(code);
      }
      changed := inside;
    }

    /** A key code, unless there is no room for it. */
    method FeedKeyCode(code: nat, pressed: bool) returns (inside: bool)
      requires Valid() && Inv(layout, Abs())
      modifies this, keys, keys.storage
      ensures Valid() && Inv(layout, Abs()) && (inside <==> !old(Full(code, pressed)))
      ensures Abs() == if inside then FeedCode(layout, old(Abs()), code, pressed) else old(Abs())
    {
      FeedCodeKeeps(layout, Abs(), code, pressed);
      var changed;
      changed, inside := UpdateKeyState(code, pressed);
      if changed {
        ApplyModifiers(code, pressed);
        SendKeyEvent(code, pressed);
      }
    }

    method LocateSymbol(symbol: nat) returns (entry: Option<nat>)
      requires Valid()
      modifies this`xkb
      ensures Valid() && (Abs(), entry) == Locate(layout, table, old(Abs()), symbol)
    {
      var found := FindSymbol(table, symbol, xkb.group, layout.groups);
      if found.None? { return None; }
      var (group, i) := found.value;
      if group != xkb.group {
        xkb := xkb.(group := group);
      }
      return Some(i);
    }

    /** A symbol, unless there is no room for its key; then only the group may have changed. */
    method FeedSymbol(symbol: nat, pressed: bool) returns (inside: bool)
      requires Valid() && Inv(layout, Abs())
      modifies this, keys, keys.storage
      ensures Valid() && Inv(layout, Abs())
      ensures var fed := FedCode(layout, table, old(Abs()), symbol);
              inside <==> fed.None? || !old(Full(FedCode(layout, table, Abs(), symbol).value, pressed))
      ensures Abs() == if inside then Feed(layout, table, old(Abs()), symbol, pressed)
                       else Locate(layout, table, old(Abs()), symbol).0
    {
      FeedKeeps(layout, table, Abs(), symbol, pressed);
      var found := LocateSymbol(symbol);
      if found.None? { return true; }
      var entry := table[found.value];
      var levelIsMatch := true;
      if symbol !in MODIFIER_SYMBOLS {
        var x := xkb;
        var matched := MatchLevel(table, found.value, (code: nat, group: nat) => layout.level(x, code, group));
        if matched.Some? {
          entry := table[matched.value];
        } else {
          levelIsMatch := false;
        }
      }
      var changed;
      changed, inside := UpdateKeyState(entry.code, pressed);
      if !changed { return; }
      ApplyModifiers(entry.code, pressed);
      if levelIsMatch {
        SendKeyEvent(entry.code, pressed);
      } else {
        SendKeyAtLevel(entry.code, pressed, entry.level);
      }
    }
  }
}
