/** Feeding keys to the virtual keyboard (src/keyboard.c): held keys, and keeping the compositor's modifiers
and layout group the same as the keyboard's own. */
module Keyboard {
  import opened Wrappers
  import opened KeyTable

  datatype Mods = Mods(depressed: bv32, latched: bv32, locked: bv32)

  /** The part of an xkb_state that matters here: the modifier masks and the effective group. */
  datatype Xkb = Xkb(mods: Mods, group: nat)

  /** What xkbcommon computes from the keymap: the state after a key, the level a state selects for a key,
      and modifiers that select a level. The state after a key may depend on more than the masks, such as how many
      Shift keys are down, so the updates are numbered and each may have a result of its own. */
  datatype Layout = Layout(groups: nat, update: (nat, Xkb, nat, bool) -> Xkb, level: (Xkb, nat, nat) -> int,
                           levelMods: (nat, nat, nat) -> bv32)
  {
    ghost predicate Valid()
    {
      groups > 0 &&
      forall n: nat, x: Xkb, code: nat, pressed: bool :: x.group < groups ==> update(n, x, code, pressed).group < groups
    }
  }

  /** The requests sent. A key request also records the keyboard's own state at the time. */
  datatype Request = Modifiers(mods: Mods, group: nat) | Key(code: int, pressed: bool, local: Xkb)

  datatype Kbd = Kbd(xkb: Xkb, updates: nat, lastSentGroup: nat, held: set<int>, log: seq<Request>)

  const NO_MODS := Mods(0, 0, 0)
  const INITIAL := Kbd(Xkb(NO_MODS, 0), 0, 0, {}, [])

  /** Shift, Control_L, Caps_Lock, Shift_Lock, Meta, Alt, Super, Hyper and the level-five shifts. */
  const MODIFIER_SYMBOLS: set<nat> := {
    0xFFE1, 0xFFE2, 0xFFE3, 0xFFE5, 0xFFE6, 0xFFE7, 0xFFE8, 0xFFE9, 0xFFEA, 0xFFEB, 0xFFEC, 0xFFED, 0xFFEE,
    0xFE11, 0xFE13
  }

  function SendMods(k: Kbd): (r: Kbd)
  {
    k.(lastSentGroup := k.xkb.group, log := k.log + [Modifiers(k.xkb.mods, k.xkb.group)])
  }

  function ApplyMods(layout: Layout, k: Kbd, code: nat, pressed: bool): (r: Kbd)
  {
    var x := layout.update(k.updates, k.xkb, code, pressed);
    var k1 := k.(xkb := x, updates := k.updates + 1);
    if x.mods == k.xkb.mods && k.lastSentGroup == x.group then k1 else SendMods(k1)
  }

  function SendKey(k: Kbd, code: nat, pressed: bool): (r: Kbd)
  {
    k.(log := k.log + [Key(code as int - 8, pressed, k.xkb)])
  }

  function SendKeyWithLevel(layout: Layout, k: Kbd, code: nat, pressed: bool, level: nat): (r: Kbd)
  {
    var mods := Mods(layout.levelMods(code, k.xkb.group, level), 0, 0);
    var k1 := SendKey(SendMods(k.(xkb := k.xkb.(mods := mods))), code, pressed);
    SendMods(k1.(xkb := k1.xkb.(mods := k.xkb.mods)))
  }

  function UpdateHeld(k: Kbd, code: nat, pressed: bool): (r: Kbd)
  {
    k.(held := if pressed then k.held + {code as int} else k.held - {code as int})
  }

  function FeedCode(layout: Layout, k: Kbd, code: nat, pressed: bool): (r: Kbd)
  {
    if (code as int in k.held) == pressed then k
    else SendKey(ApplyMods(layout, UpdateHeld(k, code, pressed), code, pressed), code, pressed)
  }

  /** Looking up a symbol moves the keyboard to the group where it was found; the compositor is told with the
      next key. */
  function Locate(layout: Layout, table: seq<TableEntry>, k: Kbd, symbol: nat): (r: (Kbd, Option<nat>))
    requires k.xkb.group < layout.groups
    ensures r.1.Some? ==> r.1.value < |table|
  {
    match TryGroups(table, symbol, k.xkb.group, 0, layout.groups)
    case None => (k, None)
    case Some((group, i)) => (k.(xkb := k.xkb.(group := group)), Some(i))
  }

  function LevelEntry(layout: Layout, table: seq<TableEntry>, k: Kbd, symbol: nat, i: nat): (r: Option<nat>)
    requires i < |table|
    ensures r.Some? ==> r.value < |table|
  {
    if symbol in MODIFIER_SYMBOLS then Some(i)
    else LevelMatch(table, i, (code: nat, group: nat) => layout.level(k.xkb, code, group))
  }

  /** The key that a symbol is fed as. */
  function FedCode(layout: Layout, table: seq<TableEntry>, k: Kbd, symbol: nat): (r: Option<nat>)
    requires k.xkb.group < layout.groups
  {
    var (k1, found) := Locate(layout, table, k, symbol);
    if found.None? then None
    else
      var matched := LevelEntry(layout, table, k1, symbol, found.value);
      Some(table[if matched.Some? then matched.value else found.value].code)
  }

  function Feed(layout: Layout, table: seq<TableEntry>, k: Kbd, symbol: nat, pressed: bool): (r: Kbd)
    requires k.xkb.group < layout.groups
  {
    var (k1, found) := Locate(layout, table, k, symbol);
    if found.None? then k1
    else
      var matched := LevelEntry(layout, table, k1, symbol, found.value);
      var entry := table[if matched.Some? then matched.value else found.value];
      if (entry.code as int in k1.held) == pressed then k1
      else
        var k2 := ApplyMods(layout, UpdateHeld(k1, entry.code, pressed), entry.code, pressed);
        if matched.Some? then SendKey(k2, entry.code, pressed)
        else SendKeyWithLevel(layout, k2, entry.code, pressed, entry.level)
  }

  // ---------------------------------------------------------------------------------------------------
  // What the compositor knows

  /** The modifiers and group the requests leave the compositor with. */
  ghost function Compositor(log: seq<Request>): (r: Xkb)
  {
    if log == [] then Xkb(NO_MODS, 0)
    else match log[|log| - 1]
         case Modifiers(mods, group) => Xkb(mods, group)
         case Key(_, _, _) => Compositor(log[..|log| - 1])
  }

  /** The key is down as far as the requests tell. */
  ghost predicate Down(log: seq<Request>, code: int)
  {
    log != [] &&
    var last := log[|log| - 1];
    if last.Key? && last.code == code then last.pressed else Down(log[..|log| - 1], code)
  }

  /** A request fits what was sent before it: a key goes out while the compositor has the keyboard's own
      modifiers and group, and it is a press exactly when the key is up. */
  ghost predicate RequestFits(log: seq<Request>, i: nat)
    requires i < |log|
  {
    log[i].Key? ==> Compositor(log[..i]) == log[i].local && (log[i].pressed <==> !Down(log[..i], log[i].code))
  }

  ghost predicate Inv(layout: Layout, k: Kbd)
  {
    && k.xkb.group < layout.groups
    && Compositor(k.log) == Xkb(k.xkb.mods, k.lastSentGroup)
    && (forall code: int :: code in k.held <==> Down(k.log, code - 8))
    && (forall i: nat | i < |k.log| :: RequestFits(k.log, i))
  }

  lemma AppendRequest(log: seq<Request>, q: Request)
    requires forall i: nat | i < |log| :: RequestFits(log, i)
    requires q.Key? ==> Compositor(log) == q.local && (q.pressed <==> !Down(log, q.code))
    ensures var r := log + [q];
            && (forall i: nat | i < |r| :: RequestFits(r, i))
            && Compositor(r) == (if q.Modifiers? then Xkb(q.mods, q.group) else Compositor(log))
            && (forall code: int :: Down(r, code) <==> if q.Key? && q.code == code then q.pressed else Down(log, code))
  {
    var r := log + [q];
    assert r[..|r| - 1] == log;
    forall i: nat | i < |r| ensures RequestFits(r, i) {
      if i < |log| {
        assert RequestFits(log, i);
        assert r[..i] == log[..i];
      }
    }
  }

  // ---------------------------------------------------------------------------------------------------
  // What every call keeps

  /** The log is in order, and the held keys are those that are down, except that `code` is about to change
      to `pressed` when there is one. */
  ghost predicate Tidy(k: Kbd, changing: Option<(nat, bool)>)
  {
    && (forall i: nat | i < |k.log| :: RequestFits(k.log, i))
    && (forall code: int :: code in k.held <==>
          if changing.Some? && changing.value.0 == code then changing.value.1 else Down(k.log, code - 8))
    && (changing.Some? ==> changing.value.1 == !Down(k.log, changing.value.0 - 8))
  }

  ghost predicate InSync(k: Kbd)
  {
    Compositor(k.log) == k.xkb && k.lastSentGroup == k.xkb.group
  }

  lemma SendModsKeeps(k: Kbd, changing: Option<(nat, bool)>)
    requires Tidy(k, changing)
    ensures Tidy(SendMods(k), changing) && InSync(SendMods(k))
  {
    AppendRequest(k.log, Modifiers(k.xkb.mods, k.xkb.group));
  }

  /** After the modifiers are applied the compositor has all of them, whether or not they had to be sent. */
  lemma ApplyModsKeeps(layout: Layout, k: Kbd, code: nat, pressed: bool, changing: Option<(nat, bool)>)
    requires layout.Valid() && k.xkb.group < layout.groups && Tidy(k, changing)
    requires Compositor(k.log) == Xkb(k.xkb.mods, k.lastSentGroup)
    ensures var r := ApplyMods(layout, k, code, pressed);
            && Tidy(r, changing) && InSync(r) && r.held == k.held
            && r.xkb == layout.update(k.updates, k.xkb, code, pressed) && r.xkb.group < layout.groups
  {
    SendModsKeeps(k.(xkb := layout.update(k.updates, k.xkb, code, pressed), updates := k.updates + 1), changing);
  }

  lemma SendKeyKeeps(k: Kbd, code: nat, pressed: bool)
    requires Tidy(k, Some((code, pressed))) && Compositor(k.log) == k.xkb
    ensures var r := SendKey(k, code, pressed);
            Tidy(r, None) && Compositor(r.log) == k.xkb && r.xkb == k.xkb && r.lastSentGroup == k.lastSentGroup
  {
    AppendRequest(k.log, Key(code as int - 8, pressed, k.xkb));
  }

  /** The key goes out under the modifiers of its level, and afterwards both sides have the old ones back. */
  lemma SendKeyWithLevelKeeps(layout: Layout, k: Kbd, code: nat, pressed: bool, level: nat)
    requires Tidy(k, Some((code, pressed)))
    ensures var r := SendKeyWithLevel(layout, k, code, pressed, level);
            && Tidy(r, None) && InSync(r) && r.xkb == k.xkb
            && |r.log| == |k.log| + 3
            && r.log[|k.log| + 1] ==
               Key(code as int - 8, pressed, Xkb(Mods(layout.levelMods(code, k.xkb.group, level), 0, 0), k.xkb.group))
  {
    var mods := Mods(layout.levelMods(code, k.xkb.group, level), 0, 0);
    var k0 := k.(xkb := k.xkb.(mods := mods));
    SendModsKeeps(k0, Some((code, pressed)));
    var k1 := SendMods(k0);
    SendKeyKeeps(k1, code, pressed);
    var k2 := SendKey(k1, code, pressed);
    SendModsKeeps(k2.(xkb := k2.xkb.(mods := k.xkb.mods)), None);
  }

  lemma UpdateHeldKeeps(k: Kbd, code: nat, pressed: bool)
    requires Tidy(k, None) && (code as int in k.held) != pressed
    ensures Tidy(UpdateHeld(k, code, pressed), Some((code, pressed)))
  {
  }

  lemma FeedCodeKeeps(layout: Layout, k: Kbd, code: nat, pressed: bool)
    requires layout.Valid() && Inv(layout, k)
    ensures Inv(layout, FeedCode(layout, k, code, pressed))
  {
    if (code as int in k.held) != pressed {
      var k1 := UpdateHeld(k, code, pressed);
      UpdateHeldKeeps(k, code, pressed);
      ApplyModsKeeps(layout, k1, code, pressed, Some((code, pressed)));
      SendKeyKeeps(ApplyMods(layout, k1, code, pressed), code, pressed);
    }
  }

  lemma FeedKeeps(layout: Layout, table: seq<TableEntry>, k: Kbd, symbol: nat, pressed: bool)
    requires layout.Valid() && Inv(layout, k)
    ensures Inv(layout, Feed(layout, table, k, symbol, pressed))
  {
    var (k1, found) := Locate(layout, table, k, symbol);
    if found.Some? {
      var matched := LevelEntry(layout, table, k1, symbol, found.value);
      var entry := table[if matched.Some? then matched.value else found.value];
      var code := entry.code;
      if (code as int in k1.held) != pressed {
        var k2 := UpdateHeld(k1, code, pressed);
        UpdateHeldKeeps(k1, code, pressed);
        ApplyModsKeeps(layout, k2, code, pressed, Some((code, pressed)));
        var k3 := ApplyMods(layout, k2, code, pressed);
        if matched.Some? {
          SendKeyKeeps(k3, code, pressed);
        } else {
          SendKeyWithLevelKeeps(layout, k3, code, pressed, entry.level);
        }
      }
    }
  }

  // ---------------------------------------------------------------------------------------------------
  // What is sent for an input

  /** The modifiers that are sent to a compositor which has `known`, so that it has `wanted`. */
  function Brought(known: Xkb, wanted: Xkb): (r: seq<Request>)
  {
    if known == wanted then [] else [Modifiers(wanted.mods, wanted.group)]
  }

  /** Without a change of level the key goes out once the compositor has the state after it. */
  function PlainKey(known: Xkb, after: Xkb, code: nat, pressed: bool): (r: seq<Request>)
  {
    Brought(known, after) + [Key(code as int - 8, pressed, after)]
  }

  /** With a change of level the key goes out under the modifiers of its level, between those of the state. */
  function LevelledKey(known: Xkb, after: Xkb, code: nat, pressed: bool, depressed: bv32): (r: seq<Request>)
  {
    var levelled := Xkb(Mods(depressed, 0, 0), after.group);
    Brought(known, after) + [Modifiers(levelled.mods, levelled.group), Key(code as int - 8, pressed, levelled)]
      + [Modifiers(after.mods, after.group)]
  }

  lemma ApplyModsBrings(layout: Layout, k: Kbd, code: nat, pressed: bool)
    requires layout.Valid() && Compositor(k.log) == Xkb(k.xkb.mods, k.lastSentGroup)
    ensures var after := layout.update(k.updates, k.xkb, code, pressed);
            var r := ApplyMods(layout, k, code, pressed);
            r.log == k.log + Brought(Compositor(k.log), after) && r.xkb == after && r.held == k.held
  {
  }

  /** A code is sent exactly when its key changes: one key event, after the modifiers if the compositor lacks them. */
  lemma CodeIsSent(layout: Layout, k: Kbd, code: nat, pressed: bool)
    requires layout.Valid() && Inv(layout, k)
    ensures var r := FeedCode(layout, k, code, pressed);
            var after := layout.update(k.updates, k.xkb, code, pressed);
            if (code as int in k.held) == pressed then r == k
            else r.xkb == after && r.log == k.log + PlainKey(Compositor(k.log), after, code, pressed)
  {
    if (code as int in k.held) != pressed {
      ApplyModsBrings(layout, UpdateHeld(k, code, pressed), code, pressed);
    }
  }

  /** The state selects the level of the entry for its key. */
  ghost predicate Selected(layout: Layout, x: Xkb, e: TableEntry)
  {
    e.level == layout.level(x, e.code, e.group)
  }

  /** The entries from i to j have the same symbol. */
  ghost predicate SameSymbol(table: seq<TableEntry>, i: nat, j: nat)
  {
    i <= j < |table| && forall m | i <= m <= j :: table[m].symbol == table[i].symbol
  }

  /** Entry j stands for the symbol that was found at entry i: a modifier is taken as found, and another symbol from
      the first entry that is selected, with `matched`, or as found if no entry with the symbol is. */
  ghost predicate StandsFor(layout: Layout, table: seq<TableEntry>, x: Xkb, i: nat, j: nat, matched: bool)
  {
    && SameSymbol(table, i, j)
    && (if table[i].symbol in MODIFIER_SYMBOLS then j == i && matched
        else if matched then
          Selected(layout, x, table[j]) && forall m | i <= m < j :: !Selected(layout, x, table[m])
        else j == i && forall m: nat | SameSymbol(table, i, m) :: !Selected(layout, x, table[m]))
  }

  /** The scan for the level finds the first entry that is selected. */
  lemma {:induction false} LevelMatchIsFirst(layout: Layout, table: seq<TableEntry>, x: Xkb, i: nat)
    requires i < |table|
    ensures var r := LevelMatch(table, i, (code: nat, group: nat) => layout.level(x, code, group));
            if r.Some? then
              && SameSymbol(table, i, r.value) && Selected(layout, x, table[r.value])
              && forall m | i <= m < r.value :: !Selected(layout, x, table[m])
            else forall m: nat | SameSymbol(table, i, m) :: !Selected(layout, x, table[m])
    decreases |table| - i
  {
    if !Selected(layout, x, table[i]) {
      if i + 1 < |table| && table[i + 1].symbol == table[i].symbol {
        LevelMatchIsFirst(layout, table, x, i + 1);
        forall m: nat | SameSymbol(table, i, m) && m > i ensures SameSymbol(table, i + 1, m) {}
      } else {
        forall m: nat | SameSymbol(table, i, m) ensures m == i {}
      }
    }
  }

  /** The entry for a symbol: the group is the first in cyclic order that has it, the h-th tried. */
  lemma EntryIsFound(layout: Layout, table: seq<TableEntry>, k: Kbd, symbol: nat)
    returns (h: nat, j: nat, matched: bool)
    requires layout.Valid() && k.xkb.group < layout.groups
    ensures h <= layout.groups
    ensures forall g | 0 <= g < h :: !GroupHas(table, symbol, GroupAt(k.xkb.group, g, layout.groups))
    ensures var (k1, found) := Locate(layout, table, k, symbol);
            if h == layout.groups then found.None? && k1 == k
            else
              var group := GroupAt(k.xkb.group, h, layout.groups);
              && GroupHas(table, symbol, group) && k1 == k.(xkb := k.xkb.(group := group))
              && found == FindInGroup(table, symbol, group) && found.Some?
              && StandsFor(layout, table, k1.xkb, found.value, j, matched)
              && (matched <==> LevelEntry(layout, table, k1, symbol, found.value).Some?)
              && (matched ==> LevelEntry(layout, table, k1, symbol, found.value).value == j)
  {
    h := FindsFirstGroup(table, symbol, k.xkb.group, 0, layout.groups);
    j, matched := 0, false;
    if h < layout.groups {
      hide TryGroups, FindInGroup;
      var (k1, found) := Locate(layout, table, k, symbol);
      LevelMatchIsFirst(layout, table, k1.xkb, found.value);
      var entry := LevelEntry(layout, table, k1, symbol, found.value);
      matched := entry.Some?;
      j := if matched then entry.value else found.value;
    }
  }

  lemma KeyIsSent(layout: Layout, k: Kbd, e: TableEntry, pressed: bool, matched: bool)
    requires layout.Valid() && Compositor(k.log) == Xkb(k.xkb.mods, k.lastSentGroup)
    ensures var k1 := ApplyMods(layout, k, e.code, pressed);
            var r := if matched then SendKey(k1, e.code, pressed)
                     else SendKeyWithLevel(layout, k1, e.code, pressed, e.level);
            var after := layout.update(k.updates, k.xkb, e.code, pressed);
            && r.xkb == after
            && r.log == k.log + if matched then PlainKey(Compositor(k.log), after, e.code, pressed)
                                else LevelledKey(Compositor(k.log), after, e.code, pressed,
                                                 layout.levelMods(e.code, after.group, e.level))
  {
    ApplyModsBrings(layout, k, e.code, pressed);
    hide ApplyMods, Compositor;
  }

  /** A symbol is sent exactly when some group has it and its key changes. The key is that of the entry which stands
      for the symbol under the state before it, in the first group in cyclic order that has the symbol; it goes out
      under the modifiers of its level exactly when no entry was matched. */
  lemma SymbolIsSent(layout: Layout, table: seq<TableEntry>, k: Kbd, symbol: nat, pressed: bool)
    returns (h: nat, j: nat, matched: bool)
    requires layout.Valid() && Inv(layout, k)
    ensures h <= layout.groups
    ensures forall g | 0 <= g < h :: !GroupHas(table, symbol, GroupAt(k.xkb.group, g, layout.groups))
    ensures var r := Feed(layout, table, k, symbol, pressed);
            if h == layout.groups then r == k
            else
              var group := GroupAt(k.xkb.group, h, layout.groups);
              var x := k.xkb.(group := group);
              && GroupHas(table, symbol, group)
              && StandsFor(layout, table, x, FindInGroup(table, symbol, group).value, j, matched)
              && table[j].symbol == symbol
              && var code, after := table[j].code, layout.update(k.updates, x, table[j].code, pressed);
                 if (code as int in k.held) == pressed then r == k.(xkb := x)
                 else
                   && r.xkb == after
                   && r.log == k.log +
                      if matched then PlainKey(Compositor(k.log), after, code, pressed)
                      else LevelledKey(Compositor(k.log), after, code, pressed,
                                       layout.levelMods(code, after.group, table[j].level))
  {
    h, j, matched := EntryIsFound(layout, table, k, symbol);
    if h < layout.groups {
      hide Locate, LevelEntry, FindInGroup, GroupHas, ApplyMods, SendKey, SendKeyWithLevel, PlainKey, LevelledKey;
      var (k1, found) := Locate(layout, table, k, symbol);
      assert table[j].symbol == table[found.value].symbol;
      KeyIsSent(layout, UpdateHeld(k1, table[j].code, pressed), table[j], pressed, matched);
    }
  }

  datatype Input = Symbol(symbol: nat, pressed: bool) | Code(code: nat, pressed: bool)

  function Step(layout: Layout, table: seq<TableEntry>, k: Kbd, input: Input): (r: Kbd)
    requires k.xkb.group < layout.groups
  {
    match input
    case Symbol(symbol, pressed) => Feed(layout, table, k, symbol, pressed)
    case Code(code, pressed) => FeedCode(layout, k, code, pressed)
  }

  ghost function Run(layout: Layout, table: seq<TableEntry>, k: Kbd, inputs: seq<Input>): (r: Kbd)
    requires layout.Valid() && Inv(layout, k)
    ensures Inv(layout, r)
    decreases |inputs|
  {
    if inputs == [] then k
    else
      FeedStepKeeps(layout, table, k, inputs[0]);
      Run(layout, table, Step(layout, table, k, inputs[0]), inputs[1..])
  }

  lemma FeedStepKeeps(layout: Layout, table: seq<TableEntry>, k: Kbd, input: Input)
    requires layout.Valid() && Inv(layout, k)
    ensures Inv(layout, Step(layout, table, k, input))
  {
    match input
    case Symbol(symbol, pressed) => FeedKeeps(layout, table, k, symbol, pressed);
    case Code(code, pressed) => FeedCodeKeeps(layout, k, code, pressed);
  }

  /** Over every mix of symbols and codes: each key goes out while the compositor has exactly the keyboard's
      own modifiers and group, the events of each key alternate beginning with a press, and the held keys are
      the keys whose last event was a press. */
  lemma EveryRun(layout: Layout, table: seq<TableEntry>, inputs: seq<Input>)
    requires layout.Valid()
    ensures Inv(layout, INITIAL)
    ensures var r := Run(layout, table, INITIAL, inputs);
            && (forall i: nat | i < |r.log| && r.log[i].Key? ::
                  Compositor(r.log[..i]) == r.log[i].local && (r.log[i].pressed <==> !Down(r.log[..i], r.log[i].code)))
            && (forall code: int :: code in r.held <==> Down(r.log, code - 8))
            && Compositor(r.log).mods == r.xkb.mods
  {
    var r := Run(layout, table, INITIAL, inputs);
    forall i: nat | i < |r.log| && r.log[i].Key?
      ensures Compositor(r.log[..i]) == r.log[i].local && (r.log[i].pressed <==> !Down(r.log[..i], r.log[i].code))
    {
      assert RequestFits(r.log, i);
    }
  }
}
