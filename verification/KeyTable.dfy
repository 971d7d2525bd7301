/** The keyboard's symbol table (src/keyboard.c): how it is filled from the keymap, the binary search in it
and the two walks along entries with the same symbol.

The walks compare symbols only. They therefore cross from one group into another wherever the last symbol
of one group is the first of the next; `Seam` says where that happens, and the lemmas say exactly what it
changes. */
module KeyTable {
  import opened Wrappers

  datatype TableEntry = TableEntry(symbol: nat, code: nat, level: nat, group: nat)

  /** The comparison for qsort: group, then symbol, then code. */
  function CompareSymbols(x: TableEntry, y: TableEntry): (r: int)
  {
    if x.group != y.group then (if x.group < y.group then -1 else 1)
    else if x.symbol != y.symbol then (if x.symbol < y.symbol then -1 else 1)
    else if x.code < y.code then -1 else if x.code > y.code then 1 else 0
  }

  /** The comparison for bsearch, which leaves out the code. */
  function CompareKeys(group: nat, symbol: nat, y: TableEntry): (r: int)
  {
    if group != y.group then (if group < y.group then -1 else 1)
    else if symbol < y.symbol then -1 else if symbol > y.symbol then 1 else 0
  }

  /** What qsort leaves. */
  ghost predicate Sorted(table: seq<TableEntry>)
  {
    forall i, j | 0 <= i < j < |table| :: CompareSymbols(table[i], table[j]) <= 0
  }

  predicate Matches(e: TableEntry, symbol: nat, group: nat)
  {
    e.symbol == symbol && e.group == group
  }

  // ---------------------------------------------------------------------------------------------------
  // Filling the table

  /** The symbols of each key, by group and level; the outer sequence is indexed by group, then code. */
  datatype Keymap = Keymap(keys: seq<seq<seq<seq<nat>>>>)

  ghost predicate InKeymap(map_: Keymap, e: TableEntry)
  {
    && e.group < |map_.keys| && e.code < |map_.keys[e.group]| && e.level < |map_.keys[e.group][e.code]|
    && e.symbol in map_.keys[e.group][e.code][e.level]
  }

  /** The entries of one key in one group. */
  method KeyIter(map_: Keymap, code: nat, group: nat, start: seq<TableEntry>) returns (table: seq<TableEntry>)
    requires group < |map_.keys| && code < |map_.keys[group]|
    ensures start <= table
    ensures forall e :: e in table[|start|..] <==> InKeymap(map_, e) && e.code == code && e.group == group
  {
    table := start;
    var levels := map_.keys[group][code];
    for level := 0 to |levels|
      invariant start <= table
      invariant forall e :: e in table[|start|..] <==>
        InKeymap(map_, e) && e.code == code && e.group == group && e.level < level
    {
      ghost var before := table;
      var symbols := levels[level];
      for i := 0 to |symbols|
        invariant before <= table
        invariant forall e :: e in table[|before|..] <==>
          e.symbol in symbols[..i] && e.code == code && e.group == group && e.level == level
      {
        var entry := TableEntry(symbols[i], code, level, group);
        assert (table + [entry])[|before|..] == table[|before|..] + [entry];
        assert symbols[..i + 1] == symbols[..i] + [symbols[i]];
        table := table + [entry];
      }
      assert symbols[..|symbols|] == symbols;
      assert table[|start|..] == before[|start|..] + table[|before|..];
    }
  }

  /** The table before it is sorted holds exactly the symbols of the keymap. */
  method FillTable(map_: Keymap) returns (table: seq<TableEntry>)
    ensures forall e :: e in table <==> InKeymap(map_, e)
  {
    table := [];
    for group := 0 to |map_.keys|
      invariant forall e :: e in table <==> InKeymap(map_, e) && e.group < group
    {
      ghost var before := table;
      for code := 0 to |map_.keys[group]|
        invariant before <= table
        invariant forall e :: e in table <==>
          InKeymap(map_, e) && (e.group < group || (e.group == group && e.code < code))
      {
        var more := KeyIter(map_, code, group, table);
        assert more == table + more[|table|..];
        table := more;
      }
    }
  }

  // ---------------------------------------------------------------------------------------------------
  // Searching

  /** The reference: a linear scan for the first entry of the group with the symbol. */
  function FirstMatch(table: seq<TableEntry>, symbol: nat, group: nat): (r: Option<nat>)
    ensures r.Some? ==> r.value < |table| && Matches(table[r.value], symbol, group)
    ensures r.Some? ==> forall i | 0 <= i < r.value :: !Matches(table[i], symbol, group)
    ensures r.None? <==> forall i | 0 <= i < |table| :: !Matches(table[i], symbol, group)
  {
    if table == [] then None
    else if Matches(table[0], symbol, group) then Some(0)
    else match FirstMatch(table[1..], symbol, group)
         case None =>
           assert forall i | 1 <= i < |table| :: table[i] == table[1..][i - 1];
           None
         case Some(i) =>
           assert table[1..][i] == table[i + 1];
           Some(i + 1)
  }

  /** Where walking back over equal symbols from i ends. */
  function WalkBack(table: seq<TableEntry>, i: nat): (r: nat)
    requires i < |table|
    ensures r <= i && (forall k | r <= k <= i :: table[k].symbol == table[i].symbol)
    ensures r == 0 || table[r - 1].symbol != table[i].symbol
    decreases i
  {
    if i == 0 || table[i - 1].symbol != table[i].symbol then i else WalkBack(table, i - 1)
  }

  /** The libc search: some entry that compares equal, if there is one. */
  method Bsearch(table: seq<TableEntry>, symbol: nat, group: nat) returns (r: Option<nat>)
    requires Sorted(table)
    ensures r.Some? ==> r.value < |table| && Matches(table[r.value], symbol, group)
    ensures r.None? ==> forall i | 0 <= i < |table| :: !Matches(table[i], symbol, group)
  {
    var low, high := 0, |table|;
    while low < high
      invariant 0 <= low <= high <= |table|
      invariant forall i | 0 <= i < low :: CompareKeys(group, symbol, table[i]) > 0
      invariant forall i | high <= i < |table| :: CompareKeys(group, symbol, table[i]) < 0
    {
      var mid := (low + high) / 2;
      var c := CompareKeys(group, symbol, table[mid]);
      if c < 0 {
        high := mid;
      } else if c > 0 {
        low := mid + 1;
      } else {
        return Some(mid);
      }
    }
    return None;
  }

  /** In a sorted table the entries of one group with one symbol are next to each other. */
  lemma MatchesAreContiguous(table: seq<TableEntry>, symbol: nat, group: nat, i: nat, j: nat)
    requires Sorted(table) && i <= j < |table|
    requires Matches(table[i], symbol, group) && Matches(table[j], symbol, group)
    ensures forall k | i <= k <= j :: Matches(table[k], symbol, group)
  {
  }

  /** keyboard_find_symbol_in_group: an entry is found exactly when the linear scan finds one, and it is
      the one where walking back from that entry ends. */
  method FindSymbolInGroup(table: seq<TableEntry>, symbol: nat, group: nat) returns (r: Option<nat>)
    requires Sorted(table)
    ensures r == FindInGroup(table, symbol, group)
  {
    var found := Bsearch(table, symbol, group);
    if found.None? { return None; }
    var entry := found.value;
    var first := FirstMatch(table, symbol, group);
    WalkBackFrom(table, symbol, group, found.value, first.value);
    while entry != 0 && table[entry - 1].symbol == symbol
      invariant 0 <= entry < |table| && table[entry].symbol == symbol
      invariant WalkBack(table, entry) == WalkBack(table, first.value)
    {
      entry := entry - 1;
    }
    return Some(entry);
  }

  function FindInGroup(table: seq<TableEntry>, symbol: nat, group: nat): (r: Option<nat>)
    ensures r.Some? ==> r.value < |table| && table[r.value].symbol == symbol
    ensures r.Some? <==> exists i | 0 <= i < |table| :: Matches(table[i], symbol, group)
  {
    match FirstMatch(table, symbol, group)
    case None => None
    case Some(f) => Some(WalkBack(table, f))
  }

  lemma {:induction false} WalkBackFrom(table: seq<TableEntry>, symbol: nat, group: nat, i: nat, first: nat)
    requires Sorted(table) && first <= i < |table|
    requires Matches(table[i], symbol, group) && Matches(table[first], symbol, group)
    ensures WalkBack(table, i) == WalkBack(table, first)
    decreases i
  {
    if first < i {
      MatchesAreContiguous(table, symbol, group, first, i);
      WalkBackFrom(table, symbol, group, i - 1, first);
    }
  }

  /** Entry k starts a group with the symbol that ends the group before it. */
  predicate Seam(table: seq<TableEntry>, k: nat)
  {
    0 < k < |table| && table[k].group != table[k - 1].group && table[k].symbol == table[k - 1].symbol
  }

  /** The lookup gives the entry of the linear scan exactly when that entry is not at a seam; at a seam it
      gives an entry of an earlier group. */
  lemma FindInGroupIsExact(table: seq<TableEntry>, symbol: nat, group: nat)
    requires Sorted(table) && FirstMatch(table, symbol, group).Some?
    ensures var f := FirstMatch(table, symbol, group).value;
            var r := FindInGroup(table, symbol, group).value;
            && (r == f <==> !Seam(table, f))
            && (Seam(table, f) ==> table[r].group < group)
  {
    var f := FirstMatch(table, symbol, group).value;
    if f > 0 && table[f - 1].symbol == symbol {
      assert !Matches(table[f - 1], symbol, group);
      SortedGroups(table, f - 1, f);
      SortedGroups(table, WalkBack(table, f), f - 1);
    }
  }

  lemma SortedGroups(table: seq<TableEntry>, i: nat, j: nat)
    requires Sorted(table) && i <= j < |table|
    ensures table[i].group <= table[j].group
  {
    if i < j { assert CompareSymbols(table[i], table[j]) <= 0; }
  }

  /** The linear scan starts at the entry with the lowest code. */
  lemma FirstMatchHasLowestCode(table: seq<TableEntry>, symbol: nat, group: nat, i: nat)
    requires Sorted(table) && i < |table| && Matches(table[i], symbol, group)
    ensures var f := FirstMatch(table, symbol, group); f.Some? && table[f.value].code <= table[i].code
  {
    var f := FirstMatch(table, symbol, group).value;
    if f < i { assert CompareSymbols(table[f], table[i]) <= 0; }
  }

  // ---------------------------------------------------------------------------------------------------
  // Matching the level

  /** match_level as a scan: the first entry from i on with the level that the modifiers select, as long as
      the symbol does not change. */
  function LevelMatch(table: seq<TableEntry>, i: nat, level: (nat, nat) -> int): (r: Option<nat>)
    requires i < |table|
    ensures r.Some? ==> i <= r.value < |table| && table[r.value].symbol == table[i].symbol
                        && table[r.value].level == level(table[r.value].code, table[r.value].group)
    decreases |table| - i
  {
    if table[i].level == level(table[i].code, table[i].group) then Some(i)
    else if i + 1 < |table| && table[i + 1].symbol == table[i].symbol then LevelMatch(table, i + 1, level)
    else None
  }

  method MatchLevel(table: seq<TableEntry>, start: nat, level: (nat, nat) -> int) returns (r: Option<nat>)
    requires start < |table|
    ensures r == LevelMatch(table, start, level)
  {
    var symbol := table[start].symbol;
    var entry := start;
    while true
      invariant start <= entry < |table| && table[entry].symbol == symbol
      invariant LevelMatch(table, entry, level) == LevelMatch(table, start, level)
      decreases |table| - entry
    {
      if table[entry].level == level(table[entry].code, table[entry].group) {
        return Some(entry);
      }
      entry := entry + 1;
      if entry >= |table| || table[entry].symbol != symbol { break; }
    }
    return None;
  }

  ghost predicate HasLevel(table: seq<TableEntry>, i: nat, level: (nat, nat) -> int)
    requires i < |table|
  {
    table[i].level == level(table[i].code, table[i].group)
  }

  /** The scan succeeds exactly when an entry of the run has the level. */
  lemma {:induction false} LevelMatchFinds(table: seq<TableEntry>, i: nat, end: nat, level: (nat, nat) -> int)
    requires i < end <= |table| && (forall k | i <= k < end :: table[k].symbol == table[i].symbol)
    requires end == |table| || table[end].symbol != table[i].symbol
    ensures LevelMatch(table, i, level).Some? <==> exists k | i <= k < end :: HasLevel(table, k, level)
    ensures LevelMatch(table, i, level).Some? ==> LevelMatch(table, i, level).value < end
    decreases |table| - i
  {
    if HasLevel(table, i, level) {
    } else if i + 1 < end {
      LevelMatchFinds(table, i + 1, end, level);
    }
  }

  /** Where the entries of one group with one symbol end. */
  function EndOfMatches(table: seq<TableEntry>, i: nat, symbol: nat, group: nat): (end: nat)
    requires i <= |table|
    ensures i <= end <= |table| && (forall k | i <= k < end :: Matches(table[k], symbol, group))
    ensures end == |table| || !Matches(table[end], symbol, group)
    decreases |table| - i
  {
    if i < |table| && Matches(table[i], symbol, group) then EndOfMatches(table, i + 1, symbol, group) else i
  }

  /** What a lookup followed by level matching is for: it finds an entry exactly when some entry of the group
      with the symbol has the level, and the entry it finds is one of them. */
  ghost predicate LevelCorrect(table: seq<TableEntry>, symbol: nat, group: nat, level: (nat, nat) -> int)
  {
    FindInGroup(table, symbol, group).Some? &&
    var r := LevelMatch(table, FindInGroup(table, symbol, group).value, level);
    && (r.Some? <==> exists i | 0 <= i < |table| && Matches(table[i], symbol, group) :: HasLevel(table, i, level))
    && (r.Some? ==> Matches(table[r.value], symbol, group))
  }

  lemma LevelsAreCorrect(table: seq<TableEntry>, symbol: nat, group: nat, level: (nat, nat) -> int)
    requires Sorted(table) && FirstMatch(table, symbol, group).Some?
    requires var f := FirstMatch(table, symbol, group).value;
             !Seam(table, f) && !Seam(table, EndOfMatches(table, f, symbol, group))
    ensures LevelCorrect(table, symbol, group, level)
  {
    var f := FirstMatch(table, symbol, group).value;
    var end := EndOfMatches(table, f, symbol, group);
    FindInGroupIsExact(table, symbol, group);
    LevelMatchFinds(table, f, end, level);
    forall i | 0 <= i < |table| && Matches(table[i], symbol, group) ensures f <= i < end {
      if i >= end {
        MatchesAreContiguous(table, symbol, group, f, i);
      }
    }
  }

  /** The modifiers may select the level of one entry and of no other key. */
  function OnlyLevel(e: TableEntry): (level: (nat, nat) -> int)
  {
    (code: nat, group: nat) => if code == e.code && group == e.group then e.level else -1
  }

  lemma {:induction false} LevelMatchWalks(table: seq<TableEntry>, i: nat, end: nat, level: (nat, nat) -> int)
    requires i <= end < |table| && (forall k | i <= k <= end :: table[k].symbol == table[i].symbol)
    requires (forall k | i <= k < end :: !HasLevel(table, k, level)) && HasLevel(table, end, level)
    ensures LevelMatch(table, i, level) == Some(end)
    decreases end - i
  {
    if i < end {
      assert !HasLevel(table, i, level);
      LevelMatchWalks(table, i + 1, end, level);
    }
  }

  lemma SeamBeforeIsWrong(table: seq<TableEntry>, symbol: nat, group: nat)
    requires Sorted(table) && FirstMatch(table, symbol, group).Some?
    requires Seam(table, FirstMatch(table, symbol, group).value)
    ensures !LevelCorrect(table, symbol, group, OnlyLevel(table[FindInGroup(table, symbol, group).value]))
  {
    var r := FindInGroup(table, symbol, group).value;
    FindInGroupIsExact(table, symbol, group);
    LevelMatchWalks(table, r, r, OnlyLevel(table[r]));
  }

  lemma SeamAfterIsWrong(table: seq<TableEntry>, symbol: nat, group: nat)
    requires Sorted(table) && FirstMatch(table, symbol, group).Some?
    requires var f := FirstMatch(table, symbol, group).value;
             !Seam(table, f) && Seam(table, EndOfMatches(table, f, symbol, group))
    ensures var end := EndOfMatches(table, FirstMatch(table, symbol, group).value, symbol, group);
            !LevelCorrect(table, symbol, group, OnlyLevel(table[end]))
  {
    var f := FirstMatch(table, symbol, group).value;
    var end := EndOfMatches(table, f, symbol, group);
    FindInGroupIsExact(table, symbol, group);
    CrossesInto(table, symbol, group, f, end);
  }

  lemma CrossesInto(table: seq<TableEntry>, symbol: nat, group: nat, f: nat, end: nat)
    requires f < end < |table| && (forall k | f <= k < end :: Matches(table[k], symbol, group)) && Seam(table, end)
    ensures LevelMatch(table, f, OnlyLevel(table[end])) == Some(end) && !Matches(table[end], symbol, group)
  {
    assert Matches(table[end - 1], symbol, group);
    LevelMatchWalks(table, f, end, OnlyLevel(table[end]));
  }

  /** Level matching is right for all modifiers exactly when there is no seam at either end of the group's
      entries for the symbol. */
  lemma LevelsAreCorrectExactly(table: seq<TableEntry>, symbol: nat, group: nat)
    requires Sorted(table) && FirstMatch(table, symbol, group).Some?
    ensures var f := FirstMatch(table, symbol, group).value;
            (forall level: (nat, nat) -> int :: LevelCorrect(table, symbol, group, level)) <==>
            (!Seam(table, f) && !Seam(table, EndOfMatches(table, f, symbol, group)))
  {
    var f := FirstMatch(table, symbol, group).value;
    if Seam(table, f) {
      SeamBeforeIsWrong(table, symbol, group);
    } else if Seam(table, EndOfMatches(table, f, symbol, group)) {
      SeamAfterIsWrong(table, symbol, group);
    } else {
      forall level: (nat, nat) -> int ensures LevelCorrect(table, symbol, group, level) {
        LevelsAreCorrect(table, symbol, group, level);
      }
    }
  }

  // ---------------------------------------------------------------------------------------------------
  // Groups

  /** The group tried after `h` others, counting cyclically from the active one. */
  function GroupAt(current: nat, h: nat, groups: nat): (r: nat)
    requires current < groups
    ensures r < groups
  {
    (current + h) % groups
  }

  function TryGroups(table: seq<TableEntry>, symbol: nat, current: nat, g: nat, groups: nat): (r: Option<(nat, nat)>)
    requires g <= groups && current < groups
    ensures r.Some? ==> r.value.0 < groups && FindInGroup(table, symbol, r.value.0) == Some(r.value.1)
    decreases groups - g
  {
    if g == groups then None
    else
      match FindInGroup(table, symbol, GroupAt(current, g, groups))
      case Some(i) => Some((GroupAt(current, g, groups), i))
      case None => TryGroups(table, symbol, current, g + 1, groups)
  }

  /** The search loop of keyboard_find_symbol. */
  method FindSymbol(table: seq<TableEntry>, symbol: nat, current: nat, groups: nat) returns (r: Option<(nat, nat)>)
    requires Sorted(table) && current < groups
    ensures r == TryGroups(table, symbol, current, 0, groups)
  {
    for g := 0 to groups
      invariant TryGroups(table, symbol, current, g, groups) == TryGroups(table, symbol, current, 0, groups)
    {
      var group := (current + g) % groups;
      var entry := FindSymbolInGroup(table, symbol, group);
      if entry.Some? {
        return Some((group, entry.value));
      }
    }
    return None;
  }

  ghost predicate GroupHas(table: seq<TableEntry>, symbol: nat, group: nat)
  {
    exists i | 0 <= i < |table| :: Matches(table[i], symbol, group)
  }

  /** The group found is the first one in cyclic order, the h-th tried, that has the symbol. */
  lemma {:induction false} FindsFirstGroup(table: seq<TableEntry>, symbol: nat, current: nat, g: nat, groups: nat)
    returns (h: nat)
    requires current < groups && g <= groups
    ensures g <= h <= groups
    ensures forall k | g <= k < h :: !GroupHas(table, symbol, GroupAt(current, k, groups))
    ensures var r := TryGroups(table, symbol, current, g, groups);
            && (r.None? <==> h == groups)
            && (r.Some? ==> r.value.0 == GroupAt(current, h, groups) && GroupHas(table, symbol, r.value.0))
    decreases groups - g
  {
    if g == groups || FindInGroup(table, symbol, GroupAt(current, g, groups)).Some? {
      h := g;
    } else {
      h := FindsFirstGroup(table, symbol, current, g + 1, groups);
    }
  }

  /** A symbol is found exactly when some group has it. */
  lemma FindsAnyGroup(table: seq<TableEntry>, symbol: nat, current: nat, groups: nat)
    requires current < groups
    ensures TryGroups(table, symbol, current, 0, groups).Some? <==>
            exists group | 0 <= group < groups :: GroupHas(table, symbol, group)
  {
    var h := FindsFirstGroup(table, symbol, current, 0, groups);
    if h == groups {
      forall group | 0 <= group < groups ensures !GroupHas(table, symbol, group) {
        var k := if group >= current then group - current else group + groups - current;
        CyclicIndex(current, group, groups);
        assert !GroupHas(table, symbol, GroupAt(current, k, groups));
      }
    }
  }

  lemma CyclicIndex(current: nat, group: nat, groups: nat)
    requires current < groups && group < groups
    ensures var h := if group >= current then group - current else group + groups - current;
            0 <= h < groups && GroupAt(current, h, groups) == group
  {
    if group < current {
      assert (group + groups) % groups == group;
    }
  }

  /** Some key of the keymap has the symbol in the group. */
  ghost predicate KeymapHas(map_: Keymap, symbol: nat, group: nat)
  {
    exists e :: InKeymap(map_, e) && Matches(e, symbol, group)
  }

  lemma SortedKeepsEntries(filled: seq<TableEntry>, table: seq<TableEntry>, e: TableEntry)
    requires multiset(table) == multiset(filled)
    ensures e in table <==> e in filled
  {
    assert e in multiset(table) <==> e in multiset(filled);
  }

  lemma TableGroups(map_: Keymap, filled: seq<TableEntry>, table: seq<TableEntry>, symbol: nat, group: nat)
    requires (forall e :: e in filled <==> InKeymap(map_, e)) && multiset(table) == multiset(filled)
    ensures GroupHas(table, symbol, group) <==> KeymapHas(map_, symbol, group)
  {
    forall e ensures e in table <==> InKeymap(map_, e) { SortedKeepsEntries(filled, table, e); }
    if KeymapHas(map_, symbol, group) {
      var e :| InKeymap(map_, e) && Matches(e, symbol, group);
      assert e in table;
      var i :| 0 <= i < |table| && table[i] == e;
    }
  }

  /** From the keymap to the search: whatever order qsort leaves the filled table in, a symbol is found exactly when
      some key of the keymap has it, in the first group in cyclic order from the active one where one does. */
  lemma KeymapIsSearched(map_: Keymap, filled: seq<TableEntry>, table: seq<TableEntry>, symbol: nat, current: nat)
    requires (forall e :: e in filled <==> InKeymap(map_, e)) && multiset(table) == multiset(filled)
    requires current < |map_.keys|
    ensures var r := TryGroups(table, symbol, current, 0, |map_.keys|);
            && (r.Some? <==> exists group | 0 <= group < |map_.keys| :: KeymapHas(map_, symbol, group))
            && (r.Some? ==> exists h | 0 <= h < |map_.keys| ::
                  && r.value.0 == GroupAt(current, h, |map_.keys|) && KeymapHas(map_, symbol, r.value.0)
                  && forall k | 0 <= k < h :: !KeymapHas(map_, symbol, GroupAt(current, k, |map_.keys|)))
  {
    forall group { TableGroups(map_, filled, table, symbol, group); }
    hide GroupHas, KeymapHas, InKeymap, TryGroups;
    FindsAnyGroup(table, symbol, current, |map_.keys|);
    var h := FindsFirstGroup(table, symbol, current, 0, |map_.keys|);
  }

  // ---------------------------------------------------------------------------------------------------
  // Seams occur

  /** A keyboard with one key, which has the same symbol in both of its groups. */
  const ONE_KEY := Keymap([[[[97]]], [[[97]]]])
  const ONE_KEY_TABLE := [TableEntry(97, 0, 0, 0), TableEntry(97, 0, 0, 1)]

  lemma OneKeyTable()
    ensures Sorted(ONE_KEY_TABLE) && forall e :: e in ONE_KEY_TABLE <==> InKeymap(ONE_KEY, e)
  {
    forall e | InKeymap(ONE_KEY, e) ensures e in ONE_KEY_TABLE {
      assert e == ONE_KEY_TABLE[e.group];
    }
    assert InKeymap(ONE_KEY, ONE_KEY_TABLE[0]) && InKeymap(ONE_KEY, ONE_KEY_TABLE[1]);
  }

  /** There the lookup in the second group gives an entry of the first, and there are modifiers for which level
      matching is wrong. */
  lemma SeamsOccur()
    ensures Sorted(ONE_KEY_TABLE) && forall e :: e in ONE_KEY_TABLE <==> InKeymap(ONE_KEY, e)
    ensures FirstMatch(ONE_KEY_TABLE, 97, 1) == Some(1) && Seam(ONE_KEY_TABLE, 1)
    ensures var r := FindInGroup(ONE_KEY_TABLE, 97, 1); r.Some? && ONE_KEY_TABLE[r.value].group == 0
    ensures exists level: (nat, nat) -> int :: !LevelCorrect(ONE_KEY_TABLE, 97, 1, level)
  {
    OneKeyTable();
    SecondGroup();
    hide FirstMatch, FindInGroup, InKeymap, Sorted, LevelCorrect, EndOfMatches;
    FindInGroupIsExact(ONE_KEY_TABLE, 97, 1);
    LevelsAreCorrectExactly(ONE_KEY_TABLE, 97, 1);
  }

  lemma SecondGroup()
    ensures FirstMatch(ONE_KEY_TABLE, 97, 1) == Some(1) && FindInGroup(ONE_KEY_TABLE, 97, 1).Some?
  {
    hide Sorted;
    assert !Matches(ONE_KEY_TABLE[0], 97, 1) && Matches(ONE_KEY_TABLE[1], 97, 1);
  }
}
