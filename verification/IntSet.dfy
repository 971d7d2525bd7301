/** The set of held keys (src/intset.c): an unordered array of distinct numbers. */
module IntSets {

  const DEFAULT_CAPACITY := 256
  const BYTES_PER_ELEMENT := 4

  /** The elements the storage has room for when a new value is written behind the `len` in use. A full array
      is reallocated first, with the doubled capacity passed as a size in bytes. */
  function RoomForWrite(len: nat, capacity: nat): (r: nat)
  {
    if len >= capacity then 2 * capacity / BYTES_PER_ELEMENT else capacity
  }

  /** The write stays inside the storage exactly when the array was not full. */
  lemma WriteStaysInsideExactly(len: nat, capacity: nat)
    requires capacity > 0
    ensures len < RoomForWrite(len, capacity) <==> len < capacity
  {
  }

  ghost function Elements(s: seq<int>): (r: set<int>)
  {
    set x | x in s
  }

  ghost predicate Distinct(s: seq<int>)
  {
    forall i, j | 0 <= i < j < |s| :: s[i] != s[j]
  }

  /** Replacing an element by the last one and dropping that removes exactly the element. */
  lemma SwapRemove(s: seq<int>, i: nat)
    requires Distinct(s) && i < |s|
    ensures var r := s[i := s[|s| - 1]][..|s| - 1];
            Distinct(r) && Elements(r) == Elements(s) - {s[i]}
  {
    var last := |s| - 1;
    var r := s[i := s[last]][..last];
    forall x | x in Elements(s) && x != s[i] ensures x in r {
      var j :| 0 <= j < |s| && s[j] == x;
      assert r[if j == last then i else j] == x;
    }
  }

  class IntSet {
    const storage: array<int>
    var len: nat

    ghost predicate Valid()
      reads this, storage
    {
      len <= storage.Length && Distinct(storage[..len])
    }

    ghost function Contents(): (r: set<int>)
      reads this, storage
      requires Valid()
    {
      Elements(storage[..len])
    }

    constructor (capacity: nat)
      ensures Valid() && Contents() == {} && fresh(storage)
      ensures storage.Length == if capacity == 0 then DEFAULT_CAPACITY else capacity
    {
      storage := new int[if capacity == 0 then DEFAULT_CAPACITY else capacity];
      len := 0;
    }

    method FindIndex(value: int) returns (index: int)
      requires Valid()
      ensures index == -1 || (0 <= index < len && storage[index] == value)
      ensures index == -1 <==> value !in Contents()
    {
      for i := 0 to len
        invariant value !in storage[..i]
      {
        if storage[i] == value {
          assert value in storage[..len];
          return i;
        }
      }
      return -1;
    }

    method IsSet(value: int) returns (r: bool)
      requires Valid()
      ensures r <==> value in Contents()
    {
      var index := FindIndex(value);
      return index >= 0;
    }

    /** Tells whether the write stays inside the storage. It does not exactly when a new value comes to a full set:
        the source writes behind the storage then, and the model stops. */
    method Set(value: int) returns (inside: bool)
      requires Valid()
      modifies this`len, storage
      ensures Valid() && (inside <==> value in old(Contents()) || old(len) < RoomForWrite(old(len), storage.Length))
      ensures Contents() == if inside then old(Contents()) + {value} else old(Contents())
      ensures len == if inside && value !in old(Contents()) then old(len) + 1 else old(len)
    {
      var isSet := IsSet(value);
      if isSet { return true; }
      if len >= RoomForWrite(len, storage.Length) { return false; }
      storage[len] := value;
      assert storage[..len] == old(storage[..len]);
      assert storage[..len + 1] == storage[..len] + [value];
      len := len + 1;
      return true;
    }

    method Clear(value: int)
      requires Valid()
      modifies this`len, storage
      ensures Valid() && Contents() == old(Contents()) - {value}
      ensures len == if value in old(Contents()) then old(len) - 1 else old(len)
    {
      var index := FindIndex(value);
      if index < 0 { return; }
      SwapRemove(storage[..len], index);
      ghost var before := storage[..len];
      len := len - 1;
      storage[index] := storage[len];
      assert storage[..len] == before[index := before[len]][..len];
    }
  }
}
