/** Cutting a byte stream into JSON values.

Both ends of the control socket call json_loadb on a read buffer and look at one of three outcomes. The
decoder is a parameter here; all that is asked of it is `Lawful`: once it has found a complete value or an
error, more input does not change its mind. Top-level values are objects and arrays, which delimit
themselves (sections 4 and 5 of RFC 8259). */
module Framing {

  newtype Byte = x: int | 0 <= x < 256
  type Bytes = seq<Byte>

  datatype Decoded<+V> = Complete(length: nat, value: V) | Incomplete | Malformed

  ghost predicate Lawful<V(!new)>(decode: Bytes -> Decoded<V>)
  {
    && (forall s: Bytes :: decode(s).Complete? ==> 0 < decode(s).length <= |s|)
    && (forall s: Bytes, t: Bytes :: decode(s).Complete? ==> decode(s + t) == decode(s))
    && (forall s: Bytes, t: Bytes :: decode(s).Malformed? ==> decode(s + t).Malformed?)
    && (forall s: Bytes {:trigger s[..decode(s).length]} ::
          decode(s).Complete? && decode(s).length <= |s| ==> decode(s[..decode(s).length]) == decode(s))
  }

  /** What repeated decoding makes of a whole stream: the values, and the bytes it is left with. */
  datatype Parsed<+V> = Parsed(values: seq<V>, rest: Bytes, malformed: bool)

  function Parse<V(!new)>(decode: Bytes -> Decoded<V>, s: Bytes): (r: Parsed<V>)
    requires Lawful(decode)
    decreases |s|
  {
    if s == [] then Parsed([], [], false)
    else match decode(s)
         case Complete(n, v) => var tail := Parse(decode, s[n..]); tail.(values := [v] + tail.values)
         case Incomplete => Parsed([], s, false)
         case Malformed => Parsed([], s, true)
  }

  /** Going on with `t` after a parse that ended in `a`. */
  function Resume<V(!new)>(decode: Bytes -> Decoded<V>, a: Parsed<V>, t: Bytes): (r: Parsed<V>)
    requires Lawful(decode)
  {
    if a.malformed then Parsed(a.values, a.rest + t, true)
    else var b := Parse(decode, a.rest + t); Parsed(a.values + b.values, b.rest, b.malformed)
  }

  lemma ResumeAfter<V(!new)>(decode: Bytes -> Decoded<V>, v: V, a: Parsed<V>, t: Bytes)
    requires Lawful(decode)
    ensures var r := Resume(decode, a, t);
            Resume(decode, a.(values := [v] + a.values), t) == r.(values := [v] + r.values)
  {
    if !a.malformed {
      var b := Parse(decode, a.rest + t);
      assert [v] + (a.values + b.values) == ([v] + a.values) + b.values;
    }
  }

  /** Continuing after a cut gives what parsing the uncut stream gives. */
  lemma {:induction false} ParseAppend<V(!new)>(decode: Bytes -> Decoded<V>, s: Bytes, t: Bytes)
    requires Lawful(decode)
    ensures Parse(decode, s + t) == Resume(decode, Parse(decode, s), t)
    decreases |s|
  {
    if s == [] {
      assert s + t == t;
    } else {
      match decode(s)
      case Complete(n, v) =>
        assert decode(s + t) == decode(s);
        assert (s + t)[n..] == s[n..] + t;
        ParseAppend(decode, s[n..], t);
        ResumeAfter(decode, v, Parse(decode, s[n..]), t);
      case Incomplete =>
      case Malformed =>
        assert decode(s + t).Malformed?;
    }
  }

  lemma {:induction false} ParseRest<V(!new)>(decode: Bytes -> Decoded<V>, s: Bytes)
    requires Lawful(decode)
    ensures var r := Parse(decode, s);
            && |r.rest| <= |s|
            && (r.rest != [] ==> decode(r.rest) == if r.malformed then Malformed else Incomplete)
    decreases |s|
  {
    if s != [] && decode(s).Complete? { ParseRest(decode, s[decode(s).length..]); }
  }

  /** The stream is made of complete values, none longer than `limit`. A value counts with the white space
      before it. */
  ghost predicate AllFit<V(!new)>(decode: Bytes -> Decoded<V>, s: Bytes, limit: nat)
    requires Lawful(decode)
    decreases |s|
  {
    s != [] ==> decode(s).Complete? && decode(s).length <= limit && AllFit(decode, s[decode(s).length..], limit)
  }

  ghost predicate Whole<V(!new)>(decode: Bytes -> Decoded<V>, s: Bytes)
    requires Lawful(decode)
  {
    Parse(decode, s).rest == [] && !Parse(decode, s).malformed
  }

  /** A proper beginning of a value is neither complete nor wrong. */
  lemma CutValueIsIncomplete<V(!new)>(decode: Bytes -> Decoded<V>, s: Bytes, k: nat)
    requires Lawful(decode) && decode(s).Complete? && k < decode(s).length
    ensures decode(s[..k]).Incomplete?
  {
    assert s == s[..k] + s[k..];
  }

  /** Everything that arrives before the end of a stream of fitting values leaves less than `limit` bytes
      undecoded. */
  lemma {:induction false} FittingRest<V(!new)>(decode: Bytes -> Decoded<V>, s: Bytes, k: nat, limit: nat)
    requires Lawful(decode) && AllFit(decode, s, limit) && k <= |s| && limit > 0
    ensures var r := Parse(decode, s[..k]); !r.malformed && |r.rest| < limit
    decreases |s|
  {
    if k > 0 {
      var n := decode(s).length;
      if k < n {
        CutValueIsIncomplete(decode, s, k);
      } else {
        assert s[..k][..n] == s[..n];
        assert decode(s[..n]) == decode(s);
        assert s[..k] == s[..n] + s[n..k];
        assert decode(s[..k]) == decode(s);
        assert s[..k][n..] == s[n..][..k - n];
        FittingRest(decode, s[n..], k - n, limit);
      }
    }
  }

  /** A stream with a value longer than `limit` has a beginning that leaves `limit` bytes undecoded. */
  lemma {:induction false} LongValueFillsBuffer<V(!new)>(decode: Bytes -> Decoded<V>, s: Bytes, limit: nat)
    returns (k: nat)
    requires Lawful(decode) && Whole(decode, s) && !AllFit(decode, s, limit) && limit > 0
    ensures k <= |s| && !Parse(decode, s[..k]).malformed && |Parse(decode, s[..k]).rest| == limit
    decreases |s|
  {
    var n := decode(s).length;
    if n > limit {
      k := limit;
      CutValueIsIncomplete(decode, s, k);
    } else {
      var j := LongValueFillsBuffer(decode, s[n..], limit);
      k := n + j;
      assert decode(s[..n]) == decode(s);
      assert s[..k] == s[..n] + s[n..k];
      assert decode(s[..k]) == decode(s);
      assert s[..k][n..] == s[n..][..j];
    }
  }

  /** A buffer of `limit` bytes never fills up on a stream of complete values exactly when each of them
      fits into it. */
  lemma BufferSufficesExactly<V(!new)>(decode: Bytes -> Decoded<V>, s: Bytes, limit: nat)
    requires Lawful(decode) && Whole(decode, s) && limit > 0
    ensures AllFit(decode, s, limit) <==> (forall k: nat | k <= |s| :: |Parse(decode, s[..k]).rest| < limit)
  {
    if AllFit(decode, s, limit) {
      forall k: nat | k <= |s| ensures |Parse(decode, s[..k]).rest| < limit {
        FittingRest(decode, s, k, limit);
      }
    } else {
      var k := LongValueFillsBuffer(decode, s, limit);
    }
  }

  // ---------------------------------------------------------------------------------------------------
  // An instance: delimiting objects and arrays by their brackets, with strings and escapes.

  datatype Scan = Scan(depth: nat, inString: bool, escaped: bool)

  function Advance(st: Scan, c: Byte): (r: Scan)
  {
    if st.inString then
      if st.escaped then st.(escaped := false)
      else if c == 0x5C then st.(escaped := true)
      else if c == 0x22 then st.(inString := false)
      else st
    else if c == 0x22 then st.(inString := true)
    else if c == 0x7B || c == 0x5B then st.(depth := st.depth + 1)
    else if (c == 0x7D || c == 0x5D) && st.depth > 0 then st.(depth := st.depth - 1)
    else st
  }

  predicate IsSpace(c: Byte)
  {
    c == 0x20 || c == 0x09 || c == 0x0A || c == 0x0D
  }

  /** Where the value that starts before position i ends, if it does. */
  function FindEnd(s: Bytes, i: nat, st: Scan): (r: Decoded<()>)
    requires i <= |s|
    ensures r.Complete? ==> i < r.length <= |s|
    decreases |s| - i
  {
    if i == |s| then Incomplete
    else
      var next := Advance(st, s[i]);
      if next.depth == 0 && !next.inString then Complete(i + 1, ()) else FindEnd(s, i + 1, next)
  }

  function FindStart(s: Bytes, i: nat): (r: Decoded<()>)
    requires i <= |s|
    ensures r.Complete? ==> i < r.length <= |s|
    decreases |s| - i
  {
    if i == |s| then Incomplete
    else if IsSpace(s[i]) then FindStart(s, i + 1)
    else if s[i] == 0x7B || s[i] == 0x5B then FindEnd(s, i + 1, Scan(1, false, false))
    else Malformed
  }

  /** The value is the text itself. */
  function Delimit(s: Bytes): (r: Decoded<Bytes>)
  {
    match FindStart(s, 0)
    case Complete(n, _) => Complete(n, s[..n])
    case Incomplete => Incomplete
    case Malformed => Malformed
  }

  lemma {:induction false} FindEndStable(s: Bytes, t: Bytes, i: nat, st: Scan)
    requires i <= |s|
    ensures !FindEnd(s, i, st).Incomplete? ==> FindEnd(s + t, i, st) == FindEnd(s, i, st)
    ensures FindEnd(s, i, st).Complete? ==>
              FindEnd(s[..FindEnd(s, i, st).length], i, st) == FindEnd(s, i, st)
    decreases |s| - i
  {
    if i < |s| {
      FindEndStable(s, t, i + 1, Advance(st, s[i]));
    }
  }

  lemma {:induction false} FindStartStable(s: Bytes, t: Bytes, i: nat)
    requires i <= |s|
    ensures !FindStart(s, i).Incomplete? ==> FindStart(s + t, i) == FindStart(s, i)
    ensures FindStart(s, i).Complete? ==> FindStart(s[..FindStart(s, i).length], i) == FindStart(s, i)
    decreases |s| - i
  {
    if i < |s| {
      FindStartStable(s, t, i + 1);
      FindEndStable(s, t, i + 1, Scan(1, false, false));
    }
  }

  /** The laws are met by a real delimiter of JSON text. */
  lemma DelimitIsLawful()
    ensures Lawful(Delimit)
  {
    forall s: Bytes, t: Bytes
      ensures Delimit(s).Complete? ==> Delimit(s + t) == Delimit(s)
      ensures Delimit(s).Malformed? ==> Delimit(s + t).Malformed?
    {
      FindStartStable(s, t, 0);
      if Delimit(s).Complete? {
        assert (s + t)[..Delimit(s).length] == s[..Delimit(s).length];
      }
    }
    forall s: Bytes | Delimit(s).Complete? ensures Delimit(s[..Delimit(s).length]) == Delimit(s) {
      FindStartStable(s, [], 0);
      var n := Delimit(s).length;
      assert s[..n][..n] == s[..n];
    }
  }
}
