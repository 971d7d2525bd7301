/** A link that meets what the properties of the control connection ask of one: every message is written as a
JSON array of one string, and requests and messages are delimited by their brackets. */
module ControlInstance {
  import opened Wrappers
  import opened Framing
  import opened Control

  // ---------------------------------------------------------------------------------------------------
  // Messages as numbers

  function Chars(s: string): (r: seq<nat>)
    ensures |r| == |s| && forall i | 0 <= i < |s| :: r[i] == s[i] as int
  {
    seq(|s|, i requires 0 <= i < |s| => s[i] as int)
  }

  function Signed(n: int): (r: seq<nat>)
    ensures |r| == 2
  {
    if n >= 0 then [0, n] else [1, -n]
  }

  function IdNumbers(id: Id): (r: seq<nat>)
    ensures r != []
  {
    match id
    case Absent => [0]
    case Text(text) => [1, |text|] + Chars(text)
    case Number(number) => [2] + Signed(number)
    case Composite => [3]
  }

  function Numbers(m: Msg): (r: seq<nat>)
  {
    match m
    case Reply(id, code, data) => [0] + Signed(code) + (IdNumbers(id) + Chars(data))
    case Notice(name) => [1] + Chars(name)
  }

  lemma CharsInjective(a: string, b: string)
    requires Chars(a) == Chars(b)
    ensures a == b
  {
    forall i | 0 <= i < |a| ensures a[i] == b[i] { assert Chars(a)[i] == Chars(b)[i]; }
  }

  /** An id can be told from what follows it. */
  lemma IdsInjective(a: Id, x: string, b: Id, y: string)
    requires IdNumbers(a) + Chars(x) == IdNumbers(b) + Chars(y)
    ensures a == b && x == y
  {
    var s, t := IdNumbers(a) + Chars(x), IdNumbers(b) + Chars(y);
    assert s[0] == t[0] && IdNumbers(a)[0] == s[0] && IdNumbers(b)[0] == t[0];
    if a.Text? {
      assert s[1] == |a.text| && t[1] == |b.text|;
      var n := |a.text| + 2;
      assert IdNumbers(a) == s[..n] && IdNumbers(b) == t[..n];
      assert Chars(a.text) == IdNumbers(a)[2..] && Chars(b.text) == IdNumbers(b)[2..];
      CharsInjective(a.text, b.text);
    } else if a.Number? {
      assert s[1] == t[1] && s[2] == t[2];
      assert Signed(a.number) == s[1..3] && Signed(b.number) == t[1..3];
    }
    var n := |IdNumbers(a)|;
    assert Chars(x) == s[n..] && Chars(y) == t[n..];
    CharsInjective(x, y);
  }

  lemma NumbersInjective(a: Msg, b: Msg)
    requires Numbers(a) == Numbers(b)
    ensures a == b
  {
    var s, t := Numbers(a), Numbers(b);
    assert s[0] == t[0];
    if a.Reply? {
      assert Signed(a.code) == s[1..3] && Signed(b.code) == t[1..3];
      assert IdNumbers(a.id) + Chars(a.data) == s[3..] && IdNumbers(b.id) + Chars(b.data) == t[3..];
      IdsInjective(a.id, a.data, b.id, b.data);
    } else {
      assert Chars(a.name) == s[1..] && Chars(b.name) == t[1..];
      CharsInjective(a.name, b.name);
    }
  }

  // ---------------------------------------------------------------------------------------------------
  // Numbers as text

  /** The letter a, repeated. */
  function Letters(n: nat): (r: Bytes)
    ensures |r| == n && forall i | 0 <= i < n :: r[i] == 0x61
  {
    if n == 0 then [] else [0x61] + Letters(n - 1)
  }

  /** Each number in letters, with a b after it. */
  function Spell(ns: seq<nat>): (r: Bytes)
    ensures forall i | 0 <= i < |r| :: r[i] == 0x61 || r[i] == 0x62
  {
    if ns == [] then [] else Letters(ns[0]) + [0x62] + Spell(ns[1..])
  }

  lemma FirstNumber(ns: seq<nat>)
    requires ns != []
    ensures |Spell(ns)| > ns[0] && Spell(ns)[ns[0]] == 0x62 && forall i | 0 <= i < ns[0] :: Spell(ns)[i] == 0x61
  {
  }

  lemma {:induction false} SpellInjective(a: seq<nat>, b: seq<nat>)
    requires Spell(a) == Spell(b)
    ensures a == b
    decreases |a|
  {
    if a != [] && b != [] {
      var s, t := Spell(a), Spell(b);
      FirstNumber(a);
      FirstNumber(b);
      assert a[0] == b[0];
      assert Spell(a[1..]) == s[a[0] + 1..] && Spell(b[1..]) == t[b[0] + 1..];
      SpellInjective(a[1..], b[1..]);
      assert a == [a[0]] + a[1..] && b == [b[0]] + b[1..];
    }
  }

  /** An array of one string. */
  function Encode(m: Msg): (r: Bytes)
    ensures |r| >= 4
  {
    [0x5B, 0x22] + Spell(Numbers(m)) + [0x22, 0x5D]
  }

  lemma EncodeInjective(a: Msg, b: Msg)
    requires Encode(a) == Encode(b)
    ensures a == b
  {
    var n := |Encode(a)|;
    assert Spell(Numbers(a)) == Encode(a)[2..n - 2] && Spell(Numbers(b)) == Encode(b)[2..n - 2];
    SpellInjective(Numbers(a), Numbers(b));
    NumbersInjective(a, b);
  }

  lemma {:induction false} StringEnds(s: Bytes, i: nat)
    requires 2 <= i <= |s| - 2 && s[|s| - 2] == 0x22 && s[|s| - 1] == 0x5D
    requires forall k | 2 <= k < |s| - 2 :: s[k] == 0x61 || s[k] == 0x62
    ensures FindEnd(s, i, Scan(1, true, false)) == Complete(|s|, ())
    decreases |s| - i
  {
    if i < |s| - 2 {
      StringEnds(s, i + 1);
    } else {
      assert FindEnd(s, i + 1, Scan(1, false, false)) == Complete(|s|, ());
    }
  }

  lemma EncodedDelimits(m: Msg)
    ensures Delimit(Encode(m)) == Complete(|Encode(m)|, Encode(m))
  {
    var s := Encode(m);
    StringEnds(s, 2);
    assert Advance(Scan(1, false, false), s[1]) == Scan(1, true, false);
    assert FindStart(s, 0) == FindEnd(s, 1, Scan(1, false, false)) == FindEnd(s, 2, Scan(1, true, false));
    assert s[..|s|] == s;
  }

  // ---------------------------------------------------------------------------------------------------
  // The link

  ghost function Read(text: Bytes): (r: Option<Msg>)
  {
    if exists m :: Encode(m) == text then (var m :| Encode(m) == text; Some(m)) else None
  }

  ghost function Decode(s: Bytes): (r: Decoded<Msg>)
  {
    match Delimit(s)
    case Complete(n, text) => if Read(text).Some? then Complete(n, Read(text).value) else Malformed
    case Incomplete => Incomplete
    case Malformed => Malformed
  }

  lemma DecodeIsLawful()
    ensures Lawful(Decode)
  {
    hide Delimit, Read;
    DelimitIsLawful();
    forall s: Bytes | Decode(s).Complete? ensures Decode(s[..Decode(s).length]) == Decode(s) {
      assert Delimit(s[..Delimit(s).length]) == Delimit(s);
    }
  }

  ghost function AnyLink(envelope: Bytes -> Envelope, command: (nat, Bytes) -> Command): (link: Link)
  {
    Link(Delimit, envelope, command, Encode, Decode)
  }

  /** Whatever the commands do, there is a link that meets the assumptions. */
  lemma LinksExist(envelope: Bytes -> Envelope, command: (nat, Bytes) -> Command)
    ensures AnyLink(envelope, command).Valid()
  {
    DelimitIsLawful();
    DecodeIsLawful();
    forall m ensures Encode(m) != [] && Decode(Encode(m)) == Complete(|Encode(m)|, m) {
      EncodedDelimits(m);
      forall other | Encode(other) == Encode(m) { EncodeInjective(other, m); }
    }
  }
}
