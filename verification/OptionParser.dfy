/** The command-line parser (src/option-parser.c): its parsing as functions of the argument list, and the
proof that the spelling of an option does not matter. */
module OptionParser {
  import opened Wrappers

  /** An option description. A short name of NUL, like an absent long name, means that there is none;
      `takesValue` says that it has a schema. */
  datatype Opt = Opt(short: char, long: Option<string>, takesValue: bool, positional: Option<string>,
                     isSubcommand: bool, isRepeating: bool)

  datatype Value = Value(option: nat, text: string)

  datatype Parser = Parser(values: seq<Value>, position: nat)

  const FRESH := Parser([], 0)

  /** A parsing step fails, finds the end of the options, or leaves a parser and a number of arguments it
      used; none when the rest belongs to a subcommand. */
  datatype Parsed = Fail | EndOfOptions | Used(parser: Parser, count: nat)

  /** The whole parse fails, or ends with the index of the first remaining argument. */
  datatype Outcome = Error | Finished(parser: Parser, rest: nat)

  const MAX_VALUES := 128
  const MAX_TEXT := 255      // the buffers for names and values hold 256 bytes with the terminator

  /** strlcpy into a buffer of 256 bytes. */
  function Clip(s: string): (r: string)
    ensures r <= s && |r| == if |s| <= MAX_TEXT then |s| else MAX_TEXT
  {
    if |s| <= MAX_TEXT then s else s[..MAX_TEXT]
  }

  /** An int passed as a char of eight bits with a sign. */
  function AsChar(n: int): (r: int)
    ensures -128 <= r <= 127 && (r - n) % 256 == 0
    ensures (0 <= n <= 127 ==> r == n) && (0 <= n ==> r <= n)
  {
    (n + 128) % 256 - 128
  }

  // ---------------------------------------------------------------------------------------------------
  // Finding options

  function FindLongFrom(opts: seq<Opt>, i: nat, name: string): (r: Option<nat>)
    requires i <= |opts|
    ensures r.Some? ==> i <= r.value < |opts| && opts[r.value].long == Some(name)
    ensures r.Some? ==> forall k | i <= k < r.value :: opts[k].long != Some(name)
    ensures r.None? ==> forall k | i <= k < |opts| :: opts[k].long != Some(name)
    decreases |opts| - i
  {
    if i == |opts| then None else if opts[i].long == Some(name) then Some(i) else FindLongFrom(opts, i + 1, name)
  }

  function FindLong(opts: seq<Opt>, name: string): (r: Option<nat>)
    ensures r.Some? ==> r.value < |opts| && opts[r.value].long == Some(name)
  {
    FindLongFrom(opts, 0, name)
  }

  function FindShortFrom(opts: seq<Opt>, i: nat, name: char): (r: Option<nat>)
    requires i <= |opts|
    ensures r.Some? ==> i <= r.value < |opts| && opts[r.value].short == name
    ensures r.Some? ==> forall k | i <= k < r.value :: opts[k].short != name
    ensures r.None? ==> forall k | i <= k < |opts| :: opts[k].short != name
    decreases |opts| - i
  {
    if i == |opts| then None else if opts[i].short == name then Some(i) else FindShortFrom(opts, i + 1, name)
  }

  function FindShort(opts: seq<Opt>, name: char): (r: Option<nat>)
    ensures r.Some? ==> r.value < |opts| && opts[r.value].short == name
  {
    FindShortFrom(opts, 0, name)
  }

  /** The `position`-th positional option from i on. */
  function FindPositionalFrom(opts: seq<Opt>, i: nat, position: nat): (r: Option<nat>)
    requires i <= |opts|
    ensures r.Some? ==> r.value < |opts| && opts[r.value].positional.Some?
    decreases |opts| - i
  {
    if i == |opts| then None
    else if opts[i].positional.None? then FindPositionalFrom(opts, i + 1, position)
    else if position == 0 then Some(i)
    else FindPositionalFrom(opts, i + 1, position - 1)
  }

  function IndexOf(s: string, c: char): (r: Option<nat>)
    ensures r.Some? ==> r.value < |s| && s[r.value] == c && c !in s[..r.value]
    ensures r.None? <==> c !in s
  {
    if s == [] then None
    else if s[0] == c then Some(0)
    else match IndexOf(s[1..], c)
         case None => None
         case Some(i) =>
           assert s[..i + 1] == [s[0]] + s[1..][..i];
           Some(i + 1)
  }

  // ---------------------------------------------------------------------------------------------------
  // Parsing

  function AppendValue(st: Parser, option: nat, text: string): (r: Option<Parser>)
  {
    if |st.values| >= MAX_VALUES then None
    else Some(st.(values := st.values + [Value(option, Clip(text))]))
  }

  function Appended(r: Option<Parser>, count: nat): (p: Parsed)
  {
    if r.Some? then Used(r.value, count) else Fail
  }

  function ParseLong(opts: seq<Opt>, st: Parser, argv: seq<string>, i: nat): (r: Parsed)
    requires i < |argv| && |argv[i]| >= 2
  {
    var text := Clip(argv[i][2..]);
    var eq := IndexOf(text, '=');
    var name := if eq.Some? then text[..eq.value] else text;
    match FindLong(opts, name)
    case None => Fail
    case Some(o) =>
      if !opts[o].takesValue then Appended(AppendValue(st, o, "1"), 1)
      else if eq.Some? then Appended(AppendValue(st, o, text[eq.value + 1..]), 1)
      else if i + 1 >= |argv| then Fail
      else Appended(AppendValue(st, o, argv[i + 1]), 2)
  }

  /** The short options of argument i from its j-th character on. */
  function ParseShort(opts: seq<Opt>, st: Parser, argv: seq<string>, i: nat, j: nat): (r: Parsed)
    requires i < |argv| && j <= |argv[i]|
    decreases |argv[i]| - j
  {
    var arg := argv[i];
    if j == |arg| then Used(st, 1)
    else
      match FindShort(opts, arg[j])
      case None => Fail
      case Some(o) =>
        if !opts[o].takesValue then
          match AppendValue(st, o, "1")
          case None => Fail
          case Some(st1) => ParseShort(opts, st1, argv, i, j + 1)
        else if j + 1 < |arg| then
          Appended(AppendValue(st, o, if arg[j + 1] == '=' then arg[j + 2..] else arg[j + 1..]), 1)
        else if i + 1 >= AsChar(|argv|) then Fail
        else Appended(AppendValue(st, o, argv[i + 1]), 2)
  }

  /** A count of 0 means that the rest belongs to the subcommand. */
  function ParsePositional(opts: seq<Opt>, st: Parser, arg: string): (r: Parsed)
  {
    match FindPositionalFrom(opts, 0, st.position)
    case None => Used(st, 1)
    case Some(o) =>
      match AppendValue(st, o, arg)
      case None => Fail
      case Some(st1) =>
        Used(if opts[o].isRepeating then st1 else st1.(position := st1.position + 1),
             if opts[o].isSubcommand then 0 else 1)
  }

  predicate IsEnd(arg: string) { arg == "--" }

  predicate IsLong(arg: string) { |arg| > 2 && arg[0] == '-' && arg[1] == '-' }

  predicate IsShort(arg: string) { |arg| > 0 && arg[0] == '-' && !(|arg| > 1 && arg[1] == '-') }

  /** One iteration of the parsing loop. */
  function ParseArgument(opts: seq<Opt>, st: Parser, argv: seq<string>, i: nat): (r: Parsed)
    requires i < |argv|
    ensures r.Used? ==> i + r.count <= |argv|
  {
    if IsEnd(argv[i]) then EndOfOptions
    else if IsLong(argv[i]) then ParseLong(opts, st, argv, i)
    else if IsShort(argv[i]) then
      ShortCount(opts, st, argv, i, 1);
      ParseShort(opts, st, argv, i, 1)
    else ParsePositional(opts, st, argv[i])
  }

  lemma {:induction false} ShortCount(opts: seq<Opt>, st: Parser, argv: seq<string>, i: nat, j: nat)
    requires i < |argv| && 0 < j <= |argv[i]|
    ensures var r := ParseShort(opts, st, argv, i, j); r.Used? ==> 1 <= r.count && i + r.count <= |argv|
    decreases |argv[i]| - j
  {
    if j < |argv[i]| && FindShort(opts, argv[i][j]).Some? {
      var o := FindShort(opts, argv[i][j]).value;
      if !opts[o].takesValue && AppendValue(st, o, "1").Some? {
        ShortCount(opts, AppendValue(st, o, "1").value, argv, i, j + 1);
      }
    }
  }

  /** The parsing loop over `size` arguments. */
  function Iterate(step: (Parser, nat) -> Parsed, size: nat, st: Parser, i: nat): (r: Outcome)
    requires i <= size
    ensures r.Finished? ==> i <= r.rest <= size
    decreases size - i
  {
    if i == size then Finished(st, i)
    else
      match step(st, i)
      case Fail => Error
      case EndOfOptions => Finished(st, i + 1)
      case Used(st1, n) =>
        if n == 0 then Finished(st1, i) else if i + n <= size then Iterate(step, size, st1, i + n) else Error
  }

  function Stepper(opts: seq<Opt>, argv: seq<string>): (r: (Parser, nat) -> Parsed)
  {
    (st: Parser, i: nat) => if i < |argv| then ParseArgument(opts, st, argv, i) else Fail
  }

  function ParseFrom(opts: seq<Opt>, st: Parser, argv: seq<string>, i: nat): (r: Outcome)
    requires i <= |argv|
  {
    Iterate(Stepper(opts, argv), |argv|, st, i)
  }

  // ---------------------------------------------------------------------------------------------------
  // Spellings

  /** The ways to write arguments. A cluster is a dash with the letters of some flags, which may end in an
      option with a value. */
  datatype Spelling =
    | LongFlag(option: nat)
    | LongFlagWith(option: nat, ignored: string)     // --flag=text
    | LongEq(option: nat, value: string)             // --name=value
    | LongNext(option: nat, value: string)           // --name value
    | Cluster(flags: seq<nat>, tail: Tail)
    | Word(text: string)

  datatype Tail =
    | NoTail
    | Glued(option: nat, value: string)              // -nvalue
    | ShortEq(option: nat, value: string)            // -n=value
    | ShortNext(option: nat, value: string)          // -n value

  /** What an argument means: a value for an option, or a positional argument. */
  datatype Meaning = Sets(option: nat, value: string) | Positional(text: string)

  function ShortNames(opts: seq<Opt>, flags: seq<nat>): (r: string)
    requires forall k | 0 <= k < |flags| :: flags[k] < |opts|
  {
    if flags == [] then [] else [opts[flags[0]].short] + ShortNames(opts, flags[1..])
  }

  function RenderTail(opts: seq<Opt>, tail: Tail): (r: (string, seq<string>))
    requires tail.NoTail? || tail.option < |opts|
  {
    match tail
    case NoTail => ("", [])
    case Glued(o, v) => ([opts[o].short] + v, [])
    case ShortEq(o, v) => ([opts[o].short] + "=" + v, [])
    case ShortNext(o, v) => ([opts[o].short], [v])
  }

  /** The option has a long name that leads to it. */
  predicate LongOk(opts: seq<Opt>, o: nat, takesValue: bool)
  {
    && o < |opts| && opts[o].long.Some? && opts[o].takesValue == takesValue
    && FindLong(opts, opts[o].long.value) == Some(o)
    && 0 < |opts[o].long.value| <= MAX_TEXT && '=' !in opts[o].long.value
  }

  predicate ShortOk(opts: seq<Opt>, o: nat, takesValue: bool)
  {
    o < |opts| && opts[o].takesValue == takesValue && FindShort(opts, opts[o].short) == Some(o)
  }

  predicate FlagsOk(opts: seq<Opt>, flags: seq<nat>)
  {
    forall k | 0 <= k < |flags| :: flags[k] < |opts| && ShortOk(opts, flags[k], false)
  }

  /** The spelling is one that the parser is meant to read. */
  predicate WellSpelled(opts: seq<Opt>, s: Spelling)
  {
    match s
    case LongFlag(o) => LongOk(opts, o, false)
    case LongFlagWith(o, _) => LongOk(opts, o, false)
    case LongEq(o, v) => LongOk(opts, o, true) && |opts[o].long.value| + 1 + |v| <= MAX_TEXT
    case LongNext(o, v) => LongOk(opts, o, true)
    case Cluster(flags, tail) =>
      && FlagsOk(opts, flags)
      && TailOk(opts, tail)
      && var text := ShortNames(opts, flags) + RenderTail(opts, tail).0; (text != [] ==> text[0] != '-')
    case Word(text) => text == [] || text[0] != '-'
  }

  predicate TailOk(opts: seq<Opt>, tail: Tail)
  {
    match tail
    case NoTail => true
    case Glued(o, v) => ShortOk(opts, o, true) && v != [] && v[0] != '='
    case ShortEq(o, v) => ShortOk(opts, o, true)
    case ShortNext(o, v) => ShortOk(opts, o, true)
  }

  function Render(opts: seq<Opt>, s: Spelling): (r: seq<string>)
    requires WellSpelled(opts, s)
    ensures |r| > 0
  {
    match s
    case LongFlag(o) => ["--" + opts[o].long.value]
    case LongFlagWith(o, ignored) => ["--" + opts[o].long.value + "=" + ignored]
    case LongEq(o, v) => ["--" + opts[o].long.value + "=" + v]
    case LongNext(o, v) => ["--" + opts[o].long.value, v]
    case Cluster(flags, tail) => ["-" + ShortNames(opts, flags) + RenderTail(opts, tail).0] + RenderTail(opts, tail).1
    case Word(text) => [text]
  }

  function Flags(flags: seq<nat>): (r: seq<Meaning>)
    ensures |r| == |flags|
  {
    if flags == [] then [] else [Sets(flags[0], "1")] + Flags(flags[1..])
  }

  function TailMeaning(tail: Tail): (r: seq<Meaning>)
  {
    if tail.NoTail? then [] else [Sets(tail.option, tail.value)]
  }

  /** The meaning says nothing about the spelling. */
  function Means(s: Spelling): (r: seq<Meaning>)
  {
    match s
    case LongFlag(o) => [Sets(o, "1")]
    case LongFlagWith(o, _) => [Sets(o, "1")]
    case LongEq(o, v) => [Sets(o, v)]
    case LongNext(o, v) => [Sets(o, v)]
    case Cluster(flags, tail) => Flags(flags) + TailMeaning(tail)
    case Word(text) => [Positional(text)]
  }

  // ---------------------------------------------------------------------------------------------------
  // The effect of a meaning, without any argument list

  /** The parser after the meanings; stopped is set when one of them was a subcommand. */
  datatype Effect = Overfull | Going(parser: Parser) | Stopped(parser: Parser)

  function Apply(opts: seq<Opt>, st: Parser, m: Meaning): (r: Effect)
  {
    match m
    case Sets(o, v) => (match AppendValue(st, o, v) case None => Overfull case Some(st1) => Going(st1))
    case Positional(text) =>
      match ParsePositional(opts, st, text)
      case Fail => Overfull
      case Used(st1, n) => if n == 0 then Stopped(st1) else Going(st1)
  }

  function ApplyAll(apply: (Parser, Meaning) -> Effect, st: Parser, ms: seq<Meaning>): (r: Effect)
    decreases |ms|
  {
    if ms == [] then Going(st)
    else match apply(st, ms[0])
         case Going(st1) => ApplyAll(apply, st1, ms[1..])
         case Overfull => Overfull
         case Stopped(st1) => Stopped(st1)
  }

  function Applier(opts: seq<Opt>): (r: (Parser, Meaning) -> Effect)
  {
    (st: Parser, m: Meaning) => Apply(opts, st, m)
  }

  function Result(opts: seq<Opt>, st: Parser, ms: seq<Meaning>): (r: Effect)
  {
    ApplyAll(Applier(opts), st, ms)
  }

  lemma {:induction false} SingleEffect(opts: seq<Opt>, st: Parser, m: Meaning)
    ensures Result(opts, st, [m]) == Apply(opts, st, m)
  {
    assert [m][1..] == [];
    var r := Apply(opts, st, m);
    if r.Going? { assert ApplyAll(Applier(opts), r.parser, []) == Going(r.parser); }
  }

  lemma {:induction false} ApplyAppend(apply: (Parser, Meaning) -> Effect, st: Parser, a: seq<Meaning>, b: seq<Meaning>)
    ensures var r := ApplyAll(apply, st, a);
            ApplyAll(apply, st, a + b) == if r.Going? then ApplyAll(apply, r.parser, b) else r
    decreases |a|
  {
    if a == [] {
      assert a + b == b;
    } else {
      assert (a + b)[1..] == a[1..] + b;
      var r := apply(st, a[0]);
      if r.Going? { ApplyAppend(apply, r.parser, a[1..], b); }
    }
  }

  // ---------------------------------------------------------------------------------------------------
  // Each spelling has its effect

  /** The arguments from i on begin with `part`. */
  predicate Stands(argv: seq<string>, i: nat, part: seq<string>)
  {
    i + |part| <= |argv| && forall k | 0 <= k < |part| :: argv[i + k] == part[k]
  }

  lemma {:induction false} StandsSplit(argv: seq<string>, i: nat, a: seq<string>, b: seq<string>)
    requires Stands(argv, i, a + b)
    ensures Stands(argv, i, a) && Stands(argv, i + |a|, b)
  {
    forall k | 0 <= k < |a| ensures argv[i + k] == a[k] {
      assert (a + b)[k] == a[k];
    }
    forall k | 0 <= k < |b| ensures argv[i + |a| + k] == b[k] {
      assert (a + b)[|a| + k] == b[k];
    }
  }

  lemma {:induction false} StandsMiddle(pre: seq<string>, mid: seq<string>, post: seq<string>)
    ensures var argv := pre + mid + post;
            Stands(argv, |pre|, mid) && argv[|pre| + |mid|..] == post && (post != [] ==> argv[|pre| + |mid|] == post[0])
  {
  }

  /** The step that corresponds to an effect. */
  function StepFor(e: Effect, count: nat): (r: Parsed)
  {
    match e
    case Overfull => Fail
    case Going(st) => Used(st, count)
    case Stopped(st) => Used(st, 0)
  }

  /** The spelling takes a value from the next argument after a short name. */
  predicate ReadsNext(s: Spelling) { s.Cluster? && s.tail.ShortNext? }

  /** The argument after i is below the limit, if it is looked at. */
  predicate InReach(next: bool, i: nat, limit: int) { next ==> i + 1 < limit }

  lemma {:induction false} IndexOfName(name: string, rest: string)
    requires '=' !in name
    ensures IndexOf(name, '=').None?
    ensures IndexOf(name + "=" + rest, '=') == Some(|name|)
    decreases |name|
  {
    var s := name + "=" + rest;
    assert s[|name|] == '=';
    assert s[..|name|] == name;
  }

  /** What a long argument is read as, once its name is known. */
  lemma LongReads(opts: seq<Opt>, st: Parser, argv: seq<string>, i: nat, o: nat, text: string)
    requires i < |argv| && |argv[i]| >= 2 && text == Clip(argv[i][2..])
    requires FindLong(opts, NamePart(text)) == Some(o) && o < |opts|
    ensures var eq := IndexOf(text, '=');
            ParseLong(opts, st, argv, i) ==
            if !opts[o].takesValue then Appended(AppendValue(st, o, "1"), 1)
            else if eq.Some? then Appended(AppendValue(st, o, text[eq.value + 1..]), 1)
            else if i + 1 >= |argv| then Fail
            else Appended(AppendValue(st, o, argv[i + 1]), 2)
  {
  }

  /** The part of a text before the first =. */
  function NamePart(text: string): (r: string)
  {
    var eq := IndexOf(text, '='); if eq.Some? then text[..eq.value] else text
  }

  lemma PlainName(name: string)
    requires '=' !in name && |name| <= MAX_TEXT
    ensures NamePart(Clip(name)) == name && IndexOf(Clip(name), '=').None?
  {
  }

  lemma NameAndValue(name: string, v: string)
    requires '=' !in name && |name| + 1 + |v| <= MAX_TEXT
    ensures var text := Clip(name + "=" + v);
            var eq := IndexOf(text, '=');
            NamePart(text) == name && eq.Some? && text[eq.value + 1..] == v
  {
    IndexOfName(name, v);
    hide IndexOf;
    assert (name + "=" + v)[|name| + 1..] == v;
    assert (name + "=" + v)[..|name|] == name;
  }

  lemma Dashed(rest: string)
    ensures ("--" + rest)[2..] == rest && (rest != [] ==> IsLong("--" + rest))
  {
  }

  /** The text behind the dashes, and what the buffer holds of it. */
  lemma {:induction false} LongText(opts: seq<Opt>, s: Spelling)
    requires WellSpelled(opts, s) && !s.Cluster? && !s.Word?
    ensures var name, text := opts[s.option].long.value, Clip(Render(opts, s)[0][2..]);
            var eq := IndexOf(text, '=');
            && |Render(opts, s)[0]| >= 2 && IsLong(Render(opts, s)[0])
            && NamePart(text) == name
            && (s.LongNext? ==> eq.None?)
            && (s.LongEq? ==> eq.Some? && text[eq.value + 1..] == s.value)
  {
    hide FindLong, NamePart, IndexOf, Clip, IsLong;
    var name := opts[s.option].long.value;
    match s
    case LongFlagWith(o, ignored) =>
      Dashed(name + "=" + ignored);
      assert Render(opts, s)[0] == "--" + (name + "=" + ignored);
      ClippedName(name, ignored);
    case LongEq(o, v) =>
      Dashed(name + "=" + v);
      assert Render(opts, s)[0] == "--" + (name + "=" + v);
      NameAndValue(name, v);
    case _ =>
      Dashed(name);
      PlainName(name);
  }

  lemma {:induction false} LongArgument(opts: seq<Opt>, st: Parser, argv: seq<string>, i: nat, s: Spelling)
    requires WellSpelled(opts, s) && !s.Cluster? && !s.Word?
    requires Stands(argv, i, Render(opts, s))
    ensures IsLong(argv[i])
    ensures ParseLong(opts, st, argv, i) == StepFor(Result(opts, st, Means(s)), |Render(opts, s)|)
  {
    hide ParseLong, FindLong, IndexOf, Clip, Result, IsLong, NamePart;
    assert argv[i] == Render(opts, s)[0];
    LongText(opts, s);
    SingleEffect(opts, st, Means(s)[0]);
    LongReads(opts, st, argv, i, s.option, Clip(argv[i][2..]));
    if s.LongNext? { assert argv[i + 1] == Render(opts, s)[1] == s.value; }
  }

  lemma {:induction false} ClippedName(name: string, rest: string)
    requires '=' !in name && |name| <= MAX_TEXT
    ensures NamePart(Clip(name + "=" + rest)) == name
  {
    var text := Clip(name + "=" + rest);
    if |name| == MAX_TEXT {
      assert text == name;
      IndexOfName(name, "");
    } else {
      var more := text[|name| + 1..];
      assert text == name + "=" + more;
      IndexOfName(name, more);
      assert text[..|name|] == name;
    }
  }

  lemma {:induction false} TailArgument(opts: seq<Opt>, st: Parser, argv: seq<string>, i: nat, j: nat, tail: Tail)
    requires TailOk(opts, tail) && i < |argv| && j <= |argv[i]|
    requires argv[i][j..] == RenderTail(opts, tail).0
    requires tail.ShortNext? ==> i + 1 < |argv| && argv[i + 1] == tail.value
    ensures ParseShort(opts, st, argv, i, j) ==
            if tail.ShortNext? && i + 1 >= AsChar(|argv|) then Fail
            else StepFor(Result(opts, st, TailMeaning(tail)), 1 + |RenderTail(opts, tail).1|)
  {
    var arg := argv[i];
    if !tail.NoTail? {
      SingleEffect(opts, st, TailMeaning(tail)[0]);
      assert arg[j] == arg[j..][0] == opts[tail.option].short;
      if j + 1 < |arg| {
        assert arg[j + 1..] == arg[j..][1..];
        assert arg[j + 1] == arg[j..][1];
        if tail.ShortEq? { assert arg[j + 2..] == arg[j..][2..] == tail.value; }
      }
    }
  }

  lemma {:induction false} FlagStep(opts: seq<Opt>, st: Parser, argv: seq<string>, i: nat, j: nat, o: nat)
    requires i < |argv| && j < |argv[i]| && ShortOk(opts, o, false) && argv[i][j] == opts[o].short
    ensures ParseShort(opts, st, argv, i, j) ==
            match AppendValue(st, o, "1") case None => Fail case Some(st1) => ParseShort(opts, st1, argv, i, j + 1)
  {
  }

  lemma {:induction false} FlagEffect(opts: seq<Opt>, st: Parser, o: nat, ms: seq<Meaning>)
    ensures Result(opts, st, [Sets(o, "1")] + ms) ==
            match AppendValue(st, o, "1") case None => Overfull case Some(st1) => Result(opts, st1, ms)
  {
    assert ([Sets(o, "1")] + ms)[1..] == ms;
  }

  lemma {:induction false} ClusterArgument(opts: seq<Opt>, st: Parser, argv: seq<string>, i: nat, j: nat,
                                           flags: seq<nat>, tail: Tail)
    requires TailOk(opts, tail) && FlagsOk(opts, flags)
    requires i < |argv| && j <= |argv[i]|
    requires argv[i][j..] == ShortNames(opts, flags) + RenderTail(opts, tail).0
    requires tail.ShortNext? ==> i + 1 < |argv| && argv[i + 1] == tail.value
    ensures ParseShort(opts, st, argv, i, j) ==
            if tail.ShortNext? && i + 1 >= AsChar(|argv|) then Fail
            else StepFor(Result(opts, st, Flags(flags) + TailMeaning(tail)), 1 + |RenderTail(opts, tail).1|)
    decreases |flags|
  {
    if flags == [] {
      assert Flags(flags) + TailMeaning(tail) == TailMeaning(tail);
      assert ShortNames(opts, flags) + RenderTail(opts, tail).0 == RenderTail(opts, tail).0;
      TailArgument(opts, st, argv, i, j, tail);
    } else {
      var arg := argv[i];
      var more := Flags(flags[1..]) + TailMeaning(tail);
      assert ShortOk(opts, flags[0], false) && FlagsOk(opts, flags[1..]);
      assert arg[j] == arg[j..][0] == opts[flags[0]].short;
      assert arg[j + 1..] == arg[j..][1..] == ShortNames(opts, flags[1..]) + RenderTail(opts, tail).0;
      assert Flags(flags) + TailMeaning(tail) == [Sets(flags[0], "1")] + more;
      FlagStep(opts, st, argv, i, j, flags[0]);
      FlagEffect(opts, st, flags[0], more);
      var st1 := AppendValue(st, flags[0], "1");
      if st1.Some? { ClusterArgument(opts, st1.value, argv, i, j + 1, flags[1..], tail); }
    }
  }

  lemma {:induction false} ClusterSpelling(opts: seq<Opt>, st: Parser, argv: seq<string>, i: nat, s: Spelling)
    requires WellSpelled(opts, s) && s.Cluster? && Stands(argv, i, Render(opts, s))
    ensures ParseArgument(opts, st, argv, i) ==
            if InReach(ReadsNext(s), i, AsChar(|argv|)) then StepFor(Result(opts, st, Means(s)), |Render(opts, s)|)
            else Fail
  {
    var text := Render(opts, s);
    assert argv[i] == text[0];
    assert argv[i][1..] == ShortNames(opts, s.flags) + RenderTail(opts, s.tail).0;
    if s.tail.ShortNext? { assert argv[i + 1] == text[1]; }
    ClusterArgument(opts, st, argv, i, 1, s.flags, s.tail);
  }

  lemma {:induction false} WordSpelling(opts: seq<Opt>, st: Parser, argv: seq<string>, i: nat)
    requires i < |argv| && WellSpelled(opts, Word(argv[i]))
    ensures ParseArgument(opts, st, argv, i) == StepFor(Apply(opts, st, Positional(argv[i])), 1)
  {
  }

  /** One iteration of the parser over any spelling has the effect of its meaning, unless it is a -n value out of
      reach, which is an error. */
  lemma {:induction false} OneSpelling(opts: seq<Opt>, st: Parser, argv: seq<string>, i: nat, s: Spelling)
    requires WellSpelled(opts, s) && Stands(argv, i, Render(opts, s))
    ensures ParseArgument(opts, st, argv, i) ==
            if InReach(ReadsNext(s), i, AsChar(|argv|)) then StepFor(Result(opts, st, Means(s)), |Render(opts, s)|)
            else Fail
  {
    assert argv[i] == Render(opts, s)[0];
    if s.Cluster? {
      ClusterSpelling(opts, st, argv, i, s);
    } else if s.Word? {
      WordSpelling(opts, st, argv, i);
      SingleEffect(opts, st, Positional(s.text));
    } else {
      LongArgument(opts, st, argv, i, s);
    }
  }

  // ---------------------------------------------------------------------------------------------------
  // Whole argument lists

  predicate AllWell(opts: seq<Opt>, ss: seq<Spelling>)
  {
    ss != [] ==> WellSpelled(opts, ss[0]) && AllWell(opts, ss[1..])
  }

  function RenderAll(opts: seq<Opt>, ss: seq<Spelling>): (r: seq<string>)
    requires AllWell(opts, ss)
  {
    if ss == [] then [] else Render(opts, ss[0]) + RenderAll(opts, ss[1..])
  }

  function MeansAll(ss: seq<Spelling>): (r: seq<Meaning>)
  {
    if ss == [] then [] else Means(ss[0]) + MeansAll(ss[1..])
  }

  /** Every -n value of the arguments from i on is in reach. */
  predicate AllInReach(opts: seq<Opt>, ss: seq<Spelling>, i: nat, limit: int)
    requires AllWell(opts, ss)
  {
    ss != [] ==>
      InReach(ReadsNext(ss[0]), i, limit) && AllInReach(opts, ss[1..], i + |Render(opts, ss[0])|, limit)
  }

  /** With at most 127 arguments everything is. */
  lemma {:induction false} ShortLinesAreInReach(opts: seq<Opt>, ss: seq<Spelling>, i: nat, size: nat)
    requires AllWell(opts, ss) && i + |RenderAll(opts, ss)| <= size <= 127
    ensures AllInReach(opts, ss, i, AsChar(size))
    decreases |ss|
  {
    if ss != [] {
      hide WellSpelled;
      NextIsRendered(opts, ss[0]);
      ShortLinesAreInReach(opts, ss[1..], i + |Render(opts, ss[0])|, size);
    }
  }

  lemma NextIsRendered(opts: seq<Opt>, s: Spelling)
    requires WellSpelled(opts, s)
    ensures ReadsNext(s) ==> |Render(opts, s)| == 2
  {
  }

  /** A piece of the argument list with its meaning; `next` says that it takes its value from the next argument. */
  datatype Part = Part(text: seq<string>, means: seq<Meaning>, next: bool)

  function Parts(opts: seq<Opt>, ss: seq<Spelling>): (r: seq<Part>)
    requires AllWell(opts, ss)
  {
    if ss == [] then [] else [Part(Render(opts, ss[0]), Means(ss[0]), ReadsNext(ss[0]))] + Parts(opts, ss[1..])
  }

  function JoinText(parts: seq<Part>): (r: seq<string>)
  {
    if parts == [] then [] else parts[0].text + JoinText(parts[1..])
  }

  function JoinMeans(parts: seq<Part>): (r: seq<Meaning>)
  {
    if parts == [] then [] else parts[0].means + JoinMeans(parts[1..])
  }

  predicate PartsInReach(parts: seq<Part>, i: nat, limit: int)
  {
    parts != [] ==> InReach(parts[0].next, i, limit) && PartsInReach(parts[1..], i + |parts[0].text|, limit)
  }

  /** Wherever the piece stands in the argument list, one step over it has the effect of its meaning, or is an error
      if it is out of reach. */
  ghost predicate PartOk(step: (Parser, nat) -> Parsed, apply: (Parser, Meaning) -> Effect, argv: seq<string>,
                         part: Part)
  {
    part.text != [] &&
    forall st: Parser, i: nat | Stands(argv, i, part.text) ::
      step(st, i) == if InReach(part.next, i, AsChar(|argv|)) then StepFor(ApplyAll(apply, st, part.means), |part.text|)
                     else Fail
  }

  ghost predicate PartsOk(step: (Parser, nat) -> Parsed, apply: (Parser, Meaning) -> Effect, argv: seq<string>,
                          parts: seq<Part>)
  {
    parts != [] ==> PartOk(step, apply, argv, parts[0]) && PartsOk(step, apply, argv, parts[1..])
  }

  /** How the loop goes on at i after an effect that did not stop it. */
  function Onward(step: (Parser, nat) -> Parsed, e: Effect, size: nat, i: nat): (r: Outcome)
    requires i <= size
  {
    if e.Going? then Iterate(step, size, e.parser, i) else Error
  }

  lemma {:induction false} IterateParts(step: (Parser, nat) -> Parsed, apply: (Parser, Meaning) -> Effect,
                                        st: Parser, argv: seq<string>, i: nat, parts: seq<Part>)
    requires PartsOk(step, apply, argv, parts) && Stands(argv, i, JoinText(parts))
    requires !ApplyAll(apply, st, JoinMeans(parts)).Stopped?
    ensures Iterate(step, |argv|, st, i) ==
            if PartsInReach(parts, i, AsChar(|argv|)) then
              Onward(step, ApplyAll(apply, st, JoinMeans(parts)), |argv|, i + |JoinText(parts)|)
            else Error
    decreases |parts|
  {
    hide AsChar, ApplyAll, PartOk, Stands, InReach;
    if parts == [] {
      NothingApplied(apply, st);
    } else {
      var part := parts[0];
      var r := ApplyAll(apply, st, part.means);
      StandsSplit(argv, i, part.text, JoinText(parts[1..]));
      ApplyAppend(apply, st, part.means, JoinMeans(parts[1..]));
      FirstPart(step, apply, st, argv, i, part);
      if InReach(part.next, i, AsChar(|argv|)) && r.Going? {
        IterateParts(step, apply, r.parser, argv, i + |part.text|, parts[1..]);
      }
    }
  }

  lemma FirstPart(step: (Parser, nat) -> Parsed, apply: (Parser, Meaning) -> Effect, st: Parser, argv: seq<string>,
                  i: nat, part: Part)
    requires PartOk(step, apply, argv, part) && Stands(argv, i, part.text)
    ensures |part.text| > 0 && i + |part.text| <= |argv|
    ensures step(st, i) == if InReach(part.next, i, AsChar(|argv|)) then
                             StepFor(ApplyAll(apply, st, part.means), |part.text|)
                           else Fail
  {
  }

  lemma NothingApplied(apply: (Parser, Meaning) -> Effect, st: Parser)
    ensures ApplyAll(apply, st, []) == Going(st)
  {
  }

  lemma {:induction false} SpelledReach(opts: seq<Opt>, ss: seq<Spelling>, i: nat, limit: int)
    requires AllWell(opts, ss)
    ensures PartsInReach(Parts(opts, ss), i, limit) <==> AllInReach(opts, ss, i, limit)
    decreases |ss|
  {
    hide WellSpelled, Means, ReadsNext, InReach;
    if ss != [] {
      assert Parts(opts, ss)[1..] == Parts(opts, ss[1..]);
      SpelledReach(opts, ss[1..], i + |Render(opts, ss[0])|, limit);
    }
  }

  lemma {:induction false} SpelledParts(opts: seq<Opt>, argv: seq<string>, ss: seq<Spelling>)
    requires AllWell(opts, ss)
    ensures PartsOk(Stepper(opts, argv), Applier(opts), argv, Parts(opts, ss))
    ensures JoinText(Parts(opts, ss)) == RenderAll(opts, ss) && JoinMeans(Parts(opts, ss)) == MeansAll(ss)
    decreases |ss|
  {
    hide WellSpelled, Means, ReadsNext, PartOk, Stepper, Applier;
    if ss != [] {
      SpelledPart(opts, argv, ss[0]);
      SpelledParts(opts, argv, ss[1..]);
      assert Parts(opts, ss)[1..] == Parts(opts, ss[1..]);
    }
  }

  lemma {:induction false} SpelledPart(opts: seq<Opt>, argv: seq<string>, s: Spelling)
    requires WellSpelled(opts, s)
    ensures PartOk(Stepper(opts, argv), Applier(opts), argv, Part(Render(opts, s), Means(s), ReadsNext(s)))
  {
    forall st: Parser, i: nat | Stands(argv, i, Render(opts, s))
      ensures Stepper(opts, argv)(st, i) ==
              if InReach(ReadsNext(s), i, AsChar(|argv|)) then StepFor(Result(opts, st, Means(s)), |Render(opts, s)|)
              else Fail
    {
      OneSpelling(opts, st, argv, i, s);
    }
  }

  /** Parsing well-spelled arguments up to `i + |RenderAll(ss)|` has the effect of their meaning, or is an error if one
      of them is out of reach. */
  lemma {:induction false} ParseSpellings(opts: seq<Opt>, st: Parser, argv: seq<string>, i: nat, ss: seq<Spelling>)
    requires AllWell(opts, ss) && Stands(argv, i, RenderAll(opts, ss))
    requires !Result(opts, st, MeansAll(ss)).Stopped?
    ensures ParseFrom(opts, st, argv, i) ==
            if AllInReach(opts, ss, i, AsChar(|argv|)) then
              Onward(Stepper(opts, argv), Result(opts, st, MeansAll(ss)), |argv|, i + |RenderAll(opts, ss)|)
            else Error
  {
    hide AsChar, AllInReach, PartsInReach, PartsOk, Stepper, Applier, Iterate, ApplyAll, Parts, AllWell, RenderAll,
         MeansAll, JoinText, JoinMeans;
    var parts, step, apply := Parts(opts, ss), Stepper(opts, argv), Applier(opts);
    SpelledParts(opts, argv, ss);
    SpelledReach(opts, ss, i, AsChar(|argv|));
    IterateParts(step, apply, st, argv, i, parts);
  }

  // ---------------------------------------------------------------------------------------------------
  // The conditions are exact

  lemma {:induction false} LongEqStores(opts: seq<Opt>, st: Parser, argv: seq<string>, i: nat, o: nat, v: string)
    requires LongOk(opts, o, true) && |opts[o].long.value| < MAX_TEXT
    requires i < |argv| && argv[i] == "--" + opts[o].long.value + "=" + v
    ensures var name := opts[o].long.value;
            ParseLong(opts, st, argv, i) == Appended(AppendValue(st, o, Clip(name + "=" + v)[|name| + 1..]), 1)
  {
    var name := opts[o].long.value;
    assert argv[i][2..] == name + "=" + v;
    var text := Clip(name + "=" + v);
    var kept := text[|name| + 1..];
    assert text == name + "=" + kept;
    IndexOfName(name, kept);
    assert text[..|name|] == name;
  }

  /** --name=value stores what --name value stores exactly when name, = and value fit into one buffer. */
  lemma {:induction false} LongEqIsExact(opts: seq<Opt>, st: Parser, a: seq<string>, b: seq<string>, o: nat, v: string)
    requires LongOk(opts, o, true) && |opts[o].long.value| < MAX_TEXT && |st.values| < MAX_VALUES
    requires |a| == 2 && a[1] == "--" + opts[o].long.value + "=" + v
    requires |b| == 3 && b[1] == "--" + opts[o].long.value && b[2] == v
    ensures var pa, pb := ParseLong(opts, st, a, 1), ParseLong(opts, st, b, 1);
            pa.Used? && pb.Used? && (pa.parser == pb.parser <==> |opts[o].long.value| + 1 + |v| <= MAX_TEXT)
  {
    var name := opts[o].long.value;
    LongEqStores(opts, st, a, 1, o, v);
    assert Stands(b, 1, Render(opts, LongNext(o, v)));
    LongArgument(opts, st, b, 1, LongNext(o, v));
    SingleEffect(opts, st, Sets(o, v));
    var kept := Clip(name + "=" + v)[|name| + 1..];
    StoredTexts(st, o, kept, v);
    KeptText(name, v);
  }

  lemma {:induction false} KeptText(name: string, v: string)
    requires |name| < MAX_TEXT
    ensures Clip(Clip(name + "=" + v)[|name| + 1..]) == Clip(v) <==> |name| + 1 + |v| <= MAX_TEXT
  {
    var kept := Clip(name + "=" + v)[|name| + 1..];
    if |name| + 1 + |v| <= MAX_TEXT { assert kept == v; } else { assert |kept| < |Clip(v)|; }
  }

  lemma {:induction false} StoredTexts(st: Parser, o: nat, a: string, b: string)
    requires |st.values| < MAX_VALUES
    ensures AppendValue(st, o, a) == AppendValue(st, o, b) <==> Clip(a) == Clip(b)
  {
    var x, y := AppendValue(st, o, a).value.values, AppendValue(st, o, b).value.values;
    assert x[|st.values|].text == Clip(a) && y[|st.values|].text == Clip(b);
  }

  /** -n value is read exactly when the position of the value is below the argument count taken as a char,
      so never with 128 to 255 arguments. */
  lemma {:induction false} ShortNextIsExact(opts: seq<Opt>, st: Parser, argv: seq<string>, i: nat, o: nat)
    requires ShortOk(opts, o, true) && |st.values| < MAX_VALUES
    requires i + 1 < |argv| && argv[i] == ['-', opts[o].short]
    ensures ParseShort(opts, st, argv, i, 1).Used? <==> i + 1 < AsChar(|argv|)
    ensures 128 <= |argv| <= 255 ==> ParseShort(opts, st, argv, i, 1) == Fail
  {
  }

  // ---------------------------------------------------------------------------------------------------
  // Errors

  /** A long option is an error exactly when its name, up to the first = in what the buffer holds, is that of no option,
      when its value is missing, or when there is no room for it. */
  lemma LongFailsExactly(opts: seq<Opt>, st: Parser, argv: seq<string>, i: nat, name: string)
    requires i < |argv| && |argv[i]| >= 2
    requires var text := Clip(argv[i][2..]);
             name <= text && '=' !in name && (name == text || text[|name|] == '=')
    ensures ParseLong(opts, st, argv, i) == Fail <==>
            || |st.values| >= MAX_VALUES
            || (forall o | 0 <= o < |opts| :: opts[o].long != Some(name))
            || (name == Clip(argv[i][2..]) && i + 1 >= |argv| &&
                exists o | 0 <= o < |opts| ::
                  && opts[o].long == Some(name) && opts[o].takesValue
                  && forall k | 0 <= k < o :: opts[k].long != Some(name))
  {
    var text := Clip(argv[i][2..]);
    if name != text { IndexOfName(name, text[|name| + 1..]); }
    assert name != text ==> text == name + "=" + text[|name| + 1..];
    var eq := IndexOf(text, '=');
    assert name == if eq.Some? then text[..eq.value] else text;
    var o := FindLong(opts, name);
    if o.Some? { assert forall k | 0 <= k < o.value :: opts[k].long != Some(name); }
  }

  /** Where the flags of an argument end: at its end, or at the first letter that is no flag. */
  function EndOfFlags(opts: seq<Opt>, arg: string, j: nat): (r: nat)
    requires j <= |arg|
    ensures j <= r <= |arg| && (r < |arg| ==> !IsFlag(opts, arg[r]))
    ensures forall k | j <= k < r :: IsFlag(opts, arg[k])
    decreases |arg| - j
  {
    if j < |arg| && IsFlag(opts, arg[j]) then EndOfFlags(opts, arg, j + 1) else j
  }

  /** The first option with the short name takes no value. */
  predicate IsFlag(opts: seq<Opt>, c: char)
  {
    exists o | 0 <= o < |opts| ::
      opts[o].short == c && !opts[o].takesValue && forall k | 0 <= k < o :: opts[k].short != c
  }

  predicate IsName(opts: seq<Opt>, c: char)
  {
    exists o | 0 <= o < |opts| :: opts[o].short == c
  }

  lemma FindsFlag(opts: seq<Opt>, c: char)
    ensures FindShort(opts, c).Some? <==> IsName(opts, c)
    ensures IsFlag(opts, c) <==> FindShort(opts, c).Some? && !opts[FindShort(opts, c).value].takesValue
  {
    var o := FindShort(opts, c);
    if o.Some? { assert forall k | 0 <= k < o.value :: opts[k].short != c; }
  }

  /** Short options are an error exactly when the first letter that is no flag is no name at all, when its value is
      missing or out of reach, or when there is no room for all of them. */
  lemma {:induction false} ShortFailsExactly(opts: seq<Opt>, st: Parser, argv: seq<string>, i: nat, j: nat)
    requires i < |argv| && j <= |argv[i]|
    ensures var arg, end := argv[i], EndOfFlags(opts, argv[i], j);
            ParseShort(opts, st, argv, i, j) == Fail <==>
            || (end < |arg| && !IsName(opts, arg[end]))
            || (end + 1 == |arg| && i + 1 >= AsChar(|argv|))
            || (j < |arg| && |st.values| + (end - j) + (if end < |arg| then 1 else 0) > MAX_VALUES)
    decreases |argv[i]| - j
  {
    hide AsChar, Clip;
    if j < |argv[i]| {
      FindsFlag(opts, argv[i][j]);
      hide IsFlag, IsName, FindShort;
      if IsFlag(opts, argv[i][j]) {
        var o := FindShort(opts, argv[i][j]).value;
        var st1 := AppendValue(st, o, "1");
        if st1.Some? { ShortFailsExactly(opts, st1.value, argv, i, j + 1); }
      }
    }
  }
}
