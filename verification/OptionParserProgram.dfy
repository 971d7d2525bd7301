/** The parser as it runs: values go into a fixed array and the arguments are walked with loops. Each method
is tied to the function it computes. */
module OptionParserProgram {
  import opened Wrappers
  import opened OptionParser

  const SIZE_LIMIT := 0x1_0000_0000_0000_0000

  class ArgumentParser {
    const options: seq<Opt>
    const values: array<Value>
    var count: nat
    var position: nat
    var remainingCount: nat
    var remaining: seq<string>

    ghost predicate Valid()
      reads this
    {
      values.Length == MAX_VALUES && count <= MAX_VALUES
    }

    ghost function Abs(): (r: Parser)
      requires Valid()
      reads this, values
    {
      Parser(values[..count], position)
    }

    constructor (options: seq<Opt>)
      ensures Valid() && fresh(values) && this.options == options && Abs() == FRESH && remaining == []
    {
      this.options := options;
      this.values := new Value[MAX_VALUES](_ => Value(0, ""));
      count, position, remainingCount, remaining := 0, 0, 0, [];
    }

    method FindLongOption(name: string) returns (r: Option<nat>)
      ensures r == FindLong(options, name)
    {
      var i := 0;
      while i < |options|
        invariant 0 <= i <= |options| && FindLongFrom(options, i, name) == FindLong(options, name)
      {
        if options[i].long.Some? && options[i].long.value == name { return Some(i); }
        i := i + 1;
      }
      return None;
    }

    method FindShortOption(name: char) returns (r: Option<nat>)
      ensures r == FindShort(options, name)
    {
      var i := 0;
      while i < |options|
        invariant 0 <= i <= |options| && FindShortFrom(options, i, name) == FindShort(options, name)
      {
        if options[i].short == name { return Some(i); }
        i := i + 1;
      }
      return None;
    }

    method FindPositionalOption(wanted: nat) returns (r: Option<nat>)
      ensures r == FindPositionalFrom(options, 0, wanted)
    {
      var i, current := 0, 0;
      while i < |options|
        invariant 0 <= i <= |options| && current <= wanted
        invariant FindPositionalFrom(options, i, wanted - current) == FindPositionalFrom(options, 0, wanted)
      {
        if options[i].positional.Some? {
          if current == wanted { return Some(i); }
          current := current + 1;
        }
        i := i + 1;
      }
      return None;
    }

    method Append(option: nat, text: string) returns (ok: bool)
      requires Valid()
      modifies this`count, values
      ensures Valid() && ok == AppendValue(old(Abs()), option, text).Some? && old(Abs()).values <= Abs().values
      ensures Abs() == if ok then AppendValue(old(Abs()), option, text).value else old(Abs())
    {
      if count >= values.Length { return false; }
      values[count] := Value(option, Clip(text));
      count := count + 1;
      return true;
    }

    /** The number of arguments used, or -1. */
    method ParseLongArg(argv: seq<string>, index: nat) returns (rc: int)
      requires Valid() && index < |argv| && |argv[index]| >= 2
      modifies this`count, values
      ensures Valid() && old(Abs()).values <= Abs().values
      ensures Reports(rc, ParseLong(options, old(Abs()), argv, index))
    {
      var used := 1;
      var text := Clip(argv[index][2..]);
      var eq := IndexOf(text, '=');
      var opt := FindLongOption(if eq.Some? then text[..eq.value] else text);
      if opt.None? { return -1; }
      var value := "1";
      if options[opt.value].takesValue {
        if eq.Some? {
          value := text[eq.value + 1..];
        } else {
          if index + 1 >= |argv| { return -1; }
          value := argv[index + 1];
          used := used + 1;
        }
      }
      var ok := Append(opt.value, value);
      return if ok then used else -1;
    }

    /** The result of a parsing step is that of the function, in the parser's state. */
    ghost predicate Reports(rc: int, p: Parsed)
      requires Valid()
      reads this, values
    {
      match p
      case Fail => rc == -1
      case EndOfOptions => false
      case Used(st, n) => rc == n && Abs() == st
    }

    method ParseShortArgs(argv: seq<string>, index: nat) returns (rc: int)
      requires Valid() && index < |argv| && |argv[index]| >= 1
      modifies this`count, values
      ensures Valid() && old(Abs()).values <= Abs().values
      ensures Reports(rc, ParseShort(options, old(Abs()), argv, index, 1))
    {
      var arg, i := argv[index], 1;
      while i < |arg|
        invariant Valid() && 1 <= i <= |arg| && old(Abs()).values <= Abs().values
        invariant ParseShort(options, Abs(), argv, index, i) == ParseShort(options, old(Abs()), argv, index, 1)
      {
        var opt := FindShortOption(arg[i]);
        if opt.None? { return -1; }
        if options[opt.value].takesValue {
          rc := ParseShortValue(argv, index, i, opt.value);
          return;
        }
        var ok := Append(opt.value, "1");
        if !ok { return -1; }
        i := i + 1;
      }
      return 1;
    }

    /** A short option with a value ends its argument. */
    method ParseShortValue(argv: seq<string>, index: nat, i: nat, opt: nat) returns (rc: int)
      requires Valid() && index < |argv| && i < |argv[index]|
      requires FindShort(options, argv[index][i]) == Some(opt) && options[opt].takesValue
      modifies this`count, values
      ensures Valid() && old(Abs()).values <= Abs().values
      ensures Reports(rc, ParseShort(options, old(Abs()), argv, index, i))
    {
      var used, value := 1, argv[index][i + 1..];
      if value != [] && value[0] == '=' {
        assert value[1..] == argv[index][i + 2..];
        value := value[1..];
      } else if value == [] {
        if index + 1 >= AsChar(|argv|) { return -1; }
        value := argv[index + 1];
        used := used + 1;
      }
      var ok := Append(opt, value);
      return if ok then used else -1;
    }

    method ParsePositionalArg(arg: string) returns (rc: int)
      requires Valid()
      modifies this`count, this`position, values
      ensures Valid() && old(Abs()).values <= Abs().values
      ensures Reports(rc, ParsePositional(options, old(Abs()), arg))
    {
      var opt := FindPositionalOption(position);
      if opt.None? { return 1; }
      var ok := Append(opt.value, arg);
      if !ok { return -1; }
      if !options[opt.value].isRepeating { position := position + 1; }
      return if options[opt.value].isSubcommand then 0 else 1;
    }

    /** argv[0] is the program's name. Without even that the remaining arguments are counted one too low, in an
        unsigned number. */
    method Parse(argv: seq<string>) returns (ok: bool)
      requires Valid()
      modifies this, values
      ensures Valid() && old(Abs()).values <= Abs().values
      ensures argv == [] ==> ok && Abs() == old(Abs()) && remainingCount == SIZE_LIMIT - 1
      ensures argv != [] ==> ok == ParseFrom(options, old(Abs()), argv, 1).Finished?
      ensures argv != [] && ok ==>
                var r := ParseFrom(options, old(Abs()), argv, 1);
                Abs() == r.parser && remaining == argv[r.rest..] && remainingCount == |remaining| % SIZE_LIMIT
    {
      var i := 1;
      if |argv| > 0 {
        ok, i := ParseArguments(argv);
        if !ok { return; }
      }
      remainingCount := (|argv| - i) % SIZE_LIMIT;
      remaining := if i <= |argv| then argv[i..] else [];
      return true;
    }

    method ParseArguments(argv: seq<string>) returns (ok: bool, i: nat)
      requires Valid() && argv != []
      modifies this`count, this`position, values
      ensures Valid() && old(Abs()).values <= Abs().values && ok == ParseFrom(options, old(Abs()), argv, 1).Finished?
      ensures ok ==> ParseFrom(options, old(Abs()), argv, 1) == Finished(Abs(), i) && i <= |argv|
    {
      i := 1;
      while i < |argv|
        invariant Valid() && 1 <= i <= |argv| && old(Abs()).values <= Abs().values
        invariant ParseFrom(options, Abs(), argv, i) == ParseFrom(options, old(Abs()), argv, 1)
        decreases |argv| - i
      {
        hide ParseLong, ParseShort, ParsePositional, IsLong, IsShort;
        if IsEnd(argv[i]) {
          i := i + 1;
          break;
        }
        var rc := ParseOther(argv, i);
        if rc < 0 { return false, i; }
        if rc == 0 { break; }
        i := i + rc;
      }
      return true, i;
    }

    method ParseOther(argv: seq<string>, i: nat) returns (rc: int)
      requires Valid() && i < |argv| && !IsEnd(argv[i])
      modifies this`count, this`position, values
      ensures Valid() && old(Abs()).values <= Abs().values
      ensures Reports(rc, ParseArgument(options, old(Abs()), argv, i))
    {
      var arg := argv[i];
      if |arg| > 0 && arg[0] == '-' {
        if |arg| > 1 && arg[1] == '-' {
          rc := ParseLongArg(argv, i);
        } else {
          rc := ParseShortArgs(argv, i);
        }
      } else {
        rc := ParsePositionalArg(arg);
      }
    }
  }
}
