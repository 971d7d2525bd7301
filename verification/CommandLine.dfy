/** What a whole command line gives (src/option-parser.c), told from the meanings of its arguments alone. */
module CommandLines {
  import opened Wrappers
  import opened OptionParser

  // ---------------------------------------------------------------------------------------------------
  // The values that the meanings stand for

  /** The positional options from the i-th option on, in order. */
  function SlotsFrom(opts: seq<Opt>, i: nat): (r: seq<nat>)
    requires i <= |opts|
    ensures forall k | 0 <= k < |r| :: i <= r[k] < |opts|
    decreases |opts| - i
  {
    if i == |opts| then []
    else (if opts[i].positional.Some? then [i] else []) + SlotsFrom(opts, i + 1)
  }

  /** The place of the first repeating option among them, or their number. */
  function FirstRepeating(opts: seq<Opt>, slots: seq<nat>): (r: nat)
    requires forall k | 0 <= k < |slots| :: 0 <= slots[k] < |opts|
    ensures r <= |slots| && (r < |slots| ==> opts[slots[r]].isRepeating)
    ensures forall k | 0 <= k < r :: !opts[slots[k]].isRepeating
  {
    if slots == [] || opts[slots[0]].isRepeating then 0 else 1 + FirstRepeating(opts, slots[1..])
  }

  function Min(a: nat, b: nat): nat { if a <= b then a else b }

  /** The place of word j: words move from one positional option to the next and stay at a repeating one. */
  function Place(opts: seq<Opt>, j: nat): (r: nat)
  {
    Min(j, FirstRepeating(opts, SlotsFrom(opts, 0)))
  }

  /** The option of word j, if there is one. */
  function OptionFor(opts: seq<Opt>, j: nat): (r: Option<nat>)
    ensures r.Some? ==> r.value < |opts|
  {
    var slots := SlotsFrom(opts, 0);
    if Place(opts, j) < |slots| then Some(slots[Place(opts, j)]) else None
  }

  predicate IsSubcommand(opts: seq<Opt>, j: nat)
  {
    OptionFor(opts, j).Some? && opts[OptionFor(opts, j).value].isSubcommand
  }

  /** The values, in order, of the meanings up to the first subcommand; j words came before. Words without an option
      are ignored. */
  function Stored(opts: seq<Opt>, ms: seq<Meaning>, j: nat): (r: seq<Value>)
    decreases |ms|
  {
    if ms == [] then []
    else match ms[0]
         case Sets(o, v) => [Value(o, Clip(v))] + Stored(opts, ms[1..], j)
         case Positional(text) =>
           (if OptionFor(opts, j).Some? then [Value(OptionFor(opts, j).value, Clip(text))] else []) +
           (if IsSubcommand(opts, j) then [] else Stored(opts, ms[1..], j + 1))
  }

  /** One of the words is a subcommand. */
  predicate HasSubcommand(opts: seq<Opt>, ms: seq<Meaning>, j: nat)
    decreases |ms|
  {
    ms != [] &&
    if ms[0].Sets? then HasSubcommand(opts, ms[1..], j)
    else IsSubcommand(opts, j) || HasSubcommand(opts, ms[1..], j + 1)
  }

  /** The number of words. */
  function Words(ms: seq<Meaning>): (r: nat)
  {
    if ms == [] then 0 else (if ms[0].Positional? then 1 else 0) + Words(ms[1..])
  }

  // ---------------------------------------------------------------------------------------------------
  // The parser stores them

  lemma {:induction false} FindsSlot(opts: seq<Opt>, i: nat, position: nat)
    requires i <= |opts|
    ensures var slots := SlotsFrom(opts, i);
            FindPositionalFrom(opts, i, position) == if position < |slots| then Some(slots[position]) else None
    decreases |opts| - i
  {
    if i < |opts| {
      var rest := SlotsFrom(opts, i + 1);
      assert SlotsFrom(opts, i) == (if opts[i].positional.Some? then [i] else []) + rest;
      hide SlotsFrom;
      if opts[i].positional.None? {
        FindsSlot(opts, i + 1, position);
        assert [] + rest == rest;
      } else if position > 0 {
        FindsSlot(opts, i + 1, position - 1);
        assert position < |[i] + rest| ==> ([i] + rest)[position] == rest[position - 1];
      }
    }
  }

  /** One word: it is stored for its option, and the next word has the next place. */
  lemma WordIsStored(opts: seq<Opt>, st: Parser, j: nat, text: string)
    requires st.position == Place(opts, j)
    ensures var r := Apply(opts, st, Positional(text));
            var o := OptionFor(opts, j);
            var st1 := if o.Some? then Parser(st.values + [Value(o.value, Clip(text))], Place(opts, j + 1)) else st;
            r == if o.Some? && |st.values| >= MAX_VALUES then Overfull
                 else if IsSubcommand(opts, j) then Stopped(st1) else Going(st1)
    ensures OptionFor(opts, j).None? ==> Place(opts, j + 1) == Place(opts, j)
  {
    FindsSlot(opts, 0, st.position);
    var slots := SlotsFrom(opts, 0);
    var first := FirstRepeating(opts, slots);
    hide SlotsFrom, FirstRepeating, FindPositionalFrom;
  }

  /** The effect of some values and then of the end that the meanings have. */
  predicate HasEffect(opts: seq<Opt>, st: Parser, ms: seq<Meaning>, j: nat, r: Effect)
  {
    var values := st.values + Stored(opts, ms, j);
    if |values| > MAX_VALUES then r == Overfull
    else if HasSubcommand(opts, ms, j) then r.Stopped? && r.parser.values == values
    else r == Going(Parser(values, Place(opts, j + Words(ms))))
  }

  lemma SetIsStored(opts: seq<Opt>, st: Parser, o: nat, v: string)
    ensures Apply(opts, st, Sets(o, v)) ==
            if |st.values| >= MAX_VALUES then Overfull else Going(Parser(st.values + [Value(o, Clip(v))], st.position))
  {
  }

  /** The effect of the first meaning followed by that of the others. */
  lemma SetFirst(opts: seq<Opt>, st: Parser, ms: seq<Meaning>, j: nat, r: Effect)
    requires ms != [] && ms[0].Sets? && |st.values| <= MAX_VALUES
    requires var e := Apply(opts, st, ms[0]);
             if e.Going? then HasEffect(opts, e.parser, ms[1..], j, r) else r == e
    ensures HasEffect(opts, st, ms, j, r)
  {
    hide Place, OptionFor, Clip, Apply;
    SetIsStored(opts, st, ms[0].option, ms[0].value);
    var head := [Value(ms[0].option, Clip(ms[0].value))];
    assert st.values + (head + Stored(opts, ms[1..], j)) == (st.values + head) + Stored(opts, ms[1..], j);
  }

  /** What the first word adds to a list of values. */
  function WordValue(opts: seq<Opt>, j: nat, text: string): (r: seq<Value>)
  {
    if OptionFor(opts, j).Some? then [Value(OptionFor(opts, j).value, Clip(text))] else []
  }

  lemma WordUnfolds(opts: seq<Opt>, before: seq<Value>, ms: seq<Meaning>, j: nat)
    requires ms != [] && ms[0].Positional?
    ensures var now := before + WordValue(opts, j, ms[0].text);
            before + Stored(opts, ms, j) == if IsSubcommand(opts, j) then now else now + Stored(opts, ms[1..], j + 1)
    ensures HasSubcommand(opts, ms, j) <==> IsSubcommand(opts, j) || HasSubcommand(opts, ms[1..], j + 1)
    ensures Words(ms) == 1 + Words(ms[1..])
    ensures IsSubcommand(opts, j) ==> OptionFor(opts, j).Some?
  {
    hide OptionFor, Clip;
  }

  lemma WordFirst(opts: seq<Opt>, st: Parser, ms: seq<Meaning>, j: nat, r: Effect)
    requires ms != [] && ms[0].Positional? && |st.values| <= MAX_VALUES && st.position == Place(opts, j)
    requires var e := Apply(opts, st, ms[0]);
             if e.Going? then HasEffect(opts, e.parser, ms[1..], j + 1, r) else r == e
    ensures HasEffect(opts, st, ms, j, r)
  {
    hide Place, OptionFor, Clip, Apply, IsSubcommand, Stored, HasSubcommand, Words;
    WordIsStored(opts, st, j, ms[0].text);
    WordUnfolds(opts, st.values, ms, j);
    assert st.values + [] == st.values;
  }

  lemma {:induction false} StoresFrom(opts: seq<Opt>, st: Parser, ms: seq<Meaning>, j: nat)
    requires st.position == Place(opts, j) && |st.values| <= MAX_VALUES
    ensures HasEffect(opts, st, ms, j, Result(opts, st, ms))
    decreases |ms|
  {
    hide Place, OptionFor, Clip, Apply, HasEffect;
    if ms == [] {
      NothingStored(opts, st, j);
    } else {
      var e := Apply(opts, st, ms[0]);
      assert Applier(opts)(st, ms[0]) == e;
      if ms[0].Positional? {
        WordIsStored(opts, st, j, ms[0].text);
        if e.Going? { StoresFrom(opts, e.parser, ms[1..], j + 1); }
        WordFirst(opts, st, ms, j, Result(opts, st, ms));
      } else {
        SetIsStored(opts, st, ms[0].option, ms[0].value);
        if e.Going? { StoresFrom(opts, e.parser, ms[1..], j); }
        SetFirst(opts, st, ms, j, Result(opts, st, ms));
      }
    }
  }

  lemma NothingStored(opts: seq<Opt>, st: Parser, j: nat)
    requires st.position == Place(opts, j) && |st.values| <= MAX_VALUES
    ensures HasEffect(opts, st, [], j, Result(opts, st, []))
  {
    assert st.values + [] == st.values;
  }

  /** The effect of meanings is to store their values: too many, then an error; otherwise these and no others, and
      the parse ends at a subcommand. */
  lemma MeaningsAreStored(opts: seq<Opt>, ms: seq<Meaning>)
    ensures var r, values := Result(opts, FRESH, ms), Stored(opts, ms, 0);
            if |values| > MAX_VALUES then r == Overfull
            else (r.Stopped? <==> HasSubcommand(opts, ms, 0)) && !r.Overfull? && r.parser.values == values
  {
    StoresFrom(opts, FRESH, ms, 0);
    assert [] + Stored(opts, ms, 0) == Stored(opts, ms, 0);
  }

  // ---------------------------------------------------------------------------------------------------
  // Whole command lines

  /** What can follow the arguments: nothing, or -- and arguments that are not looked at. */
  predicate Ending(post: seq<string>) { post == [] || post[0] == "--" }

  /** The parse gets past the meanings, or fails in them. */
  predicate Passes(opts: seq<Opt>, ms: seq<Meaning>)
  {
    !HasSubcommand(opts, ms, 0) || |Stored(opts, ms, 0)| > MAX_VALUES
  }

  /** The whole command line, of any length: the values are those that the meanings stand for, whatever the spelling,
      and the remaining arguments are exactly what follows the --; it is an error if and only if there are too many
      values or a -n value is out of reach. */
  lemma {:induction false} CommandLine(opts: seq<Opt>, program: string, ss: seq<Spelling>, post: seq<string>)
    requires AllWell(opts, ss) && Ending(post) && Passes(opts, MeansAll(ss))
    ensures var argv := [program] + RenderAll(opts, ss) + post;
            var r, values := ParseFrom(opts, FRESH, argv, 1), Stored(opts, MeansAll(ss), 0);
            if |values| <= MAX_VALUES && AllInReach(opts, ss, 1, AsChar(|argv|)) then
              r.Finished? && r.parser.values == values && argv[r.rest..] == (if post == [] then [] else post[1..])
            else r == Error
  {
    MeaningsAreStored(opts, MeansAll(ss));
    CommandLineEffect(opts, program, ss, post);
  }

  lemma {:induction false} CommandLineEffect(opts: seq<Opt>, program: string, ss: seq<Spelling>, post: seq<string>)
    requires AllWell(opts, ss) && Ending(post)
    requires !Result(opts, FRESH, MeansAll(ss)).Stopped?
    ensures var argv := [program] + RenderAll(opts, ss) + post;
            var r, e := ParseFrom(opts, FRESH, argv, 1), Result(opts, FRESH, MeansAll(ss));
            if e.Going? && AllInReach(opts, ss, 1, AsChar(|argv|)) then
              r.Finished? && r.parser == e.parser && argv[r.rest..] == (if post == [] then [] else post[1..])
            else r == Error
  {
    hide AsChar, AllInReach, Stepper, Applier, Iterate, ApplyAll, Apply, Render, RenderAll, WellSpelled, AllWell,
         MeansAll;
    var argv := [program] + RenderAll(opts, ss) + post;
    var n := 1 + |RenderAll(opts, ss)|;
    StandsMiddle([program], RenderAll(opts, ss), post);
    ParseSpellings(opts, FRESH, argv, 1, ss);
    var r := Result(opts, FRESH, MeansAll(ss));
    if r.Going? { ParseEnds(opts, r.parser, argv, n); }
  }

  lemma {:induction false} ParseEnds(opts: seq<Opt>, st: Parser, argv: seq<string>, n: nat)
    requires n <= |argv| && Ending(argv[n..])
    ensures var r := ParseFrom(opts, st, argv, n);
            r.Finished? && r.parser == st && argv[r.rest..] == (if argv[n..] == [] then [] else argv[n..][1..])
  {
    if n < |argv| { assert argv[n] == argv[n..][0]; }
  }

  predicate SameParse(a: seq<string>, ra: Outcome, b: seq<string>, rb: Outcome)
    requires ra.Finished? ==> ra.rest <= |a|
    requires rb.Finished? ==> rb.rest <= |b|
  {
    if ra.Finished? && rb.Finished? then ra.parser == rb.parser && a[ra.rest..] == b[rb.rest..] else ra == rb
  }

  /** Two command lines that mean the same, however each argument is spelled, parse to the same values in the
      same order and leave the same remaining arguments, exactly unless one of them alone is out of reach. */
  lemma {:induction false} SpellingIndependence(opts: seq<Opt>, program: string, a: seq<Spelling>, b: seq<Spelling>,
                                                post: seq<string>)
    requires AllWell(opts, a)
    requires AllWell(opts, b)
    requires Ending(post) && MeansAll(a) == MeansAll(b) && Passes(opts, MeansAll(a))
    ensures var argvA := [program] + RenderAll(opts, a) + post;
            var argvB := [program] + RenderAll(opts, b) + post;
            var ra, rb := ParseFrom(opts, FRESH, argvA, 1), ParseFrom(opts, FRESH, argvB, 1);
            SameParse(argvA, ra, argvB, rb) <==>
            || |Stored(opts, MeansAll(a), 0)| > MAX_VALUES
            || (AllInReach(opts, a, 1, AsChar(|argvA|)) <==> AllInReach(opts, b, 1, AsChar(|argvB|)))
  {
    hide AsChar, AllInReach, ParseFrom, Result, RenderAll, AllWell, MeansAll, Stored, HasSubcommand;
    MeaningsAreStored(opts, MeansAll(a));
    CommandLineEffect(opts, program, a, post);
    CommandLineEffect(opts, program, b, post);
  }

  /** A subcommand ends the parse where it stands: it is the last value, and the remaining arguments start
      with it. */
  lemma {:induction false} SubcommandLine(opts: seq<Opt>, program: string, ss: seq<Spelling>, word: string,
                                          post: seq<string>)
    requires AllWell(opts, ss) && WellSpelled(opts, Word(word)) && !HasSubcommand(opts, MeansAll(ss), 0)
    requires IsSubcommand(opts, Words(MeansAll(ss)))
    ensures var argv := [program] + RenderAll(opts, ss) + ([word] + post);
            var o := OptionFor(opts, Words(MeansAll(ss))).value;
            var r, values := ParseFrom(opts, FRESH, argv, 1), Stored(opts, MeansAll(ss), 0) + [Value(o, Clip(word))];
            if |values| <= MAX_VALUES && AllInReach(opts, ss, 1, AsChar(|argv|)) then
              r.Finished? && r.parser.values == values && argv[r.rest..] == [word] + post
            else r == Error
  {
    hide AsChar, AllInReach, Stepper, Applier, Iterate, ApplyAll, Apply, Render, RenderAll, WellSpelled, AllWell,
         MeansAll, Stored, HasSubcommand, OptionFor, Place, Clip, Words;
    var argv := [program] + RenderAll(opts, ss) + ([word] + post);
    var n, ms := 1 + |RenderAll(opts, ss)|, MeansAll(ss);
    StandsMiddle([program], RenderAll(opts, ss), [word] + post);
    EffectBefore(opts, ms);
    ParseSpellings(opts, FRESH, argv, 1, ss);
    var e := Result(opts, FRESH, ms);
    if e.Going? {
      WordIsStored(opts, e.parser, Words(ms), word);
      WordStep(opts, e.parser, argv, n);
    }
  }

  /** Meanings without a subcommand. */
  lemma EffectBefore(opts: seq<Opt>, ms: seq<Meaning>)
    requires !HasSubcommand(opts, ms, 0)
    ensures Result(opts, FRESH, ms) ==
            if |Stored(opts, ms, 0)| > MAX_VALUES then Overfull
            else Going(Parser(Stored(opts, ms, 0), Place(opts, Words(ms))))
  {
    StoresFrom(opts, FRESH, ms, 0);
    assert [] + Stored(opts, ms, 0) == Stored(opts, ms, 0);
  }

  /** A word that overfills the parser or is a subcommand ends the loop. */
  lemma {:induction false} WordStep(opts: seq<Opt>, st: Parser, argv: seq<string>, i: nat)
    requires i < |argv| && WellSpelled(opts, Word(argv[i])) && !Apply(opts, st, Positional(argv[i])).Going?
    ensures var e := Apply(opts, st, Positional(argv[i]));
            Iterate(Stepper(opts, argv), |argv|, st, i) == if e.Stopped? then Finished(e.parser, i) else Error
  {
    WordSpelling(opts, st, argv, i);
  }
}
