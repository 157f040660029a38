/**
 Command lines on Windows: one string carries a whole argument list. The installer
 prints it; the started program splits it again by the rules documented for
 CommandLineToArgvW. The two must undo each other.
 */
module WindowsCommandLine {
  const QUOTE := '"'
  const BACKSLASH := '\\'

  predicate IsBlank(c: char) { c == ' ' || c == '\t' }

  predicate IsQuote(c: char) { c == QUOTE }

  predicate NeedsQuotes(arg: string) {
    exists i :: 0 <= i < |arg| && (IsBlank(arg[i]) || arg[i] == QUOTE)
  }

  function Slashes(n: nat): (r: string)
    ensures |r| == n
    ensures forall i :: 0 <= i < n ==> r[i] == BACKSLASH
  {
    seq(n, _ => BACKSLASH)
  }

  // ---------------------------------------------------------------- printing

  /** The text between the quotes for the rest of an argument, `pending` backslashes being held back. */
  function Quoted(rest: string, pending: nat): string
    decreases |rest|
  {
    if rest == [] then Slashes(2 * pending)
    else if rest[0] == BACKSLASH then Quoted(rest[1..], pending + 1)
    else if rest[0] == QUOTE then Slashes(2 * pending + 1) + [QUOTE] + Quoted(rest[1..], 0)
    else Slashes(pending) + [rest[0]] + Quoted(rest[1..], 0)
  }

  function QuotedArg(arg: string): string {
    if NeedsQuotes(arg) then [QUOTE] + Quoted(arg, 0) + [QUOTE] else arg
  }

  method QuoteArg(arg: string) returns (quoted: string)
    ensures quoted == QuotedArg(arg)
  {
    if !NeedsQuotes(arg) {
      return arg;
    }
    quoted := [QUOTE];
    var backslashes := 0;
    for i := 0 to |arg|
      invariant quoted + Quoted(arg[i..], backslashes) == [QUOTE] + Quoted(arg, 0)
    {
      var ch := arg[i];
      ghost var before := quoted;
      if ch == BACKSLASH {
        backslashes := backslashes + 1;
      } else if ch == QUOTE {
        quoted := quoted + Slashes(2 * backslashes + 1);
        quoted := quoted + [QUOTE];
        backslashes := 0;
        assert quoted + Quoted(arg[i + 1..], 0) == before + (quoted[|before|..] + Quoted(arg[i + 1..], 0));
      } else {
        if backslashes > 0 {
          quoted := quoted + Slashes(backslashes);
          backslashes := 0;
        }
        quoted := quoted + [ch];
        assert quoted + Quoted(arg[i + 1..], 0) == before + (quoted[|before|..] + Quoted(arg[i + 1..], 0));
      }
    }
    if backslashes > 0 {
      quoted := quoted + Slashes(backslashes * 2);
    }
    quoted := quoted + [QUOTE];
  }

  /** Every argument but the first: a space, then the argument. */
  function JoinedTail(args: seq<string>): string {
    if args == [] then [] else " " + QuotedArg(args[0]) + JoinedTail(args[1..])
  }

  lemma {:induction false} JoinedTailSnoc(args: seq<string>, arg: string)
    ensures JoinedTail(args + [arg]) == JoinedTail(args) + " " + QuotedArg(arg)
  {
    hide QuotedArg;
    if args == [] {
      assert [arg][1..] == [];
    } else {
      JoinedTailSnoc(args[1..], arg);
      assert (args + [arg])[1..] == args[1..] + [arg];
    }
  }

  method JoinCommandLine(argv: seq<string>) returns (line: string)
    requires argv != []
    ensures line == QuotedArg(argv[0]) + JoinedTail(argv[1..])
  {
    line := QuoteArg(argv[0]);
    for i := 1 to |argv|
      invariant line == QuotedArg(argv[0]) + JoinedTail(argv[1..i])
    {
      var quoted := QuoteArg(argv[i]);
      line := line + " " + quoted;
      JoinedTailSnoc(argv[1..i], argv[i]);
      assert argv[1..i + 1] == argv[1..i] + [argv[i]];
    }
    assert argv[1..|argv|] == argv[1..];
  }

  // ---------------------------------------------------------------- the documented parser

  datatype Scanned = Scanned(arg: string, rest: string)

  /**
   One argument after the program name. `slashes` backslashes have been read and are
   waiting for the next character: before a quotation mark every pair stands for one
   backslash and an odd one escapes the mark; elsewhere each stands for itself.
   */
  function Scan(s: string, quoted: bool, slashes: nat): (r: Scanned)
    ensures |r.rest| <= |s|
    ensures s != [] && (quoted || !IsBlank(s[0])) ==> |r.rest| < |s|
    decreases |s|
  {
    if s == [] then Scanned(Slashes(slashes), [])
    else if s[0] == BACKSLASH then Scan(s[1..], quoted, slashes + 1)
    else if s[0] == QUOTE && slashes % 2 == 0 then
      var r := Scan(s[1..], !quoted, 0); r.(arg := Slashes(slashes / 2) + r.arg)
    else if s[0] == QUOTE then
      var r := Scan(s[1..], quoted, 0); r.(arg := Slashes(slashes / 2) + [QUOTE] + r.arg)
    else if IsBlank(s[0]) && !quoted then Scanned(Slashes(slashes), s)
    else
      var r := Scan(s[1..], quoted, 0); r.(arg := Slashes(slashes) + [s[0]] + r.arg)
  }

  function ParseArgs(s: string): seq<string>
    decreases |s|
  {
    if s == [] then []
    else if IsBlank(s[0]) then ParseArgs(s[1..])
    else var r := Scan(s, false, 0); [r.arg] + ParseArgs(r.rest)
  }

  /** The text before the first character that satisfies `stop`, and what follows it. */
  function Before(s: string, stop: char -> bool): Scanned {
    if s == [] || stop(s[0]) then Scanned([], s)
    else var r := Before(s[1..], stop); r.(arg := [s[0]] + r.arg)
  }

  function ParseAfterMark(s: string): seq<string> {
    var r := Before(s, IsQuote);
    [r.arg] + ParseArgs(if r.rest == [] then [] else r.rest[1..])
  }

  /** The program name has its own rule: no escapes, and an empty line stands for the running program. */
  function ParseCommandLine(line: string, running: string): seq<string> {
    if line == [] then [running]
    else if line[0] == QUOTE then ParseAfterMark(line[1..])
    else
      var r := Before(line, IsBlank);
      [r.arg] + ParseArgs(r.rest)
  }

  // ---------------------------------------------------------------- printing, then parsing

  ghost predicate EndsArgument(s: string) { s == [] || IsBlank(s[0]) }

  lemma {:induction false} ScanSlashes(n: nat, s: string, quoted: bool, slashes: nat)
    ensures Scan(Slashes(n) + s, quoted, slashes) == Scan(s, quoted, slashes + n)
  {
    if n == 0 {
      assert Slashes(0) + s == s;
    } else {
      assert (Slashes(n) + s)[1..] == Slashes(n - 1) + s;
      ScanSlashes(n - 1, s, quoted, slashes + 1);
    }
  }

  /** Inside quotes: a run of backslashes, then an escaped mark or an ordinary character. */
  lemma ScanFlush(n: nat, c: char, more: string)
    requires c != BACKSLASH && (c == QUOTE ==> n % 2 == 1)
    ensures var r := Scan(more, true, 0);
      Scan(Slashes(n) + ([c] + more), true, 0)
        == Scanned(Slashes(if c == QUOTE then n / 2 else n) + [c] + r.arg, r.rest)
  {
    ScanSlashes(n, [c] + more, true, 0);
    assert ([c] + more)[1..] == more;
  }

  lemma SlashesThen(pending: nat, rest: string)
    requires rest != []
    ensures rest[0] == BACKSLASH ==> Slashes(pending + 1) + rest[1..] == Slashes(pending) + rest
    ensures Slashes(pending) + [rest[0]] + (Slashes(0) + rest[1..]) == Slashes(pending) + rest
  {
  }

  lemma QuotedStep(rest: string, pending: nat, tail: string)
    requires rest != [] && rest[0] != BACKSLASH
    ensures Quoted(rest, pending) + [QUOTE] + tail
      == Slashes(if rest[0] == QUOTE then 2 * pending + 1 else pending)
         + ([rest[0]] + (Quoted(rest[1..], 0) + [QUOTE] + tail))
  {
  }

  lemma {:induction false} ScanUndoesQuoted(rest: string, pending: nat, tail: string)
    requires EndsArgument(tail)
    ensures Scan(Quoted(rest, pending) + [QUOTE] + tail, true, 0) == Scanned(Slashes(pending) + rest, tail)
    decreases |rest|
  {
    if rest == [] {
      ScanSlashes(2 * pending, [QUOTE] + tail, true, 0);
      assert Slashes(2 * pending) + [QUOTE] + tail == Slashes(2 * pending) + ([QUOTE] + tail);
    } else if rest[0] == BACKSLASH {
      SlashesThen(pending, rest);
      ScanUndoesQuoted(rest[1..], pending + 1, tail);
    } else {
      ScanUndoesQuoted(rest[1..], 0, tail);
      ScanUndoesCharacter(rest, pending, tail);
    }
  }

  lemma ScanUndoesCharacter(rest: string, pending: nat, tail: string)
    requires rest != [] && rest[0] != BACKSLASH
    requires Scan(Quoted(rest[1..], 0) + [QUOTE] + tail, true, 0) == Scanned(Slashes(0) + rest[1..], tail)
    ensures Scan(Quoted(rest, pending) + [QUOTE] + tail, true, 0) == Scanned(Slashes(pending) + rest, tail)
  {
    hide Scan, Quoted;
    SlashesThen(pending, rest);
    QuotedStep(rest, pending, tail);
    ScanFlush(if rest[0] == QUOTE then 2 * pending + 1 else pending, rest[0], Quoted(rest[1..], 0) + [QUOTE] + tail);
  }

  lemma {:induction false} ScanPlain(arg: string, slashes: nat, tail: string)
    requires !NeedsQuotes(arg) && EndsArgument(tail)
    ensures Scan(arg + tail, false, slashes) == Scanned(Slashes(slashes) + arg, tail)
    decreases |arg|
  {
    if arg == [] {
      assert arg + tail == tail;
    } else {
      assert forall i :: 0 <= i < |arg[1..]| ==> arg[1..][i] == arg[i + 1];
      assert (arg + tail)[1..] == arg[1..] + tail;
      if arg[0] == BACKSLASH {
        ScanPlain(arg[1..], slashes + 1, tail);
        assert Slashes(slashes + 1) + arg[1..] == Slashes(slashes) + arg;
      } else {
        ScanPlain(arg[1..], 0, tail);
        assert Slashes(slashes) + [arg[0]] + (Slashes(0) + arg[1..]) == Slashes(slashes) + arg;
      }
    }
  }

  lemma ScanUndoesQuotedArg(arg: string, tail: string)
    requires arg != [] && EndsArgument(tail)
    ensures Scan(QuotedArg(arg) + tail, false, 0) == Scanned(arg, tail)
  {
    if NeedsQuotes(arg) {
      var inner := Quoted(arg, 0) + [QUOTE] + tail;
      ScanUndoesQuoted(arg, 0, tail);
      assert QuotedArg(arg) + tail == [QUOTE] + inner;
      ScanOpensQuotes(inner);
      hide Scan, Quoted, QuotedArg;
      assert Slashes(0) + (Slashes(0) + arg) == arg;
    } else {
      ScanPlain(arg, 0, tail);
      assert Slashes(0) + arg == arg;
    }
  }

  lemma ScanOpensQuotes(inner: string)
    ensures Scan([QUOTE] + inner, false, 0) == Scan(inner, true, 0)
  {
    assert ([QUOTE] + inner)[1..] == inner;
  }

  function NonEmpty(args: seq<string>): seq<string> {
    if args == [] then [] else (if args[0] == [] then [] else [args[0]]) + NonEmpty(args[1..])
  }

  lemma {:induction false} NonEmptyKeepsAll(args: seq<string>)
    ensures |NonEmpty(args)| <= |args|
    ensures NonEmpty(args) == args <==> "" !in args
  {
    if args != [] {
      NonEmptyKeepsAll(args[1..]);
      assert args == [args[0]] + args[1..];
      if args[0] != [] {
        assert NonEmpty(args)[1..] == NonEmpty(args[1..]);
      }
    }
  }

  /** What the started program reads back: every argument but the empty ones, which are printed as nothing. */
  lemma {:induction false} ParseUndoesJoin(args: seq<string>)
    ensures ParseArgs(JoinedTail(args)) == NonEmpty(args)
  {
    if args != [] {
      ParseUndoesJoin(args[1..]);
      var after := QuotedArg(args[0]) + JoinedTail(args[1..]);
      assert JoinedTail(args)[1..] == after;
      if args[0] == [] {
        assert after == JoinedTail(args[1..]);
      } else {
        ScanUndoesQuotedArg(args[0], JoinedTail(args[1..]));
        assert after[0] == QUOTE || after[0] == args[0][0];
      }
    }
  }

  lemma {:induction false} BeforeStops(s: string, tail: string, stop: char -> bool)
    requires forall i :: 0 <= i < |s| ==> !stop(s[i])
    requires tail == [] || stop(tail[0])
    ensures Before(s + tail, stop) == Scanned(s, tail)
  {
    if s == [] {
      assert s + tail == tail;
    } else {
      assert (s + tail)[1..] == s[1..] + tail;
      BeforeStops(s[1..], tail, stop);
    }
  }

  lemma {:induction false} BeforeAvoids(s: string, stop: char -> bool)
    ensures forall c :: c in Before(s, stop).arg ==> !stop(c)
  {
    if s != [] && !stop(s[0]) { BeforeAvoids(s[1..], stop); }
  }

  predicate EndsInBackslash(s: string) { s != [] && s[|s| - 1] == BACKSLASH }

  /** Without quotation marks, quoting only doubles the backslashes at the very end. */
  lemma {:induction false} QuotedWithoutMarks(rest: string, pending: nat) returns (extra: nat)
    requires QUOTE !in rest
    ensures Quoted(rest, pending) == Slashes(pending) + rest + Slashes(extra)
    ensures extra == 0 <==> !EndsInBackslash(Slashes(pending) + rest)
    decreases |rest|
  {
    if rest == [] {
      extra := pending;
      assert Slashes(2 * pending) == Slashes(pending) + rest + Slashes(pending);
    } else {
      SlashesThen(pending, rest);
      if rest[0] == BACKSLASH {
        extra := QuotedWithoutMarks(rest[1..], pending + 1);
      } else {
        extra := QuotedWithoutMarks(rest[1..], 0);
        assert Slashes(pending) + [rest[0]] + (Slashes(0) + rest[1..] + Slashes(extra)) == Slashes(pending) + rest + Slashes(extra);
      }
    }
  }

  /** What a program name needs, because its own rule knows no escapes. */
  predicate ProgramSurvives(program: string) {
    NeedsQuotes(program) ==> QUOTE !in program && !EndsInBackslash(program)
  }

  lemma QuotedProgramReadsBack(program: string, tail: string)
    requires NeedsQuotes(program)
    ensures var r := Before(Quoted(program, 0) + ([QUOTE] + tail), IsQuote);
      if ProgramSurvives(program) then r == Scanned(program, [QUOTE] + tail) else r.arg != program
  {
    var inner := Quoted(program, 0);
    if QUOTE !in program {
      var extra := QuotedWithoutMarks(program, 0);
      assert Slashes(0) + program == program;
      assert |inner| == |program| + extra;
      BeforeStops(inner, [QUOTE] + tail, IsQuote);
      assert program + Slashes(0) == program;
    } else {
      BeforeAvoids(inner + ([QUOTE] + tail), IsQuote);
    }
  }

  lemma ProgramReadsBack(program: string, args: seq<string>, running: string)
    requires program != [] || args != []
    ensures var parsed := ParseCommandLine(QuotedArg(program) + JoinedTail(args), running);
      && parsed != []
      && (parsed[0] == program <==> ProgramSurvives(program))
      && (ProgramSurvives(program) ==> parsed == [program] + NonEmpty(args))
  {
    ParseUndoesJoin(args);
    if NeedsQuotes(program) {
      QuotedLine(program, JoinedTail(args), running);
    } else {
      PlainLine(program, JoinedTail(args), running);
    }
  }

  lemma QuotedLine(program: string, tail: string, running: string)
    requires NeedsQuotes(program)
    ensures var parsed := ParseCommandLine(QuotedArg(program) + tail, running);
      && parsed != []
      && (parsed[0] == program <==> ProgramSurvives(program))
      && (ProgramSurvives(program) ==> parsed == [program] + ParseArgs(tail))
  {
    var body := Quoted(program, 0) + ([QUOTE] + tail);
    assert QuotedArg(program) + tail == [QUOTE] + body;
    assert ([QUOTE] + body)[1..] == body;
    MarkedProgram(program, tail);
  }

  lemma MarkedProgram(program: string, tail: string)
    requires NeedsQuotes(program)
    ensures var parsed := ParseAfterMark(Quoted(program, 0) + ([QUOTE] + tail));
      && parsed != []
      && (parsed[0] == program <==> ProgramSurvives(program))
      && (ProgramSurvives(program) ==> parsed == [program] + ParseArgs(tail))
  {
    QuotedProgramReadsBack(program, tail);
    assert ([QUOTE] + tail)[1..] == tail;
  }

  lemma PlainLine(program: string, tail: string, running: string)
    requires !NeedsQuotes(program) && EndsArgument(tail) && program + tail != []
    ensures ParseCommandLine(QuotedArg(program) + tail, running) == [program] + ParseArgs(tail)
  {
    BeforeStops(program, tail, IsBlank);
    assert (program + tail)[0] == if program == [] then tail[0] else program[0];
  }

  /**
   The printed command line is read back as the very list it was printed from exactly
   when no argument is empty and the program name needs no escape.
   */
  lemma CommandLineRoundTrip(argv: seq<string>, running: string)
    requires argv != [] && running != []
    ensures ParseCommandLine(QuotedArg(argv[0]) + JoinedTail(argv[1..]), running) == argv
      <==> ProgramSurvives(argv[0]) && "" !in argv[1..] && argv != [""]
  {
    var program, args := argv[0], argv[1..];
    assert argv == [program] + args;
    if program == [] && args == [] {
      assert QuotedArg(program) + JoinedTail(args) == [];
    } else {
      ProgramReadsBack(program, args, running);
      NonEmptyKeepsAll(args);
      if ProgramSurvives(program) {
        assert ([program] + NonEmpty(args))[1..] == NonEmpty(args);
      }
    }
  }
}
