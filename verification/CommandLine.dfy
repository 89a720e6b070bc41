/**
The Windows command line that `process::spawn` builds from an argument vector
(src/platform/subprocess_win32.cpp), and the argument-splitting rules of the
Microsoft C runtime that the child applies to it.
*/
module CommandLine {

  predicate IsBlank(c: char) { c == ' ' || c == '\t' }

  // arg.find_first_of(" \t\"") != npos
  predicate NeedsQuotes(arg: string) {
    exists i :: 0 <= i < |arg| && (IsBlank(arg[i]) || arg[i] == '"')
  }

  function Backslashes(n: nat): (r: string)
    ensures |r| == n && forall i :: 0 <= i < n ==> r[i] == '\\'
  {
    seq(n, i => '\\')
  }

  // ---------------------------------------------------------------------
  // Building
  // ---------------------------------------------------------------------

  // What is still to be written for the characters `arg` of a quoted argument when
  // `pending` backslashes have been read but not yet emitted; includes the closing quote.
  function QuotedRest(arg: string, pending: nat): string {
    if arg == "" then Backslashes(2 * pending) + "\""
    else if arg[0] == '\\' then QuotedRest(arg[1..], pending + 1)
    else if arg[0] == '"' then Backslashes(2 * pending + 1) + "\"" + QuotedRest(arg[1..], 0)
    else Backslashes(pending) + [arg[0]] + QuotedRest(arg[1..], 0)
  }

  function Token(arg: string): string {
    if NeedsQuotes(arg) then "\"" + QuotedRest(arg, 0) else arg
  }

  function Line(args: seq<string>): string {
    if args == [] then ""
    else if |args| == 1 then Token(args[0])
    else Token(args[0]) + " " + Line(args[1..])
  }

  lemma {:induction false} LineAppend(args: seq<string>, arg: string)
    requires args != []
    ensures Line(args + [arg]) == Line(args) + " " + Token(arg)
  {
    assert (args + [arg])[1..] == args[1..] + [arg];
    if |args| == 1 {
      assert args[1..] + [arg] == [arg];
    } else {
      LineAppend(args[1..], arg);
      assert Token(args[0]) + " " + (Line(args[1..]) + " " + Token(arg))
          == Token(args[0]) + " " + Line(args[1..]) + " " + Token(arg);
    }
  }

  lemma {:induction false} QuotedEnds(arg: string, pending: nat)
    ensures var q := QuotedRest(arg, pending); q != "" && q[|q| - 1] == '"'
  {
    if arg != "" {
      QuotedEnds(arg[1..], if arg[0] == '\\' then pending + 1 else 0);
    }
  }

  // An argument without blanks and quotes is passed as it is, any other between quotes.
  lemma TokenShape(arg: string)
    ensures var plain := ' ' !in arg && '\t' !in arg && '"' !in arg;
            && (plain ==> Token(arg) == arg)
            && (!plain ==> 2 <= |Token(arg)| && Token(arg)[0] == '"' && Token(arg)[|Token(arg)| - 1] == '"')
  {
    QuotedEnds(arg, 0);
  }

  // The quoting loop over one argument.
  method AppendQuoted(cmd0: string, arg: string) returns (cmd: string)
    ensures cmd == cmd0 + "\"" + QuotedRest(arg, 0)
  {
    cmd := cmd0 + "\"";
    var backslashes: nat := 0;
    for j := 0 to |arg|
      invariant cmd + QuotedRest(arg[j..], backslashes) == cmd0 + "\"" + QuotedRest(arg, 0)
    {
      var ch := arg[j];
      assert arg[j..][1..] == arg[j + 1..];
      if ch == '\\' {
        backslashes := backslashes + 1;
        continue;
      }
      if ch == '"' {
        cmd := cmd + Backslashes(2 * backslashes + 1) + "\"";
        backslashes := 0;
        continue;
      }
      if backslashes != 0 {
        cmd := cmd + Backslashes(backslashes);
        backslashes := 0;
      }
      cmd := cmd + [ch];
    }
    if backslashes != 0 {
      cmd := cmd + Backslashes(2 * backslashes);
    }
    cmd := cmd + "\"";
  }

  // The whole building loop; the terminating NUL is part of the buffer.
  method BuildCommandLine(argv: seq<string>) returns (buffer: string)
    requires argv != []
    ensures buffer == Line(argv) + "\0"
  {
    var cmd := "";
    for i := 0 to |argv|
      invariant cmd == Line(argv[..i])
    {
      assert argv[..i + 1] == argv[..i] + [argv[i]];
      if i != 0 {
        LineAppend(argv[..i], argv[i]);
        cmd := cmd + " ";
      }
      var arg := argv[i];
      if !NeedsQuotes(arg) {
        cmd := cmd + arg;
      } else {
        cmd := AppendQuoted(cmd, arg);
      }
    }
    assert argv[..|argv|] == argv;
    buffer := cmd + "\0";
  }

  // ---------------------------------------------------------------------
  // Splitting: the argument rules of the Microsoft C runtime, the general
  // rule applied at every position
  // ---------------------------------------------------------------------

  // What two adjacent quotes mean inside a quoted part; the runtime's rule has changed
  // over time, so it is a parameter.
  datatype PairRule = CloseThenOpen | LiteralAndStay | LiteralAndLeave

  function LeadingBackslashes(s: string): (n: nat)
    ensures n <= |s|
  {
    if s != "" && s[0] == '\\' then 1 + LeadingBackslashes(s[1..]) else 0
  }

  // One round of reading an argument: a run of backslashes and what it is attached to.
  datatype Reading = Done(arg: string, rest: string) | More(rest: string, quoted: bool, acc: string)

  function ReadRound(s: string, quoted: bool, rule: PairRule, acc: string): (r: Reading)
    ensures if r.Done? then |r.rest| <= |s| else |r.rest| < |s|
  {
    var n := LeadingBackslashes(s);
    var rest := s[n..];
    if rest == "" then Done(acc + Backslashes(n), "")
    else if rest[0] == '"' then
      var acc' := acc + Backslashes(n / 2);
      if n % 2 == 1 then More(rest[1..], quoted, acc' + "\"")
      else if quoted && !rule.CloseThenOpen? && |rest| > 1 && rest[1] == '"' then
        More(rest[2..], rule.LiteralAndStay?, acc' + "\"")
      else More(rest[1..], !quoted, acc')
    else if !quoted && IsBlank(rest[0]) then Done(acc + Backslashes(n), rest)
    else More(rest[1..], quoted, acc + Backslashes(n) + [rest[0]])
  }

  // Reads one argument: its text and what follows it.
  function ReadArg(s: string, quoted: bool, rule: PairRule, acc: string): (r: (string, string))
    ensures |r.1| <= |s|
    decreases |s|
  {
    match ReadRound(s, quoted, rule, acc)
    case Done(arg, rest) => (arg, rest)
    case More(rest, q, a) => ReadArg(rest, q, rule, a)
  }

  // An argument consumes at least one character unless it starts at a blank.
  lemma {:induction false} ReadArgProgress(s: string, rule: PairRule)
    requires s != "" && !IsBlank(s[0])
    ensures |ReadArg(s, false, rule, "").1| < |s|
  {
    assert s[0..] == s;
  }

  function Split(s: string, rule: PairRule): seq<string>
    decreases |s|
  {
    if s == "" then []
    else if IsBlank(s[0]) then Split(s[1..], rule)
    else
      ReadArgProgress(s, rule);
      var (arg, rest) := ReadArg(s, false, rule, "");
      [arg] + Split(rest, rule)
  }

  // A C string ends at its first NUL.
  function CString(buffer: string): string {
    if buffer == "" || buffer[0] == '\0' then "" else [buffer[0]] + CString(buffer[1..])
  }

  // ---------------------------------------------------------------------
  // The round trip
  // ---------------------------------------------------------------------

  lemma {:induction false} CountBackslashes(n: nat, t: string)
    requires t == "" || t[0] != '\\'
    ensures LeadingBackslashes(Backslashes(n) + t) == n
    ensures (Backslashes(n) + t)[n..] == t
  {
    if n == 0 {
      assert Backslashes(0) + t == t;
    } else {
      assert (Backslashes(n) + t)[1..] == Backslashes(n - 1) + t;
      CountBackslashes(n - 1, t);
    }
  }

  // What may stand after an argument.
  ghost predicate AtBoundary(rest: string) { rest == "" || rest[0] == ' ' }

  // The rounds that occur: an ordinary character, an escaped quote, a quote that opens or
  // closes, the end of an argument.
  lemma RoundOrdinary(n: nat, c: char, u: string, quoted: bool, rule: PairRule, acc: string)
    requires c != '\\' && c != '"' && (quoted || !IsBlank(c))
    ensures ReadRound(Backslashes(n) + ([c] + u), quoted, rule, acc)
         == More(u, quoted, acc + Backslashes(n) + [c])
  {
    CountBackslashes(n, [c] + u);
  }

  lemma RoundEscapedQuote(n: nat, u: string, rule: PairRule, acc: string)
    ensures ReadRound(Backslashes(2 * n + 1) + ("\"" + u), true, rule, acc)
         == More(u, true, acc + Backslashes(n) + "\"")
  {
    CountBackslashes(2 * n + 1, "\"" + u);
  }

  lemma RoundQuote(n: nat, u: string, quoted: bool, rule: PairRule, acc: string)
    requires quoted ==> AtBoundary(u)
    ensures ReadRound(Backslashes(2 * n) + ("\"" + u), quoted, rule, acc)
         == More(u, !quoted, acc + Backslashes(n))
  {
    CountBackslashes(2 * n, "\"" + u);
  }

  lemma RoundBoundary(n: nat, rest: string, rule: PairRule, acc: string)
    requires AtBoundary(rest)
    ensures ReadRound(Backslashes(n) + rest, false, rule, acc) == Done(acc + Backslashes(n), rest)
  {
    CountBackslashes(n, rest);
  }

  // The text QuotedRest writes before it goes on with arg[1..].
  lemma QuotedUnfold(arg: string, pending: nat, rest: string)
    requires arg != "" && arg[0] != '\\'
    ensures QuotedRest(arg, pending) + rest
         == Backslashes(if arg[0] == '"' then 2 * pending + 1 else pending)
            + ([arg[0]] + (QuotedRest(arg[1..], 0) + rest))
  {}

  lemma Reassociate(acc: string, pending: nat, arg: string)
    requires arg != ""
    ensures acc + Backslashes(pending) + [arg[0]] + Backslashes(0) + arg[1..] == acc + Backslashes(pending) + arg
    ensures arg[0] == '\\' ==> acc + Backslashes(pending + 1) + arg[1..] == acc + Backslashes(pending) + arg
  {}

  lemma {:induction false} ReadQuoted(arg: string, pending: nat, rest: string, rule: PairRule, acc: string)
    requires AtBoundary(rest)
    ensures ReadArg(QuotedRest(arg, pending) + rest, true, rule, acc)
         == (acc + Backslashes(pending) + arg, rest)
    decreases |arg|
  {
    if arg == "" {
      assert QuotedRest(arg, pending) + rest == Backslashes(2 * pending) + ("\"" + rest);
      RoundQuote(pending, rest, true, rule, acc);
      var acc' := acc + Backslashes(pending);
      RoundBoundary(0, rest, rule, acc');
      assert Backslashes(0) + rest == rest;
      assert acc' + Backslashes(0) == acc' == acc' + arg;
    } else if arg[0] == '\\' {
      ReadQuoted(arg[1..], pending + 1, rest, rule, acc);
      Reassociate(acc, pending, arg);
    } else {
      var u := QuotedRest(arg[1..], 0) + rest;
      var acc' := acc + Backslashes(pending) + [arg[0]];
      QuotedUnfold(arg, pending, rest);
      if arg[0] == '"' {
        RoundEscapedQuote(pending, u, rule, acc);
      } else {
        RoundOrdinary(pending, arg[0], u, true, rule, acc);
      }
      ReadQuoted(arg[1..], 0, rest, rule, acc');
      Reassociate(acc, pending, arg);
    }
  }

  lemma {:induction false} BackslashPrefix(s: string)
    ensures var n := LeadingBackslashes(s);
            s[..n] == Backslashes(n) && (n < |s| ==> s[n] != '\\')
  {
    if s != "" && s[0] == '\\' {
      BackslashPrefix(s[1..]);
      var n := LeadingBackslashes(s);
      assert s[..n] == [s[0]] + s[1..][..n - 1];
    }
  }

  lemma PlainUnfold(arg: string, n: nat, rest: string, acc: string)
    requires n < |arg| && arg[..n] == Backslashes(n)
    ensures arg + rest == Backslashes(n) + ([arg[n]] + (arg[n + 1..] + rest))
    ensures acc + Backslashes(n) + [arg[n]] + arg[n + 1..] == acc + arg
  {
    assert arg == arg[..n] + [arg[n]] + arg[n + 1..];
  }

  lemma {:induction false} ReadPlain(arg: string, rest: string, rule: PairRule, acc: string)
    requires AtBoundary(rest) && !NeedsQuotes(arg)
    ensures ReadArg(arg + rest, false, rule, acc) == (acc + arg, rest)
    decreases |arg|
  {
    BackslashPrefix(arg);
    var n := LeadingBackslashes(arg);
    if n == |arg| {
      assert arg == arg[..n];
      RoundBoundary(n, rest, rule, acc);
    } else {
      PlainUnfold(arg, n, rest, acc);
      RoundOrdinary(n, arg[n], arg[n + 1..] + rest, false, rule, acc);
      ReadPlain(arg[n + 1..], rest, rule, acc + Backslashes(n) + [arg[n]]);
    }
  }

  lemma ReadToken(arg: string, rest: string, rule: PairRule)
    requires AtBoundary(rest)
    ensures ReadArg(Token(arg) + rest, false, rule, "") == (arg, rest)
  {
    if NeedsQuotes(arg) {
      var u := QuotedRest(arg, 0) + rest;
      assert Token(arg) + rest == Backslashes(0) + ("\"" + u);
      RoundQuote(0, u, false, rule, "");
      assert "" + Backslashes(0) == "";
      ReadQuoted(arg, 0, rest, rule, "");
      assert "" + Backslashes(0) + arg == arg;
    } else {
      ReadPlain(arg, rest, rule, "");
      assert "" + arg == arg;
    }
  }

  function NonEmpty(args: seq<string>): seq<string> {
    if args == [] then []
    else if args[0] == "" then NonEmpty(args[1..])
    else [args[0]] + NonEmpty(args[1..])
  }

  // Splitting the line gives back every argument except the empty ones, for which nothing
  // is written.
  lemma {:induction false} SplitLine(args: seq<string>, rule: PairRule)
    ensures Split(Line(args), rule) == NonEmpty(args)
    decreases |args|
  {
    if args != [] {
      var tail := if |args| == 1 then "" else " " + Line(args[1..]);
      assert Line(args) == Token(args[0]) + tail;
      SplitLine(args[1..], rule);
      assert Split(tail, rule) == NonEmpty(args[1..]) by {
        if |args| == 1 { assert args[1..] == []; } else { assert tail[1..] == Line(args[1..]); }
      }
      if args[0] == "" {
        assert Line(args) == tail;
      } else {
        ReadToken(args[0], tail, rule);
        assert !IsBlank(Line(args)[0]);
      }
    }
  }

  lemma {:induction false} NonEmptyShrinks(args: seq<string>)
    ensures |NonEmpty(args)| <= |args|
    ensures |NonEmpty(args)| == |args| <==> "" !in args
    ensures "" !in args ==> NonEmpty(args) == args
  {
    if args != [] {
      NonEmptyShrinks(args[1..]);
      assert args == [args[0]] + args[1..];
    }
  }

  // The child recovers the argument vector exactly when no argument is empty.
  lemma RoundTrip(args: seq<string>, rule: PairRule)
    ensures Split(Line(args), rule) == args <==> "" !in args
  {
    SplitLine(args, rule);
    NonEmptyShrinks(args);
  }

  ghost predicate NulFree(s: string) { '\0' !in s }

  lemma {:induction false} QuotedNulFree(arg: string, pending: nat)
    requires NulFree(arg)
    ensures NulFree(QuotedRest(arg, pending))
    decreases |arg|
  {
    if arg != "" {
      QuotedNulFree(arg[1..], if arg[0] == '\\' then pending + 1 else 0);
    }
  }

  lemma {:induction false} LineNulFree(args: seq<string>)
    requires forall a :: a in args ==> NulFree(a)
    ensures NulFree(Line(args))
  {
    if args != [] {
      QuotedNulFree(args[0], 0);
      LineNulFree(args[1..]);
    }
  }

  lemma {:induction false} CStringOfLine(line: string)
    requires NulFree(line)
    ensures CString(line + "\0") == line
  {
    if line != "" {
      assert (line + "\0")[1..] == line[1..] + "\0";
      CStringOfLine(line[1..]);
    }
  }

  // From argument vector to buffer to C string to the child's argument vector.
  method SpawnRoundTrip(argv: seq<string>, rule: PairRule) returns (childArgv: seq<string>)
    requires argv != [] && forall a :: a in argv ==> NulFree(a)
    ensures childArgv == NonEmpty(argv)
    ensures childArgv == argv <==> "" !in argv
  {
    var buffer := BuildCommandLine(argv);
    LineNulFree(argv);
    CStringOfLine(Line(argv));
    SplitLine(argv, rule);
    NonEmptyShrinks(argv);
    childArgv := Split(CString(buffer), rule);
  }
}
