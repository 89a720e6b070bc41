/**
The text codec of the C++/Python handshake example: the C++ side escapes in one pass and
parses with find and substr (examples/cpp_python_handshake_progress.cpp); the Python side
escapes with five successive replaces and parses with split
(Python/examples/cpp_python_handshake_worker.py).
*/
module Handshake {

  // ---------------------------------------------------------------------
  // Escaping
  // ---------------------------------------------------------------------

  function EscapeChar(c: char): string {
    match c
    case '\\' => "\\\\"
    case '\t' => "\\t"
    case '\n' => "\\n"
    case '\r' => "\\r"
    case '=' => "\\e"
    case _ => [c]
  }

  function Escape(value: string): string {
    if value == "" then "" else EscapeChar(value[0]) + Escape(value[1..])
  }

  function UnescapeChar(c: char): char {
    match c
    case 't' => '\t'
    case 'n' => '\n'
    case 'r' => '\r'
    case 'e' => '='
    case _ => c
  }

  function Unescape(value: string, escaping: bool): string {
    if value == "" then (if escaping then "\\" else "")
    else if escaping then [UnescapeChar(value[0])] + Unescape(value[1..], false)
    else if value[0] == '\\' then Unescape(value[1..], true)
    else [value[0]] + Unescape(value[1..], false)
  }

  lemma {:induction false} EscapeAppend(a: string, c: char)
    ensures Escape(a + [c]) == Escape(a) + EscapeChar(c)
  {
    if a == "" {
      assert a + [c] == [c];
    } else {
      assert (a + [c])[1..] == a[1..] + [c];
      EscapeAppend(a[1..], c);
    }
  }

  method EscapeField(value: string) returns (out: string)
    ensures out == Escape(value)
  {
    out := "";
    for i := 0 to |value|
      invariant out == Escape(value[..i])
    {
      assert value[..i + 1] == value[..i] + [value[i]];
      EscapeAppend(value[..i], value[i]);
      match value[i] {
        case '\\' => out := out + "\\\\";
        case '\t' => out := out + "\\t";
        case '\n' => out := out + "\\n";
        case '\r' => out := out + "\\r";
        case '=' => out := out + "\\e";
        case ch => out := out + [ch];
      }
    }
    assert value[..|value|] == value;
  }

  // Reading one character moves it from the rest to the output.
  lemma UnescapeStep(out: string, value: string, i: nat, escaping: bool)
    requires i < |value|
    ensures var rest, next := value[i..], value[i + 1..];
            out + Unescape(rest, escaping) ==
            if escaping then out + [UnescapeChar(value[i])] + Unescape(next, false)
            else if value[i] == '\\' then out + Unescape(next, true)
            else out + [value[i]] + Unescape(next, false)
  {
    assert value[i..][1..] == value[i + 1..];
  }

  method UnescapeField(value: string) returns (out: string)
    ensures out == Unescape(value, false)
  {
    out := "";
    var escaping := false;
    for i := 0 to |value|
      invariant out + Unescape(value[i..], escaping) == Unescape(value, false)
    {
      var ch := value[i];
      UnescapeStep(out, value, i, escaping);
      if !escaping {
        if ch == '\\' {
          escaping := true;
        } else {
          out := out + [ch];
        }
        continue;
      }
      var plain := match ch case 't' => '\t' case 'n' => '\n' case 'r' => '\r' case 'e' => '=' case _ => ch;
      out := out + [plain];
      escaping := false;
    }
    if escaping {
      out := out + "\\";
    }
  }

  // Unescaping undoes escaping, on every string.
  lemma {:induction false} UnescapeEscape(value: string)
    ensures Unescape(Escape(value), false) == value
  {
    if value != "" {
      var c := value[0];
      var rest := Escape(value[1..]);
      UnescapeEscape(value[1..]);
      if c in "\\\t\n\r=" {
        var e := EscapeChar(c) + rest;
        assert e[0] == '\\' && e[1..][0] == EscapeChar(c)[1] && e[1..][1..] == rest;
      } else {
        assert ([c] + rest)[1..] == rest;
      }
    }
  }

  // Escaped text holds none of the characters that structure a message.
  lemma {:induction false} EscapedIsClean(value: string)
    ensures forall c :: c in Escape(value) ==> c !in "\t\n\r="
  {
    if value != "" {
      EscapedIsClean(value[1..]);
    }
  }

  // ---------------------------------------------------------------------
  // Python's chain of replaces
  // ---------------------------------------------------------------------

  // str.replace for a one-character pattern.
  function Replace(s: string, c: char, text: string): string {
    if s == "" then "" else (if s[0] == c then text else [s[0]]) + Replace(s[1..], c, text)
  }

  function PythonEscape(value: string): string {
    Replace(Replace(Replace(Replace(Replace(value,
      '\\', "\\\\"), '\t', "\\t"), '\n', "\\n"), '\r', "\\r"), '=', "\\e")
  }

  lemma {:induction false} ReplaceConcat(a: string, b: string, c: char, text: string)
    ensures Replace(a + b, c, text) == Replace(a, c, text) + Replace(b, c, text)
  {
    if a == "" {
      assert a + b == b;
    } else {
      assert (a + b)[1..] == a[1..] + b;
      ReplaceConcat(a[1..], b, c, text);
    }
  }

  lemma PythonEscapeConcat(a: string, b: string)
    ensures PythonEscape(a + b) == PythonEscape(a) + PythonEscape(b)
  {
    ReplaceConcat(a, b, '\\', "\\\\");
    var a1, b1 := Replace(a, '\\', "\\\\"), Replace(b, '\\', "\\\\");
    ReplaceConcat(a1, b1, '\t', "\\t");
    var a2, b2 := Replace(a1, '\t', "\\t"), Replace(b1, '\t', "\\t");
    ReplaceConcat(a2, b2, '\n', "\\n");
    var a3, b3 := Replace(a2, '\n', "\\n"), Replace(b2, '\n', "\\n");
    ReplaceConcat(a3, b3, '\r', "\\r");
    ReplaceConcat(Replace(a3, '\r', "\\r"), Replace(b3, '\r', "\\r"), '=', "\\e");
  }

  lemma ReplaceShort(s: string, c: char, text: string)
    requires 1 <= |s| <= 2
    ensures |s| == 1 ==> Replace(s, c, text) == if s[0] == c then text else s
    ensures |s| == 2 && s[0] != c && s[1] != c ==> Replace(s, c, text) == s
  {
    assert |s| == 2 ==> s == [s[0]] + [s[1]] && s[1..] == [s[1]];
  }

  lemma PythonEscapeChar(c: char)
    ensures PythonEscape([c]) == EscapeChar(c)
  {
    var s1 := if c == '\\' then "\\\\" else [c];
    ReplaceShort([c], '\\', "\\\\");
    var s2 := if c == '\t' then "\\t" else s1;
    ReplaceShort(s1, '\t', "\\t");
    var s3 := if c == '\n' then "\\n" else s2;
    ReplaceShort(s2, '\n', "\\n");
    var s4 := if c == '\r' then "\\r" else s3;
    ReplaceShort(s3, '\r', "\\r");
    ReplaceShort(s4, '=', "\\e");
  }

  // The five replaces, done one after another over the whole string, equal the single pass.
  lemma {:induction false} PythonEscapeIsEscape(value: string)
    ensures PythonEscape(value) == Escape(value)
  {
    if value != "" {
      assert value == [value[0]] + value[1..];
      PythonEscapeConcat([value[0]], value[1..]);
      PythonEscapeChar(value[0]);
      PythonEscapeIsEscape(value[1..]);
    }
  }

  // ---------------------------------------------------------------------
  // Messages
  // ---------------------------------------------------------------------

  type Field = (string, string)

  datatype Message = Message(kind: string, fields: map<string, string>)

  function FieldToken(f: Field): string { f.0 + "=" + Escape(f.1) }

  function Build(kind: string, fields: seq<Field>): string {
    if fields == [] then kind
    else Build(kind, fields[..|fields| - 1]) + "\t" + FieldToken(fields[|fields| - 1])
  }

  // The C++ builder.
  method BuildMessage(kind: string, fields: seq<Field>) returns (out: string)
    ensures out == Build(kind, fields)
  {
    out := kind;
    for i := 0 to |fields|
      invariant out == Build(kind, fields[..i])
    {
      assert fields[..i + 1][..i] == fields[..i];
      out := out + "\t";
      out := out + fields[i].0;
      out := out + "=";
      var value := EscapeField(fields[i].1);
      out := out + value;
      assert out == Build(kind, fields[..i]) + "\t" + FieldToken(fields[i]);
    }
    assert fields[..|fields|] == fields;
  }

  // The Python builder: "\t".join over the type and one part per field.
  function Join(parts: seq<string>): string {
    if parts == [] then "" else if |parts| == 1 then parts[0] else parts[0] + "\t" + Join(parts[1..])
  }

  function PythonParts(kind: string, fields: seq<Field>): (parts: seq<string>)
    ensures |parts| == |fields| + 1
  {
    [kind] + seq(|fields|, i requires 0 <= i < |fields| => fields[i].0 + "=" + PythonEscape(fields[i].1))
  }

  function PythonBuild(kind: string, fields: seq<Field>): string { Join(PythonParts(kind, fields)) }

  method PythonBuildMessage(kind: string, fields: seq<Field>) returns (out: string)
    ensures out == PythonBuild(kind, fields)
  {
    var parts := [kind];
    for i := 0 to |fields|
      invariant parts == PythonParts(kind, fields)[..i + 1]
    {
      parts := parts + [fields[i].0 + "=" + PythonEscape(fields[i].1)];
    }
    assert parts == PythonParts(kind, fields);
    out := Join(parts);
  }

  lemma {:induction false} JoinAppend(parts: seq<string>, t: string)
    requires parts != []
    ensures Join(parts + [t]) == Join(parts) + "\t" + t
  {
    if |parts| == 1 {
      assert (parts + [t])[1..] == [t];
    } else {
      assert (parts + [t])[1..] == parts[1..] + [t];
      JoinAppend(parts[1..], t);
    }
  }

  // Both builders write the same text.
  lemma {:induction false} PythonBuildIsBuild(kind: string, fields: seq<Field>)
    ensures PythonBuild(kind, fields) == Build(kind, fields)
  {
    if fields == [] {
      assert PythonParts(kind, fields) == [kind];
    } else {
      var n := |fields| - 1;
      PythonBuildIsBuild(kind, fields[..n]);
      PythonEscapeIsEscape(fields[n].1);
      assert PythonParts(kind, fields) == PythonParts(kind, fields[..n]) + [FieldToken(fields[n])];
      JoinAppend(PythonParts(kind, fields[..n]), FieldToken(fields[n]));
    }
  }

  datatype Writer = CppWriter | PythonWriter

  function Written(w: Writer, kind: string, fields: seq<Field>): string {
    if w.CppWriter? then Build(kind, fields) else PythonBuild(kind, fields)
  }

  // Position of the first c, or |s|.
  function IndexOf(s: string, c: char): (i: nat)
    ensures i <= |s| && c !in s[..i] && (i < |s| ==> s[i] == c)
  {
    if s == "" || s[0] == c then 0
    else
      var i := 1 + IndexOf(s[1..], c);
      assert s[..i] == [s[0]] + s[1..][..i - 1];
      i
  }

  // str.split("\t")
  function Tokens(s: string): (ts: seq<string>)
    ensures ts != []
    decreases |s|
  {
    var t := IndexOf(s, '\t');
    if t == |s| then [s] else [s[..t]] + Tokens(s[t + 1..])
  }

  // What happens to a key that is already there: std::map::emplace keeps the first value,
  // a Python dict assignment keeps the last.
  datatype Rule = FirstWins | LastWins

  function Insert(m: map<string, string>, key: string, value: string, rule: Rule): map<string, string> {
    if rule.FirstWins? && key in m then m else m[key := value]
  }

  function AddToken(m: map<string, string>, token: string, rule: Rule): map<string, string> {
    var eq := IndexOf(token, '=');
    if eq == |token| then m else Insert(m, token[..eq], Unescape(token[eq + 1..], false), rule)
  }

  function AddTokens(m: map<string, string>, tokens: seq<string>, rule: Rule): map<string, string> {
    if tokens == [] then m
    else AddToken(AddTokens(m, tokens[..|tokens| - 1], rule), tokens[|tokens| - 1], rule)
  }

  function Parse(raw: string, rule: Rule): Message {
    var ts := Tokens(raw);
    Message(ts[0], AddTokens(map[], ts[1..], rule))
  }

  // raw.find(c, start)
  method Find(raw: string, c: char, start: nat) returns (pos: nat)
    requires start <= |raw|
    ensures start <= pos <= |raw|
    ensures pos - start == IndexOf(raw[start..], c)
  {
    pos := start;
    while pos < |raw| && raw[pos] != c
      invariant start <= pos <= |raw|
      invariant pos - start + IndexOf(raw[pos..], c) == IndexOf(raw[start..], c)
    {
      assert raw[pos..][1..] == raw[pos + 1..];
      pos := pos + 1;
    }
  }

  // One token of the C++ parser after the type.
  method EmplaceToken(fields: map<string, string>, token: string) returns (fields': map<string, string>)
    ensures fields' == AddToken(fields, token, FirstWins)
  {
    fields' := fields;
    assert token[0..] == token;
    var eq := Find(token, '=', 0);
    if eq != |token| {
      var value := UnescapeField(token[eq + 1..]);
      if token[..eq] !in fields {
        fields' := fields[token[..eq] := value];
      }
    }
  }

  // Taking one token off the front of raw[start..].
  lemma NextToken(raw: string, start: nat, tab: nat, done: seq<string>)
    requires start <= tab <= |raw| && tab - start == IndexOf(raw[start..], '\t')
    ensures tab == |raw| ==> done + Tokens(raw[start..]) == done + [raw[start..tab]]
    ensures tab < |raw| ==> done + Tokens(raw[start..]) == done + [raw[start..tab]] + Tokens(raw[tab + 1..])
  {
    assert raw[start..tab] == raw[start..][..tab - start];
    if tab < |raw| {
      assert raw[start..][tab - start + 1..] == raw[tab + 1..];
    } else {
      assert raw[start..tab] == raw[start..];
    }
  }

  lemma AddTokensAppend(done: seq<string>, token: string, rule: Rule)
    requires done != []
    ensures AddTokens(map[], (done + [token])[1..], rule) == AddToken(AddTokens(map[], done[1..], rule), token, rule)
  {
    assert (done + [token])[1..] == done[1..] + [token];
    assert (done[1..] + [token])[..|done| - 1] == done[1..];
  }

  // What the C++ parser has after some tokens.
  ghost function ParsedSoFar(done: seq<string>): Message {
    if done == [] then Message("", map[]) else Message(done[0], AddTokens(map[], done[1..], FirstWins))
  }

  // The first token is the type, any other a field.
  method TakeToken(message: Message, token: string, first: bool, ghost done: seq<string>) returns (message': Message)
    requires message == ParsedSoFar(done) && first == (done == [])
    ensures message' == ParsedSoFar(done + [token])
  {
    if first {
      message' := message.(kind := token);
      assert (done + [token])[1..] == [];
    } else {
      AddTokensAppend(done, token, FirstWins);
      var fields := EmplaceToken(message.fields, token);
      message' := message.(fields := fields);
    }
  }

  // The C++ parser: walks the tabs with a `start` index.
  method ParseMessage(raw: string) returns (message: Message)
    ensures message == Parse(raw, FirstWins)
  {
    var start := 0;
    var first := true;
    message := Message("", map[]);
    ghost var done: seq<string> := [];
    assert raw[0..] == raw;
    while true
      invariant 0 <= start <= |raw|
      invariant done + Tokens(raw[start..]) == Tokens(raw)
      invariant first == (done == []) && message == ParsedSoFar(done)
      decreases |raw| - start
    {
      var tab := Find(raw, '\t', start);
      var token := raw[start..tab];
      NextToken(raw, start, tab, done);
      message := TakeToken(message, token, first, done);
      first := false;
      done := done + [token];
      if tab == |raw| {
        break;
      }
      start := tab + 1;
    }
  }

  // The Python parser: splits first, then assigns.
  method PythonParseMessage(raw: string) returns (message: Message)
    ensures message == Parse(raw, LastWins)
  {
    var parts := Tokens(raw);
    var fields: map<string, string> := map[];
    for i := 1 to |parts|
      invariant fields == AddTokens(map[], parts[1..i], LastWins)
    {
      var token := parts[i];
      assert parts[1..i + 1][..i - 1] == parts[1..i];
      var eq := IndexOf(token, '=');
      if eq == |token| {
        continue;
      }
      var value := UnescapeField(token[eq + 1..]);
      fields := fields[token[..eq] := value];
    }
    assert parts[1..] == parts[1..|parts|];
    message := Message(parts[0], fields);
  }

  // ---------------------------------------------------------------------
  // The round trip
  // ---------------------------------------------------------------------

  ghost predicate WellFormedKeys(fields: seq<Field>) {
    forall i :: 0 <= i < |fields| ==> '\t' !in fields[i].0 && '=' !in fields[i].0
  }

  lemma {:induction false} IndexOfAbsent(a: string, c: char)
    requires c !in a
    ensures IndexOf(a, c) == |a|
  {}

  lemma {:induction false} IndexOfFirst(a: string, c: char, b: string)
    requires c !in a
    ensures IndexOf(a + [c] + b, c) == |a|
  {
    if a == "" {
      assert a + [c] + b == [c] + b;
    } else {
      assert (a + [c] + b)[1..] == a[1..] + [c] + b;
      IndexOfFirst(a[1..], c, b);
    }
  }

  lemma {:induction false} TokensCons(a: string, b: string)
    requires '\t' !in a
    ensures Tokens(a) == [a]
    ensures Tokens(a + "\t" + b) == [a] + Tokens(b)
  {
    IndexOfAbsent(a, '\t');
    IndexOfFirst(a, '\t', b);
    assert (a + "\t" + b)[..|a|] == a && (a + "\t" + b)[|a| + 1..] == b;
  }

  lemma TokensNoTab(s: string)
    requires '\t' !in s
    ensures Tokens(s) == [s]
  {
    IndexOfAbsent(s, '\t');
  }

  lemma TokensAppendStep(first: string, rest: string, t: string)
    requires '\t' !in first && Tokens(rest + "\t" + t) == Tokens(rest) + [t]
    ensures Tokens(first + "\t" + (rest + "\t" + t)) == Tokens(first + "\t" + rest) + [t]
  {
    TokensCons(first, rest + "\t" + t);
    TokensCons(first, rest);
    assert [first] + (Tokens(rest) + [t]) == ([first] + Tokens(rest)) + [t];
  }

  lemma TokensPair(s: string, t: string)
    requires '\t' !in s && '\t' !in t
    ensures Tokens(s + "\t" + t) == Tokens(s) + [t]
  {
    TokensNoTab(s);
    TokensNoTab(t);
    TokensCons(s, t);
  }

  lemma {:induction false} TokensAppend(s: string, t: string)
    requires '\t' !in t
    ensures Tokens(s + "\t" + t) == Tokens(s) + [t]
    decreases |s|
  {
    var i := IndexOf(s, '\t');
    if i == |s| {
      assert s[..i] == s;
      TokensPair(s, t);
    } else {
      TokensAppend(s[i + 1..], t);
      TokensAppendStep(s[..i], s[i + 1..], t);
      SplitAtTab(s, i, t);
    }
  }

  lemma SplitAtTab(s: string, i: nat, t: string)
    requires i < |s| && s[i] == '\t'
    ensures s == s[..i] + "\t" + s[i + 1..] && s + "\t" + t == s[..i] + "\t" + (s[i + 1..] + "\t" + t)
  {
    assert s == s[..i] + "\t" + s[i + 1..];
  }

  function FieldTokens(fields: seq<Field>): seq<string> {
    if fields == [] then [] else FieldTokens(fields[..|fields| - 1]) + [FieldToken(fields[|fields| - 1])]
  }

  lemma {:induction false} BuiltTokens(kind: string, fields: seq<Field>)
    requires '\t' !in kind && WellFormedKeys(fields)
    ensures Tokens(Build(kind, fields)) == [kind] + FieldTokens(fields)
  {
    if fields == [] {
      TokensCons(kind, "");
    } else {
      var n := |fields| - 1;
      var f := fields[n];
      BuiltTokens(kind, fields[..n]);
      EscapedIsClean(f.1);
      TokensAppend(Build(kind, fields[..n]), FieldToken(f));
    }
  }

  // The fields as a map, duplicates resolved by the parser's rule.
  function Collect(fields: seq<Field>, rule: Rule): map<string, string> {
    if fields == [] then map[]
    else
      var f := fields[|fields| - 1];
      Insert(Collect(fields[..|fields| - 1], rule), f.0, f.1, rule)
  }

  lemma AddFieldToken(m: map<string, string>, f: Field, rule: Rule)
    requires '=' !in f.0
    ensures AddToken(m, FieldToken(f), rule) == Insert(m, f.0, f.1, rule)
  {
    IndexOfFirst(f.0, '=', Escape(f.1));
    var token := FieldToken(f);
    assert token[..|f.0|] == f.0 && token[|f.0| + 1..] == Escape(f.1);
    UnescapeEscape(f.1);
  }

  lemma {:induction false} AddFieldTokens(fields: seq<Field>, rule: Rule)
    requires WellFormedKeys(fields)
    ensures AddTokens(map[], FieldTokens(fields), rule) == Collect(fields, rule)
  {
    if fields != [] {
      var n := |fields| - 1;
      AddFieldTokens(fields[..n], rule);
      var ts := FieldTokens(fields);
      assert ts[..|ts| - 1] == FieldTokens(fields[..n]);
      AddFieldToken(Collect(fields[..n], rule), fields[n], rule);
    }
  }

  // Parsing a built message returns its type and its fields, whatever the values.
  lemma ParseBuild(kind: string, fields: seq<Field>, rule: Rule)
    requires '\t' !in kind && WellFormedKeys(fields)
    ensures Parse(Build(kind, fields), rule) == Message(kind, Collect(fields, rule))
  {
    BuiltTokens(kind, fields);
    AddFieldTokens(fields, rule);
    assert ([kind] + FieldTokens(fields))[1..] == FieldTokens(fields);
  }

  ghost predicate DistinctKeys(fields: seq<Field>) {
    forall i, j :: 0 <= i < j < |fields| ==> fields[i].0 != fields[j].0
  }

  function Keys(fields: seq<Field>): set<string> {
    set f | f in fields :: f.0
  }

  lemma {:induction false} CollectKeys(fields: seq<Field>, rule: Rule)
    ensures Collect(fields, rule).Keys == Keys(fields)
  {
    if fields != [] {
      var n := |fields| - 1;
      CollectKeys(fields[..n], rule);
      assert fields == fields[..n] + [fields[n]];
      assert Keys(fields) == Keys(fields[..n]) + {fields[n].0};
    }
  }

  // With distinct keys the two rules agree and the map holds exactly the given pairs.
  lemma {:induction false} CollectDistinct(fields: seq<Field>, rule: Rule)
    requires DistinctKeys(fields)
    ensures Collect(fields, rule).Keys == Keys(fields)
    ensures forall i :: 0 <= i < |fields| ==>
              fields[i].0 in Collect(fields, rule) && Collect(fields, rule)[fields[i].0] == fields[i].1
  {
    CollectKeys(fields, rule);
    if fields != [] {
      var n := |fields| - 1;
      CollectDistinct(fields[..n], rule);
      assert forall i :: 0 <= i < n ==> fields[..n][i] == fields[i];
      assert fields[n].0 !in Keys(fields[..n]);
    }
  }

  // Either reader gets from either writer the type and exactly the fields that were written.
  lemma CrossLanguage(w: Writer, kind: string, fields: seq<Field>, rule: Rule)
    requires '\t' !in kind && WellFormedKeys(fields) && DistinctKeys(fields)
    ensures Parse(Written(w, kind, fields), rule).kind == kind
    ensures Parse(Written(w, kind, fields), rule).fields.Keys == Keys(fields)
    ensures forall i :: 0 <= i < |fields| ==>
              var m := Parse(Written(w, kind, fields), rule).fields;
              fields[i].0 in m && m[fields[i].0] == fields[i].1
  {
    PythonBuildIsBuild(kind, fields);
    ParseBuild(kind, fields, rule);
    CollectDistinct(fields, rule);
  }

  // The place of a key's first and of its last occurrence.
  ghost predicate FirstAt(fields: seq<Field>, i: nat) {
    i < |fields| && forall j :: 0 <= j < i ==> fields[j].0 != fields[i].0
  }

  ghost predicate LastAt(fields: seq<Field>, i: nat) {
    i < |fields| && forall j :: i < j < |fields| ==> fields[j].0 != fields[i].0
  }

  // emplace keeps a key's first value and assignment its last.
  lemma {:induction false} CollectPicks(fields: seq<Field>, i: nat)
    ensures FirstAt(fields, i) ==>
              fields[i].0 in Collect(fields, FirstWins) && Collect(fields, FirstWins)[fields[i].0] == fields[i].1
    ensures LastAt(fields, i) ==>
              fields[i].0 in Collect(fields, LastWins) && Collect(fields, LastWins)[fields[i].0] == fields[i].1
  {
    if i < |fields| {
      var n := |fields| - 1;
      CollectPicks(fields[..n], i);
      CollectKeys(fields[..n], FirstWins);
      if i == n && FirstAt(fields, i) {
        assert fields[n].0 !in Keys(fields[..n]);
      }
    }
  }

  lemma FirstOccurrence(fields: seq<Field>, k: string) returns (i: nat)
    requires k in Keys(fields)
    ensures FirstAt(fields, i) && fields[i].0 == k
  {
    i := 0;
    while fields[i].0 != k
      invariant i < |fields| && forall j :: 0 <= j < i ==> fields[j].0 != k
      decreases |fields| - i
    {
      var at :| 0 <= at < |fields| && fields[at].0 == k;
      i := i + 1;
    }
  }

  lemma LastOccurrence(fields: seq<Field>, k: string) returns (i: nat)
    requires k in Keys(fields)
    ensures LastAt(fields, i) && fields[i].0 == k
  {
    i := |fields| - 1;
    while fields[i].0 != k
      invariant i < |fields| && forall j :: i < j < |fields| ==> fields[j].0 != k
      decreases i
    {
      var at :| 0 <= at < |fields| && fields[at].0 == k;
      i := i - 1;
    }
  }

  ghost predicate FirstIsLast(fields: seq<Field>) {
    forall i: nat, j: nat :: FirstAt(fields, i) && LastAt(fields, j) && fields[i].0 == fields[j].0 ==>
      fields[i].1 == fields[j].1
  }

  lemma CollectsAgree(fields: seq<Field>)
    ensures Collect(fields, FirstWins) == Collect(fields, LastWins) <==> FirstIsLast(fields)
  {
    var a, b := Collect(fields, FirstWins), Collect(fields, LastWins);
    CollectKeys(fields, FirstWins);
    CollectKeys(fields, LastWins);
    if a == b {
      forall i: nat, j: nat | FirstAt(fields, i) && LastAt(fields, j) && fields[i].0 == fields[j].0
        ensures fields[i].1 == fields[j].1
      {
        CollectPicks(fields, i);
        CollectPicks(fields, j);
      }
    } else {
      var k :| k in Keys(fields) && a[k] != b[k];
      var i := FirstOccurrence(fields, k);
      var j := LastOccurrence(fields, k);
      CollectPicks(fields, i);
      CollectPicks(fields, j);
    }
  }

  // Whoever wrote it, the two readers agree on a message with repeated keys exactly when each key's
  // first and last values are the same.
  lemma ReadersAgree(w: Writer, kind: string, fields: seq<Field>)
    requires '\t' !in kind && WellFormedKeys(fields)
    ensures Parse(Written(w, kind, fields), FirstWins) == Parse(Written(w, kind, fields), LastWins) <==>
              FirstIsLast(fields)
  {
    PythonBuildIsBuild(kind, fields);
    ParseBuild(kind, fields, FirstWins);
    ParseBuild(kind, fields, LastWins);
    CollectsAgree(fields);
  }

  // ---------------------------------------------------------------------
  // Parsing any text
  // ---------------------------------------------------------------------

  // The token is a field named k: its first '=' follows k.
  ghost predicate IsField(token: string, k: string) {
    |k| < |token| && token[..|k|] == k && '=' !in k && token[|k|] == '='
  }

  function FieldValue(token: string, k: string): string
    requires |k| < |token|
  {
    Unescape(token[|k| + 1..], false)
  }

  ghost predicate FirstField(ts: seq<string>, k: string, i: nat) {
    i < |ts| && IsField(ts[i], k) && forall j :: 0 <= j < i ==> !IsField(ts[j], k)
  }

  ghost predicate LastField(ts: seq<string>, k: string, i: nat) {
    i < |ts| && IsField(ts[i], k) && forall j :: i < j < |ts| ==> !IsField(ts[j], k)
  }

  lemma FieldSplits(token: string, k: string)
    ensures IsField(token, k) <==> IndexOf(token, '=') == |k| && |k| < |token| && token[..|k|] == k
  {}

  lemma AddTokenPicks(m: map<string, string>, token: string, k: string, rule: Rule)
    ensures var m' := AddToken(m, token, rule);
            && (k in m' <==> k in m || IsField(token, k))
            && (k in m && (rule.FirstWins? || !IsField(token, k)) ==> m'[k] == m[k])
            && (IsField(token, k) && (rule.LastWins? || k !in m) ==> m'[k] == FieldValue(token, k))
  {
    FieldSplits(token, k);
  }

  // The map has k if and only if some token is a field named k, and then with the value the rule says.
  ghost predicate Picked(m: map<string, string>, ts: seq<string>, k: string, rule: Rule) {
    && (k in m <==> exists i :: 0 <= i < |ts| && IsField(ts[i], k))
    && forall i: nat :: (if rule.FirstWins? then FirstField(ts, k, i) else LastField(ts, k, i)) ==>
         k in m && m[k] == FieldValue(ts[i], k)
  }

  lemma PickedStep(m: map<string, string>, ts: seq<string>, token: string, k: string, rule: Rule)
    requires Picked(m, ts, k, rule)
    ensures Picked(AddToken(m, token, rule), ts + [token], k, rule)
  {
    AddTokenPicks(m, token, k, rule);
    var all := ts + [token];
    assert forall i :: 0 <= i < |ts| ==> all[i] == ts[i];
    assert all[|ts|] == token;
    forall i: nat | if rule.FirstWins? then FirstField(all, k, i) else LastField(all, k, i)
      ensures AddToken(m, token, rule)[k] == FieldValue(all[i], k)
    {
      if i < |ts| {
        assert if rule.FirstWins? then FirstField(ts, k, i) else LastField(ts, k, i);
      }
    }
  }

  lemma {:induction false} AddTokensPicks(ts: seq<string>, k: string, rule: Rule)
    ensures Picked(AddTokens(map[], ts, rule), ts, k, rule)
  {
    if ts != [] {
      var n := |ts| - 1;
      AddTokensPicks(ts[..n], k, rule);
      PickedStep(AddTokens(map[], ts[..n], rule), ts[..n], ts[n], k, rule);
      assert ts[..n] + [ts[n]] == ts;
    }
  }

  // The tokens are the text cut at its tabs.
  lemma {:induction false} TokensCut(s: string)
    ensures Join(Tokens(s)) == s && forall t :: t in Tokens(s) ==> '\t' !in t
    decreases |s|
  {
    var at := IndexOf(s, '\t');
    if at < |s| {
      TokensCut(s[at + 1..]);
      assert Tokens(s)[1..] == Tokens(s[at + 1..]);
      assert s[..at] + "\t" + s[at + 1..] == s;
    }
  }

  // What either reader makes of any text at all: the type is what precedes the first tab; a key is there
  // if and only if some later token has it before its first '='; the C++ reader takes the first such
  // token's value, the Python reader the last one's; tokens without '=' change nothing.
  lemma ParseAnyText(raw: string, k: string, rule: Rule)
    ensures var m, ts := Parse(raw, rule), Tokens(raw);
            && Join(ts) == raw && (forall t :: t in ts ==> '\t' !in t)
            && m.kind == ts[0] && Picked(m.fields, ts[1..], k, rule)
  {
    TokensCut(raw);
    AddTokensPicks(Tokens(raw)[1..], k, rule);
  }

  // What unescaping makes of text no writer produces: characters without a backslash stay, an unknown
  // escape stands for its character, and a backslash at the very end is kept.
  lemma {:induction false} UnescapePlain(value: string, rest: string)
    requires '\\' !in value
    ensures Unescape(value + rest, false) == value + Unescape(rest, false)
  {
    if value == "" {
      assert value + rest == rest;
    } else {
      assert (value + rest)[1..] == value[1..] + rest;
      UnescapePlain(value[1..], rest);
    }
  }

  lemma UnescapeUnknown(c: char, rest: string)
    requires c !in "tnre"
    ensures Unescape("\\" + [c] + rest, false) == [c] + Unescape(rest, false) && Unescape("\\", false) == "\\"
  {
    assert ("\\" + [c] + rest)[1..] == [c] + rest && ([c] + rest)[1..] == rest;
    assert 't' in "tnre" && 'n' in "tnre" && 'r' in "tnre" && 'e' in "tnre";
  }
}
