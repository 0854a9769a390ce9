/** The small `.env` reader and writer: its line pattern, its quoting, and the update of one key. */
module EnvFile {
  import opened Results
  import opened Text

  // ---------------------------------------------------------------- an insertion-ordered map

  /** A JavaScript Map: the order is the one in which keys were first set. */
  type Entries = seq<(string, string)>

  function Set(e: Entries, key: string, value: string): Entries {
    if e == [] then [(key, value)]
    else if e[0].0 == key then [(key, value)] + e[1..]
    else [e[0]] + Set(e[1..], key, value)
  }

  function Get(e: Entries, key: string): Option<string> {
    if e == [] then None
    else if e[0].0 == key then Some(e[0].1)
    else Get(e[1..], key)
  }

  lemma {:induction false} GetOfSet(e: Entries, key: string, value: string, other: string)
    ensures Get(Set(e, key, value), other) == if other == key then Some(value) else Get(e, other)
  {
    if e != [] && e[0].0 != key {
      GetOfSet(e[1..], key, value, other);
    }
  }

  lemma {:induction false} SetSame(e: Entries, key: string, value: string)
    requires Get(e, key) == Some(value)
    ensures Set(e, key, value) == e
  {
    if e[0].0 != key {
      SetSame(e[1..], key, value);
    }
  }

  lemma {:induction false} SetTwice(e: Entries, key: string, first: string, second: string)
    ensures Set(Set(e, key, first), key, second) == Set(e, key, second)
  {
    if e != [] && e[0].0 != key {
      SetTwice(e[1..], key, first, second);
    }
  }

  /** A key already present keeps its place, so setting another key commutes with setting it again. */
  lemma {:induction false} SetCommutes(e: Entries, key: string, value: string, other: string, otherValue: string)
    requires Get(e, key).Some? && key != other
    ensures Set(Set(e, other, otherValue), key, value) == Set(Set(e, key, value), other, otherValue)
  {
    if e[0].0 != key && e[0].0 != other {
      SetCommutes(e[1..], key, value, other, otherValue);
    }
  }

  // ---------------------------------------------------------------- the line pattern

  predicate NameStart(c: char) {
    'A' <= c <= 'Z' || 'a' <= c <= 'z' || c == '_'
  }

  predicate NameChar(c: char) {
    NameStart(c) || '0' <= c <= '9'
  }

  predicate NameChars(s: string) {
    forall i | 0 <= i < |s| :: NameChar(s[i])
  }

  predicate WellFormedKey(key: string) {
    key != "" && NameStart(key[0]) && NameChars(key)
  }

  function NameRun(s: string): (n: nat)
    ensures n <= |s|
  {
    if s != "" && NameChar(s[0]) then 1 + NameRun(s[1..]) else 0
  }

  /** What `.*` takes: everything before the first line terminator. */
  function TakeLine(s: string): (line: string)
    ensures |line| <= |s| && line == s[..|line|] && OneLine(line)
    ensures |line| < |s| ==> IsLineTerminator(s[|line|])
  {
    if s == "" || IsLineTerminator(s[0]) then "" else [s[0]] + TakeLine(s[1..])
  }

  /** `\s*(.*)\s*$`. */
  function MatchValue(s: string): Option<string> {
    var body := SkipSpace(s);
    var raw := TakeLine(body);
    if AllSpace(body[|raw|..]) then Some(raw) else None
  }

  /** `([A-Za-z_][A-Za-z0-9_]*)\s*=` and the value. */
  function MatchAssignment(s: string): Option<(string, string)> {
    if s == "" || !NameStart(s[0]) then None
    else
      var n := NameRun(s);
      var rest := SkipSpace(s[n..]);
      if rest == "" || rest[0] != '=' then None
      else match MatchValue(rest[1..])
        case None => None
        case Some(raw) => Some((s[..n], raw))
  }

  const EXPORT: string := "export"

  predicate StartsWithExport(s: string) {
    |s| > 6 && s[..6] == EXPORT && IsSpace(s[6])
  }

  /** `LINE.exec`: the optional `export` is taken when the rest still matches after it, skipped otherwise. */
  function MatchLine(line: string): Option<(string, string)> {
    var s := SkipSpace(line);
    if StartsWithExport(s) && MatchAssignment(SkipSpace(s[6..])).Some? then MatchAssignment(SkipSpace(s[6..]))
    else MatchAssignment(s)
  }

  /** One way of reading a line as the pattern's pieces. */
  datatype Reading = Reading(indent: string, exported: string, key: string, beforeEquals: string, afterEquals: string, raw: string, tail: string)
  {
    function Value(): string {
      afterEquals + raw + tail
    }

    function Assignment(): string {
      key + (beforeEquals + ("=" + Value()))
    }

    function Line(): string {
      indent + (exported + Assignment())
    }
  }

  predicate ReadsAs(line: string, r: Reading) {
    && line == r.Line()
    && AllSpace(r.indent) && AllSpace(r.beforeEquals) && AllSpace(r.afterEquals) && AllSpace(r.tail)
    && (r.exported == "" || (StartsWithExport(r.exported) && AllSpace(r.exported[6..])))
    && WellFormedKey(r.key) && OneLine(r.raw)
  }

  lemma {:induction false} NameRunStops(key: string, rest: string)
    requires NameChars(key) && (rest == "" || !NameChar(rest[0]))
    ensures NameRun(key + rest) == |key|
  {
    if key == "" {
      assert key + rest == rest;
    } else {
      assert (key + rest)[1..] == key[1..] + rest;
      NameRunStops(key[1..], rest);
    }
  }

  lemma {:induction false} NameRunTakes(s: string)
    ensures NameChars(s[..NameRun(s)])
  {
    if s != "" && NameChar(s[0]) {
      NameRunTakes(s[1..]);
      assert s[..NameRun(s)] == [s[0]] + s[1..][..NameRun(s[1..])];
    }
  }

  lemma {:induction false} TrimKeepsOneLine(s: string)
    requires OneLine(s)
    ensures OneLine(Trim(s))
  {
    var front, back := TrimSplits(s);
    forall i | 0 <= i < |Trim(s)| ensures !IsLineTerminator(Trim(s)[i]) {
      assert Trim(s)[i] == s[|front| + i];
    }
  }

  lemma {:induction false} TrimSkipsSpace(body: string)
    ensures Trim(body) == Trim(SkipSpace(body))
  {
    var pad := SkipSpaceSplits(body);
    assert body == pad + SkipSpace(body) + "";
    TrimPadded(pad, SkipSpace(body), "");
  }

  /** A text that starts with no space, and goes on past its first line, trims to more than one line. */
  lemma {:induction false} SecondLineShows(b: string, raw: string, j: nat)
    requires raw <= b && b != "" && !IsSpace(b[0]) && |raw| + j < |b| && !IsSpace(b[|raw| + j])
    requires IsLineTerminator(b[|raw|])
    ensures !OneLine(Trim(b))
  {
    var front, back := TrimSplits(b);
    assert front == "";
    assert |raw| + j < |Trim(b)|;
    assert Trim(b)[|raw|] == b[|raw|];
  }

  /** A value matches exactly when its trimmed text is one line, and the text taken trims to the same. */
  lemma {:induction false} ValueMatches(body: string)
    ensures MatchValue(body).Some? <==> OneLine(Trim(body))
    ensures MatchValue(body).Some? ==> Trim(MatchValue(body).value) == Trim(body)
  {
    TrimSkipsSpace(body);
    var pad := SkipSpaceSplits(body);
    var b := SkipSpace(body);
    var raw := TakeLine(b);
    var tail := b[|raw|..];
    if AllSpace(tail) {
      assert b == "" + raw + tail;
      TrimPadded("", raw, tail);
      TrimKeepsOneLine(raw);
    } else {
      var j :| 0 <= j < |tail| && !IsSpace(tail[j]);
      assert b[|raw| + j] == tail[j] && b[|raw|] == tail[0];
      SecondLineShows(b, raw, j);
    }
  }

  lemma {:induction false} AssignmentMatches(key: string, pad: string, body: string)
    requires WellFormedKey(key) && AllSpace(pad)
    ensures MatchAssignment(key + (pad + ("=" + body))) ==
            (match MatchValue(body) case None => None case Some(raw) => Some((key, raw)))
  {
    var rest := pad + ("=" + body);
    var s := key + rest;
    NameRunStops(key, rest);
    assert s[..|key|] == key && s[|key|..] == rest;
    SkipSpacePadded(pad, "=" + body);
    assert ("=" + body)[1..] == body;
  }

  /** `export = x` sets the key `export`: after the word, nothing is left to be a name. */
  lemma {:induction false} ExportAsKey(key: string, pad: string, body: string)
    requires WellFormedKey(key) && AllSpace(pad)
    requires StartsWithExport(key + (pad + ("=" + body)))
    ensures MatchAssignment(SkipSpace((key + (pad + ("=" + body)))[6..])) == None
  {
    var rest := pad + ("=" + body);
    var s := key + rest;
    assert !NameChar(rest[0]) && rest[0] == s[|key|];
    assert |key| == 6;
    assert s[6..] == rest;
    SkipSpacePadded(pad, "=" + body);
  }

  lemma {:induction false} ReadingAssigns(line: string, r: Reading)
    requires ReadsAs(line, r)
    ensures MatchAssignment(r.Assignment()).Some? && MatchAssignment(r.Assignment()).value.0 == r.key
    ensures Trim(MatchAssignment(r.Assignment()).value.1) == Trim(r.raw)
  {
    assert OneLine(Trim(r.Value())) && Trim(r.Value()) == Trim(r.raw) by {
      TrimPadded(r.afterEquals, r.raw, r.tail);
      TrimKeepsOneLine(r.raw);
    }
    ValueMatches(r.Value());
    AssignmentMatches(r.key, r.beforeEquals, r.Value());
  }

  lemma {:induction false} PlainLineReads(r: Reading)
    requires ReadsAs(r.Line(), r) && r.exported == ""
    ensures SkipSpace(r.Line()) == r.Assignment()
    ensures StartsWithExport(r.Assignment()) ==> MatchAssignment(SkipSpace(r.Assignment()[6..])) == None
  {
    var s := r.Assignment();
    assert r.exported + s == s;
    SkipSpacePadded(r.indent, s);
    if StartsWithExport(s) {
      ExportAsKey(r.key, r.beforeEquals, r.Value());
    }
  }

  lemma {:induction false} ExportedLineReads(r: Reading)
    requires ReadsAs(r.Line(), r) && r.exported != ""
    ensures StartsWithExport(SkipSpace(r.Line()))
    ensures SkipSpace(SkipSpace(r.Line())[6..]) == r.Assignment()
  {
    var s := r.exported + r.Assignment();
    SkipSpacePadded(r.indent, s);
    assert s[..6] == EXPORT && s[6] == r.exported[6];
    assert s[6..] == r.exported[6..] + r.Assignment();
    SkipSpacePadded(r.exported[6..], r.Assignment());
  }

  /** Whatever way the pattern reads a line, the matcher finds the same key and the same trimmed value. */
  lemma {:induction false} PatternIsUnambiguous(line: string, r: Reading)
    requires ReadsAs(line, r)
    ensures MatchLine(line).Some?
    ensures MatchLine(line).value.0 == r.key && Trim(MatchLine(line).value.1) == Trim(r.raw)
  {
    ReadingAssigns(line, r);
    if r.exported == "" {
      PlainLineReads(r);
    } else {
      ExportedLineReads(r);
    }
  }

  /** A value that matches is padding, the text taken, and padding. */
  lemma {:induction false} ValueReads(body: string) returns (after: string, raw: string, tail: string)
    requires MatchValue(body).Some?
    ensures MatchValue(body).value == raw && OneLine(raw)
    ensures AllSpace(after) && AllSpace(tail) && body == after + raw + tail
  {
    after := SkipSpaceSplits(body);
    var b := SkipSpace(body);
    raw := TakeLine(b);
    tail := b[|raw|..];
    assert b == raw + tail;
  }

  lemma {:induction false} PlainReading(r: Reading)
    requires r.indent == "" && r.exported == ""
    ensures r.Line() == r.Assignment()
  {
    assert "" + ("" + r.Assignment()) == r.Assignment();
  }

  lemma {:induction false} AssignmentPieces(s: string, n: nat, pad: string, rest: string, body: string)
    requires n <= |s| && s[n..] == pad + rest && rest != "" && rest[0] == '=' && rest[1..] == body
    ensures s == s[..n] + (pad + ("=" + body))
  {
    assert rest == "=" + body;
    assert s == s[..n] + s[n..];
  }

  lemma {:induction false} AssignmentReads(s: string) returns (r: Reading)
    requires MatchAssignment(s).Some?
    ensures ReadsAs(s, r) && r.indent == "" && r.exported == ""
    ensures MatchAssignment(s).value == (r.key, r.raw)
  {
    var n := NameRun(s);
    NameRunTakes(s);
    var pad := SkipSpaceSplits(s[n..]);
    var rest := SkipSpace(s[n..]);
    var after, raw, tail := ValueReads(rest[1..]);
    AssignmentPieces(s, n, pad, rest, after + raw + tail);
    r := Reading("", "", s[..n], pad, after, raw, tail);
    PlainReading(r);
  }

  lemma {:induction false} ExportedReads(s: string) returns (r: Reading)
    requires StartsWithExport(s) && MatchAssignment(SkipSpace(s[6..])).Some?
    ensures ReadsAs(s, r) && r.indent == ""
    ensures MatchAssignment(SkipSpace(s[6..])).value == (r.key, r.raw)
  {
    var gap := SkipSpaceSplits(s[6..]);
    var a := AssignmentReads(SkipSpace(s[6..]));
    PlainReading(a);
    assert gap != "" && gap[0] == s[6];
    var exported := EXPORT + gap;
    assert exported[6..] == gap && exported[..6] == EXPORT;
    r := a.(exported := exported);
    assert r.Assignment() == a.Assignment();
    assert s == EXPORT + s[6..];
    assert s[6..] == gap + a.Assignment();
    ConcatAssoc(EXPORT, gap, a.Assignment());
    assert s == exported + a.Assignment();
    assert "" + s == s;
  }

  lemma {:induction false} IndentedReads(indent: string, s: string, a: Reading) returns (r: Reading)
    requires AllSpace(indent) && ReadsAs(s, a) && a.indent == ""
    ensures ReadsAs(indent + s, r) && r.key == a.key && r.raw == a.raw
  {
    r := a.(indent := indent);
    assert r.Assignment() == a.Assignment();
    assert s == "" + (a.exported + a.Assignment()) == a.exported + a.Assignment();
  }

  lemma {:induction false} MatcherReads(line: string) returns (r: Reading)
    requires MatchLine(line).Some?
    ensures ReadsAs(line, r) && MatchLine(line).value == (r.key, r.raw)
  {
    var indent := SkipSpaceSplits(line);
    var s := SkipSpace(line);
    var a;
    if StartsWithExport(s) && MatchAssignment(SkipSpace(s[6..])).Some? {
      a := ExportedReads(s);
    } else {
      a := AssignmentReads(s);
    }
    r := IndentedReads(indent, s, a);
  }

  /** The matcher accepts a line exactly when the pattern can read it. */
  lemma {:induction false} MatcherAgreesWithPattern(line: string)
    ensures MatchLine(line).Some? <==> exists r: Reading :: ReadsAs(line, r)
  {
    if MatchLine(line).Some? {
      var r := MatcherReads(line);
    }
    forall r: Reading | ReadsAs(line, r) ensures MatchLine(line).Some? {
      PatternIsUnambiguous(line, r);
    }
  }

  // ---------------------------------------------------------------- quoting

  function Escaped(value: string): string {
    ReplaceAll(ReplaceAll(value, "\\", "\\\\"), "\"", "\\\"")
  }

  function Unescaped(inner: string): string {
    ReplaceAll(ReplaceAll(inner, "\\\"", "\""), "\\\\", "\\")
  }

  function Unquote(raw: string): string {
    var value := Trim(raw);
    if |value| >= 2 && (value[0] == '"' || value[0] == '\'') && value[|value| - 1] == value[0]
    then
      var inner := value[1..|value| - 1];
      if value[0] == '"' then Unescaped(inner) else inner
    else value
  }

  function FormatEnvLine(key: string, value: string): string {
    key + "=\"" + Escaped(value) + "\""
  }

  /** What one character becomes between the quotes. */
  function EscapedChar(c: char): string {
    if c == '\\' then "\\\\" else if c == '"' then "\\\"" else [c]
  }

  lemma {:induction false} EscapedStep(value: string)
    requires value != ""
    ensures Escaped(value) == EscapedChar(value[0]) + Escaped(value[1..])
  {
    var c := value[0];
    var rest := ReplaceAll(value[1..], "\\", "\\\\");
    assert value == [c] + value[1..];
    ReplaceChar(c, value[1..], '\\', "\\\\");
    if c == '\\' {
      assert "\\\\" + rest == ['\\'] + (['\\'] + rest);
      ReplaceChar('\\', ['\\'] + rest, '"', "\\\"");
      ReplaceChar('\\', rest, '"', "\\\"");
    } else {
      ReplaceChar(c, rest, '"', "\\\"");
    }
  }

  lemma {:induction false} EscapedOneLine(value: string)
    requires OneLine(value)
    ensures OneLine(Escaped(value))
  {
    if value != "" {
      EscapedStep(value);
      EscapedOneLine(value[1..]);
    }
  }

  /** The first pass of `unquote` undoes the second pass of `formatEnvLine`. */
  lemma {:induction false} QuotesUnescaped(value: string)
    ensures ReplaceAll(Escaped(value), "\\\"", "\"") == ReplaceAll(value, "\\", "\\\\")
  {
    if value != "" {
      var c, rest := value[0], Escaped(value[1..]);
      assert value == [c] + value[1..];
      EscapedStep(value);
      QuotesUnescaped(value[1..]);
      ReplaceChar(c, value[1..], '\\', "\\\\");
      if c == '"' {
        ReplaceHit("\\\"", rest, "\"");
      } else if c == '\\' {
        assert "\\\\" + rest == ['\\'] + (['\\'] + rest);
        assert (['\\'] + (['\\'] + rest))[1] == '\\';
        ReplaceSkip('\\', ['\\'] + rest, "\\\"", "\"");
        assert rest != "" ==> (['\\'] + rest)[1] == rest[0];
        ReplaceSkip('\\', rest, "\\\"", "\"");
      } else {
        assert ([c] + rest)[0] == c;
        ReplaceSkip(c, rest, "\\\"", "\"");
      }
    }
  }

  /** The second pass of `unquote` undoes the first pass of `formatEnvLine`. */
  lemma {:induction false} BackslashesUnescaped(value: string)
    ensures ReplaceAll(ReplaceAll(value, "\\", "\\\\"), "\\\\", "\\") == value
  {
    if value != "" {
      var c, rest := value[0], ReplaceAll(value[1..], "\\", "\\\\");
      assert value == [c] + value[1..];
      BackslashesUnescaped(value[1..]);
      ReplaceChar(c, value[1..], '\\', "\\\\");
      if c == '\\' {
        ReplaceHit("\\\\", rest, "\\");
      } else {
        assert ([c] + rest)[0] == c;
        ReplaceSkip(c, rest, "\\\\", "\\");
      }
    }
  }

  /** The two passes of `unquote` undo the two passes of `formatEnvLine`, for every value. */
  lemma {:induction false} UnescapeUndoesEscape(value: string)
    ensures Unescaped(Escaped(value)) == value
  {
    QuotesUnescaped(value);
    BackslashesUnescaped(value);
  }

  /** What a line's value stands for, whatever white space surrounds it: between single quotes it is taken as written,
      between double quotes unescaped, and anything else is taken whole, a quote on one side only included. */
  lemma {:induction false} UnquotedExactly(front: string, inner: string, back: string)
    requires AllSpace(front) && AllSpace(back)
    ensures Unquote(front + ("'" + inner + "'") + back) == inner
    ensures Unquote(front + ("\"" + inner + "\"") + back) == Unescaped(inner)
    ensures IsTrimmed(inner) && !(|inner| >= 2 && inner[0] in {'"', '\''} && inner[|inner| - 1] == inner[0]) ==>
              Unquote(front + inner + back) == inner
  {
    TrimUnique(front, "'" + inner + "'", back);
    TrimUnique(front, "\"" + inner + "\"", back);
    assert ("'" + inner + "'")[1..|inner| + 1] == inner == ("\"" + inner + "\"")[1..|inner| + 1];
    if IsTrimmed(inner) {
      TrimUnique(front, inner, back);
    }
  }

  // ---------------------------------------------------------------- reading a file

  /** One line's key and value, if it sets one. */
  function KeyValue(line: string): Option<(string, string)> {
    var trimmed := Trim(line);
    if trimmed == "" || trimmed[0] == '#' then None
    else match MatchLine(line)
      case None => None
      case Some(m) => Some((m.0, Unquote(m.1)))
  }

  function Apply(e: Entries, line: string): Entries {
    match KeyValue(line)
    case None => e
    case Some(kv) => Set(e, kv.0, kv.1)
  }

  function ParseFrom(e: Entries, lines: seq<string>): Entries
    decreases |lines|
  {
    if lines == [] then e else ParseFrom(Apply(e, lines[0]), lines[1..])
  }

  /** What a file's text sets: later lines win, first mentions fix the order. */
  function Parsed(contents: string): Entries {
    ParseFrom([], SplitLines(contents))
  }

  method ParseEnv(contents: string) returns (entries: Entries)
    ensures entries == Parsed(contents)
  {
    entries := [];
    var lines := SplitLines(contents);
    for i := 0 to |lines|
      invariant ParseFrom(entries, lines[i..]) == Parsed(contents)
    {
      var line := lines[i];
      assert lines[i..][0] == line && lines[i..][1..] == lines[i + 1..];
      var trimmed := Trim(line);
      if trimmed == "" || trimmed[0] == '#' { continue; }
      var m := MatchLine(line);
      if m.None? { continue; }
      entries := Set(entries, m.value.0, Unquote(m.value.1));
    }
  }

  lemma {:induction false} ReplaceAllKeepsOneLine(s: string, pattern: string, with: string)
    requires pattern != "" && OneLine(s) && OneLine(with)
    ensures OneLine(ReplaceAll(s, pattern, with))
  {
    if s != "" {
      if pattern <= s {
        ReplaceAllKeepsOneLine(s[|pattern|..], pattern, with);
      } else {
        ReplaceAllKeepsOneLine(s[1..], pattern, with);
      }
    }
  }

  /** Whatever a line holds, the key read is well formed and the value is one line. */
  lemma {:induction false} ReadValuesAreOneLine(line: string)
    ensures KeyValue(line).Some? ==> WellFormedKey(KeyValue(line).value.0) && OneLine(KeyValue(line).value.1)
  {
    if KeyValue(line).Some? {
      var r := MatcherReads(line);
      TrimKeepsOneLine(r.raw);
      var value := Trim(r.raw);
      if |value| >= 2 {
        var inner := value[1..|value| - 1];
        ReplaceAllKeepsOneLine(inner, "\\\"", "\"");
        ReplaceAllKeepsOneLine(ReplaceAll(inner, "\\\"", "\""), "\\\\", "\\");
      }
    }
  }

  /** Every entry holds a well-formed key and a one-line value. */
  predicate CleanEntries(e: Entries) {
    forall i | 0 <= i < |e| :: WellFormedKey(e[i].0) && OneLine(e[i].1)
  }

  lemma {:induction false} SetKeepsClean(e: Entries, key: string, value: string)
    requires CleanEntries(e) && WellFormedKey(key) && OneLine(value)
    ensures CleanEntries(Set(e, key, value))
  {
    if e != [] && e[0].0 != key {
      SetKeepsClean(e[1..], key, value);
    }
  }

  lemma {:induction false} GetIsClean(e: Entries, key: string)
    requires CleanEntries(e)
    ensures Get(e, key).Some? ==> OneLine(Get(e, key).value)
  {
    if e != [] && e[0].0 != key {
      GetIsClean(e[1..], key);
    }
  }

  lemma {:induction false} ParsedEntriesAreClean(e: Entries, lines: seq<string>)
    requires CleanEntries(e)
    ensures CleanEntries(ParseFrom(e, lines))
    decreases |lines|
  {
    if lines != [] {
      ReadValuesAreOneLine(lines[0]);
      if KeyValue(lines[0]).Some? {
        SetKeepsClean(e, KeyValue(lines[0]).value.0, KeyValue(lines[0]).value.1);
      }
      ParsedEntriesAreClean(Apply(e, lines[0]), lines[1..]);
    }
  }

  lemma {:induction false} WrittenLineIsOneLine(key: string, value: string)
    requires WellFormedKey(key) && OneLine(value)
    ensures OneLine(FormatEnvLine(key, value))
  {
    EscapedOneLine(value);
    var line := FormatEnvLine(key, value);
    forall i | 0 <= i < |line| ensures !IsLineTerminator(line[i]) {
      if i < |key| {
        assert NameChar(line[i]);
      }
    }
  }

  lemma {:induction false} WrittenLineReading(key: string, quoted: string) returns (r: Reading)
    requires WellFormedKey(key) && OneLine(quoted)
    ensures ReadsAs(key + ("=" + quoted), r) && r.key == key && r.raw == quoted
  {
    r := Reading("", "", key, "", "", quoted, "");
    PlainReading(r);
    assert r.Value() == quoted;
    assert "" + ("=" + quoted) == "=" + quoted;
  }

  lemma {:induction false} WrittenLineReads(key: string, value: string)
    requires WellFormedKey(key) && OneLine(value)
    ensures MatchLine(FormatEnvLine(key, value)).Some?
    ensures MatchLine(FormatEnvLine(key, value)).value.0 == key
    ensures Trim(MatchLine(FormatEnvLine(key, value)).value.1) == "\"" + Escaped(value) + "\""
  {
    var quoted := "\"" + Escaped(value) + "\"";
    EscapedOneLine(value);
    assert FormatEnvLine(key, value) == key + ("=" + quoted);
    var r := WrittenLineReading(key, quoted);
    PatternIsUnambiguous(key + ("=" + quoted), r);
    TrimTrimmed(quoted);
  }

  lemma {:induction false} WrittenLineMatches(key: string, value: string)
    requires WellFormedKey(key) && OneLine(value)
    ensures KeyValue(FormatEnvLine(key, value)) == Some((key, value))
    ensures MatchLine(FormatEnvLine(key, value)).Some? && MatchLine(FormatEnvLine(key, value)).value.0 == key
  {
    var line := FormatEnvLine(key, value);
    WrittenLineReads(key, value);
    var quoted := "\"" + Escaped(value) + "\"";
    assert quoted[1..|quoted| - 1] == Escaped(value);
    UnescapeUndoesEscape(value);
    MatchedLinesAreNotSkipped(line);
  }

  /** What is written is read back, exactly for the values that hold no line terminator. */
  lemma {:induction false} EnvRoundTrip(key: string, value: string)
    requires WellFormedKey(key)
    ensures Parsed(FormatEnvLine(key, value)) == [(key, value)] <==> OneLine(value)
  {
    var line := FormatEnvLine(key, value);
    ParsedEntriesAreClean([], SplitLines(line));
    if OneLine(value) {
      WrittenLineMatches(key, value);
      WrittenLineIsOneLine(key, value);
      SplitOneLine(line);
      assert ParseFrom([], [line]) == ParseFrom(Set([], key, value), []);
    }
    assert CleanEntries([(key, value)]) ==> OneLine([(key, value)][0].1);
  }

  // ---------------------------------------------------------------- setting one key

  /** The key a line is about, as `findIndex` looks for it. */
  predicate IsLineOf(line: string, key: string) {
    MatchLine(line).Some? && MatchLine(line).value.0 == key
  }

  /** The blank and comment tests of the reader add nothing: a line the pattern reads never looks like that. */
  lemma {:induction false} MatchedLinesAreNotSkipped(line: string)
    requires MatchLine(line).Some?
    ensures Trim(line) != "" && Trim(line)[0] != '#'
  {
    var r := MatcherReads(line);
    var rest := r.exported + r.Assignment();
    SkipSpacePadded(r.indent, rest);
    assert rest != "" && !IsSpace(rest[0]) && rest[0] != '#';
    var dropped := DropTrailingSplits(rest);
    assert rest == Trim(line) + dropped;
  }

  lemma {:induction false} LineOfSetsKey(line: string, key: string)
    ensures IsLineOf(line, key) <==> KeyValue(line).Some? && KeyValue(line).value.0 == key
  {
    if MatchLine(line).Some? {
      MatchedLinesAreNotSkipped(line);
    }
  }

  predicate IsFirstLineOf(lines: seq<string>, key: string, i: nat) {
    && i < |lines| && IsLineOf(lines[i], key)
    && forall j | 0 <= j < i :: !IsLineOf(lines[j], key)
  }

  /** How many lines set the key. */
  function CountLinesOf(lines: seq<string>, key: string): nat {
    if lines == [] then 0 else (if IsLineOf(lines[0], key) then 1 else 0) + CountLinesOf(lines[1..], key)
  }

  /** `lines.findIndex(...)`: the first line of the key. */
  function FirstLineOf(lines: seq<string>, key: string): (i: Option<nat>)
    ensures i.Some? ==> IsFirstLineOf(lines, key, i.value)
    ensures i.Some? ==> CountLinesOf(lines, key) == 1 + CountLinesOf(lines[i.value + 1..], key)
    ensures i.None? ==> CountLinesOf(lines, key) == 0
  {
    if lines == [] then None
    else if IsLineOf(lines[0], key) then Some(0)
    else match FirstLineOf(lines[1..], key)
      case None => None
      case Some(j) => assert lines[1..][j + 1..] == lines[j + 2..]; Some(j + 1)
  }

  function Appended(contents: string, line: string): string {
    contents + (if contents == "" || contents[|contents| - 1] == '\n' then "" else "\n") + line + "\n"
  }

  /** The text after one key is set: its first line rewritten, or a line appended. */
  function Upserted(contents: string, key: string, value: string): string {
    match FirstLineOf(SplitLines(contents), key)
    case None => Appended(contents, FormatEnvLine(key, value))
    case Some(i) => JoinLines(SplitLines(contents)[i := FormatEnvLine(key, value)])
  }

  lemma {:induction false} NoFirstLineMissed(lines: seq<string>, key: string, i: nat)
    requires IsFirstLineOf(lines, key, i)
    ensures FirstLineOf(lines, key) == Some(i)
  {
    if FirstLineOf(lines, key).None? {
      NoFirstLine(lines, key);
    }
  }

  lemma {:induction false} NoFirstLine(lines: seq<string>, key: string)
    requires CountLinesOf(lines, key) == 0
    ensures forall i | 0 <= i < |lines| :: !IsLineOf(lines[i], key)
  {
    if lines != [] {
      NoFirstLine(lines[1..], key);
      forall i | 0 <= i < |lines| ensures !IsLineOf(lines[i], key) {
        if i > 0 { assert lines[i] == lines[1..][i - 1]; }
      }
    }
  }

  method FindLine(lines: seq<string>, key: string) returns (index: int)
    ensures index == (match FirstLineOf(lines, key) case None => -1 case Some(i) => i)
  {
    for i := 0 to |lines|
      invariant forall j | 0 <= j < i :: !IsLineOf(lines[j], key)
    {
      if IsLineOf(lines[i], key) {
        NoFirstLineMissed(lines, key, i);
        return i;
      }
    }
    return -1;
  }

  method UpsertEnvValue(contents: string, key: string, value: string) returns (updated: string)
    ensures updated == Upserted(contents, key, value)
  {
    var line := FormatEnvLine(key, value);
    var lines := SplitLines(contents);
    var index := FindLine(lines, key);
    if index == -1 {
      var separator := if contents == "" || contents[|contents| - 1] == '\n' then "" else "\n";
      return contents + separator + line + "\n";
    }
    lines := lines[index := line];
    return JoinLines(lines);
  }

  lemma {:induction false} ParseConcat(e: Entries, a: seq<string>, b: seq<string>)
    ensures ParseFrom(e, a + b) == ParseFrom(ParseFrom(e, a), b)
    decreases |a|
  {
    if a == [] {
      assert a + b == b;
    } else {
      assert (a + b)[1..] == a[1..] + b;
      ParseConcat(Apply(e, a[0]), a[1..], b);
    }
  }

  lemma {:induction false} EmptyLineSetsNothing(e: Entries)
    ensures ParseFrom(e, [""]) == e
  {
    assert [""][1..] == [];
    assert ParseFrom(Apply(e, ""), []) == e;
  }

  /** Lines about other keys do not see the value of this one. */
  lemma {:induction false} OtherLinesCommute(e: Entries, lines: seq<string>, key: string, value: string)
    requires Get(e, key).Some? && CountLinesOf(lines, key) == 0
    ensures ParseFrom(Set(e, key, value), lines) == Set(ParseFrom(e, lines), key, value)
    decreases |lines|
  {
    if lines != [] {
      LineOfSetsKey(lines[0], key);
      if KeyValue(lines[0]).Some? {
        var kv := KeyValue(lines[0]).value;
        SetCommutes(e, key, value, kv.0, kv.1);
        GetOfSet(e, kv.0, kv.1, key);
      }
      OtherLinesCommute(Apply(e, lines[0]), lines[1..], key, value);
    }
  }

  /** A later line of the same key hides the value set before it. */
  lemma {:induction false} LaterLineHides(e: Entries, lines: seq<string>, key: string, value: string)
    requires Get(e, key).Some? && CountLinesOf(lines, key) > 0
    ensures ParseFrom(Set(e, key, value), lines) == ParseFrom(e, lines)
    decreases |lines|
  {
    LineOfSetsKey(lines[0], key);
    if KeyValue(lines[0]).Some? {
      var kv := KeyValue(lines[0]).value;
      if kv.0 == key {
        SetTwice(e, key, value, kv.1);
      } else {
        SetCommutes(e, key, value, kv.0, kv.1);
        GetOfSet(e, kv.0, kv.1, key);
        LaterLineHides(Apply(e, lines[0]), lines[1..], key, value);
      }
    } else {
      LaterLineHides(e, lines[1..], key, value);
    }
  }

  /** The lines of a text without the empty one after its last newline. */
  function Kept(lines: seq<string>): seq<string> {
    if lines != [] && lines[|lines| - 1] == "" then lines[..|lines| - 1] else lines
  }

  lemma {:induction false} LastLineEndsText(s: string)
    requires s != "" && s[|s| - 1] != '\n'
    ensures var lines := SplitLines(s); lines[|lines| - 1] != ""
  {
    if |s| > 1 {
      LastLineEndsText(s[1..]);
    } else {
      assert s[1..] == "";
    }
  }

  lemma {:induction false} AppendedLines(contents: string, line: string)
    requires NoNewline(line)
    ensures SplitLines(Appended(contents, line)) == Kept(SplitLines(contents)) + [line, ""]
  {
    SplitOneLine(line);
    SplitAtNewline(line, "");
    assert line + "\n" + "" == line + "\n";
    assert SplitLines(line + "\n") == [line, ""];
    if contents == "" {
      assert Appended(contents, line) == line + "\n";
    } else if contents[|contents| - 1] == '\n' {
      var c := contents[..|contents| - 1];
      SplitAtNewline(c, "");
      assert c + "\n" + "" == contents;
      SplitAtNewline(c, line + "\n");
      assert c + "\n" + (line + "\n") == Appended(contents, line);
      assert Kept(SplitLines(c) + [""]) == SplitLines(c);
    } else {
      LastLineEndsText(contents);
      SplitAtNewline(contents, line + "\n");
      assert contents + "\n" + (line + "\n") == Appended(contents, line);
    }
  }

  lemma {:induction false} RewrittenLines(contents: string, key: string, value: string, i: nat)
    requires WellFormedKey(key) && OneLine(value)
    requires FirstLineOf(SplitLines(contents), key) == Some(i)
    ensures SplitLines(Upserted(contents, key, value)) == SplitLines(contents)[i := FormatEnvLine(key, value)]
  {
    WrittenLineIsOneLine(key, value);
    SplitJoin(SplitLines(contents)[i := FormatEnvLine(key, value)]);
  }

  lemma {:induction false} AppendedKeyLines(contents: string, key: string, value: string)
    requires WellFormedKey(key) && OneLine(value)
    requires FirstLineOf(SplitLines(contents), key).None?
    ensures SplitLines(Upserted(contents, key, value)) == Kept(SplitLines(contents)) + [FormatEnvLine(key, value), ""]
  {
    WrittenLineIsOneLine(key, value);
    AppendedLines(contents, FormatEnvLine(key, value));
  }

  /** Every line but the rewritten one is left exactly as it was. */
  lemma {:induction false} UpsertKeepsOtherLines(contents: string, key: string, value: string, j: nat)
    requires WellFormedKey(key) && OneLine(value)
    requires j < |Kept(SplitLines(contents))| && FirstLineOf(SplitLines(contents), key) != Some(j)
    ensures var after := SplitLines(Upserted(contents, key, value));
            j < |after| && after[j] == SplitLines(contents)[j]
  {
    match FirstLineOf(SplitLines(contents), key)
    case None => AppendedKeyLines(contents, key, value);
    case Some(i) => RewrittenLines(contents, key, value, i);
  }

  lemma {:induction false} AppendedFirstLine(contents: string, key: string, value: string)
    requires WellFormedKey(key) && OneLine(value) && FirstLineOf(SplitLines(contents), key).None?
    ensures var i, after := |Kept(SplitLines(contents))|, SplitLines(Upserted(contents, key, value));
            IsFirstLineOf(after, key, i) && after[i] == FormatEnvLine(key, value)
  {
    WrittenLineReads(key, value);
    AppendedKeyLines(contents, key, value);
    NoFirstLine(SplitLines(contents), key);
  }

  lemma {:induction false} RewrittenFirstLine(contents: string, key: string, value: string, i: nat)
    requires WellFormedKey(key) && OneLine(value) && FirstLineOf(SplitLines(contents), key) == Some(i)
    ensures var after := SplitLines(Upserted(contents, key, value));
            IsFirstLineOf(after, key, i) && after[i] == FormatEnvLine(key, value)
  {
    WrittenLineReads(key, value);
    RewrittenLines(contents, key, value, i);
  }

  /** The update leaves the key's first line as the line it writes. */
  lemma {:induction false} UpsertedFirstLine(contents: string, key: string, value: string) returns (i: nat)
    requires WellFormedKey(key) && OneLine(value)
    ensures var after := SplitLines(Upserted(contents, key, value));
            FirstLineOf(after, key) == Some(i) && after[i] == FormatEnvLine(key, value)
  {
    match FirstLineOf(SplitLines(contents), key) {
      case None =>
        AppendedFirstLine(contents, key, value);
        i := |Kept(SplitLines(contents))|;
      case Some(first) =>
        RewrittenFirstLine(contents, key, value, first);
        i := first;
    }
    NoFirstLineMissed(SplitLines(Upserted(contents, key, value)), key, i);
  }

  /** Setting the same value again changes nothing. */
  lemma {:induction false} UpsertTwice(contents: string, key: string, value: string)
    requires WellFormedKey(key) && OneLine(value)
    ensures Upserted(Upserted(contents, key, value), key, value) == Upserted(contents, key, value)
  {
    var lines := SplitLines(Upserted(contents, key, value));
    var i := UpsertedFirstLine(contents, key, value);
    assert lines[i := FormatEnvLine(key, value)] == lines;
  }

  /** Dropping the empty last line changes nothing the reader sees. */
  lemma {:induction false} KeptReads(lines: seq<string>)
    requires lines != []
    ensures ParseFrom([], Kept(lines)) == ParseFrom([], lines)
  {
    if Kept(lines) != lines {
      assert lines == Kept(lines) + [""];
      ParseConcat([], Kept(lines), [""]);
      EmptyLineSetsNothing(ParseFrom([], Kept(lines)));
    }
  }

  /** What the reader sees after the update, when the key had no line yet. */
  lemma {:induction false} AppendedReads(contents: string, key: string, value: string)
    requires WellFormedKey(key) && OneLine(value)
    requires FirstLineOf(SplitLines(contents), key).None?
    ensures Parsed(Upserted(contents, key, value)) == Set(Parsed(contents), key, value)
  {
    var lines, line := SplitLines(contents), FormatEnvLine(key, value);
    AppendedKeyLines(contents, key, value);
    WrittenLineMatches(key, value);
    KeptReads(lines);
    ParseConcat([], Kept(lines), [line, ""]);
    assert [line, ""][1..] == [""];
    EmptyLineSetsNothing(Set(Parsed(contents), key, value));
  }

  /** Reading lines cut at one of them. */
  lemma {:induction false} ParseAround(lines: seq<string>, i: nat, line: string)
    requires i < |lines|
    ensures ParseFrom([], lines[i := line]) == ParseFrom(Apply(ParseFrom([], lines[..i]), line), lines[i + 1..])
  {
    assert lines[i := line] == lines[..i] + ([line] + lines[i + 1..]);
    ParseConcat([], lines[..i], [line] + lines[i + 1..]);
    assert ([line] + lines[i + 1..])[1..] == lines[i + 1..];
  }

  /** What the reader sees after the update, when the key's first line is at `i`. */
  lemma {:induction false} RewrittenReads(contents: string, key: string, value: string, i: nat)
    requires WellFormedKey(key) && OneLine(value)
    requires FirstLineOf(SplitLines(contents), key) == Some(i)
    ensures Parsed(Upserted(contents, key, value)) ==
            if CountLinesOf(SplitLines(contents), key) == 1 then Set(Parsed(contents), key, value) else Parsed(contents)
  {
    var lines := SplitLines(contents);
    var after, e0 := lines[i + 1..], ParseFrom([], lines[..i]);
    RewrittenLines(contents, key, value, i);
    WrittenLineMatches(key, value);
    ParseAround(lines, i, FormatEnvLine(key, value));
    LineOfSetsKey(lines[i], key);
    ParseAround(lines, i, lines[i]);
    assert lines[i := lines[i]] == lines;
    var was := KeyValue(lines[i]).value.1;
    SetTwice(e0, key, was, value);
    GetOfSet(e0, key, was, key);
    if CountLinesOf(after, key) == 0 {
      OtherLinesCommute(Set(e0, key, was), after, key, value);
    } else {
      LaterLineHides(Set(e0, key, was), after, key, value);
    }
  }

  /** Setting a key in the text is setting it in the map, exactly when the value is one line and no second line of the
      key hides it with another value. */
  lemma {:induction false} UpsertIsMapUpdate(contents: string, key: string, value: string)
    requires WellFormedKey(key)
    ensures Parsed(Upserted(contents, key, value)) == Set(Parsed(contents), key, value) <==>
            OneLine(value) && (CountLinesOf(SplitLines(contents), key) <= 1 || Get(Parsed(contents), key) == Some(value))
  {
    var first := FirstLineOf(SplitLines(contents), key);
    GetOfSet(Parsed(contents), key, value, key);
    if !OneLine(value) {
      ParsedEntriesAreClean([], SplitLines(Upserted(contents, key, value)));
      GetIsClean(Parsed(Upserted(contents, key, value)), key);
    } else if first.None? {
      AppendedReads(contents, key, value);
    } else {
      RewrittenReads(contents, key, value, first.value);
      if Get(Parsed(contents), key) == Some(value) {
        SetSame(Parsed(contents), key, value);
      }
    }
  }

  /** A key written twice: the update rewrites the first line, and the reader still sees the last one. */
  lemma {:induction false} UpsertMissesDuplicate(key: string, first: string, last: string, value: string)
    requires WellFormedKey(key) && OneLine(first) && OneLine(last) && OneLine(value) && value != last
    ensures var contents := FormatEnvLine(key, first) + "\n" + FormatEnvLine(key, last);
            Get(Parsed(Upserted(contents, key, value)), key) == Some(last)
  {
    var a, b := FormatEnvLine(key, first), FormatEnvLine(key, last);
    WrittenLineMatches(key, first);
    WrittenLineMatches(key, last);
    WrittenLineIsOneLine(key, first);
    WrittenLineIsOneLine(key, last);
    SplitOneLine(a);
    SplitOneLine(b);
    SplitAtNewline(a, b);
    assert SplitLines(a + "\n" + b) == [a, b];
    assert [a, b][1..] == [b] && [b][1..] == [];
    assert CountLinesOf([b], key) == 1;
    assert CountLinesOf([a, b], key) == 2;
    NoFirstLineMissed([a, b], key, 0);
    RewrittenReads(a + "\n" + b, key, value, 0);
    assert ParseFrom([], [a, b]) == ParseFrom(Set([], key, first), [b]);
    assert ParseFrom(Set([], key, first), [b]) == ParseFrom(Set(Set([], key, first), key, last), []);
    GetOfSet(Set([], key, first), key, last, key);
  }
}
