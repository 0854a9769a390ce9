/** The string operations the scripts lean on: JavaScript's white space, trim, split, join and replaceAll. */
module Text {

  /** The characters a regular expression's `.` does not match. */
  predicate IsLineTerminator(c: char) {
    c == '\n' || c == '\r' || c == '\U{2028}' || c == '\U{2029}'
  }

  /** What `\s` matches and `trim` removes: white space, line terminators included. */
  predicate IsSpace(c: char) {
    || IsLineTerminator(c)
    || c == '\t' || c == '\U{0B}' || c == '\U{0C}' || c == ' '
    || c == '\U{A0}' || c == '\U{1680}' || '\U{2000}' <= c <= '\U{200A}'
    || c == '\U{202F}' || c == '\U{205F}' || c == '\U{3000}' || c == '\U{FEFF}'
  }

  predicate AllSpace(s: string) {
    forall i | 0 <= i < |s| :: IsSpace(s[i])
  }

  predicate OneLine(s: string) {
    forall i | 0 <= i < |s| :: !IsLineTerminator(s[i])
  }

  lemma {:induction false} ConcatAssoc(a: string, b: string, c: string)
    ensures a + b + c == a + (b + c)
  {
  }

  lemma {:induction false} FirstAndRest(s: string)
    requires s != ""
    ensures s == [s[0]] + s[1..]
  {
  }

  // ---------------------------------------------------------------- trim

  function SkipSpace(s: string): string {
    if s != "" && IsSpace(s[0]) then SkipSpace(s[1..]) else s
  }

  function DropTrailingSpace(s: string): string {
    if s != "" && IsSpace(s[|s| - 1]) then DropTrailingSpace(s[..|s| - 1]) else s
  }

  function Trim(s: string): string {
    DropTrailingSpace(SkipSpace(s))
  }

  predicate IsTrimmed(s: string) {
    s == "" || (!IsSpace(s[0]) && !IsSpace(s[|s| - 1]))
  }

  lemma {:induction false} SkipSpaceSplits(s: string) returns (pad: string)
    ensures AllSpace(pad) && s == pad + SkipSpace(s)
    ensures SkipSpace(s) == "" || !IsSpace(SkipSpace(s)[0])
  {
    if s != "" && IsSpace(s[0]) {
      var rest := SkipSpaceSplits(s[1..]);
      pad := [s[0]] + rest;
      FirstAndRest(s);
      ConcatAssoc([s[0]], rest, SkipSpace(s[1..]));
    } else {
      pad := "";
    }
  }

  lemma {:induction false} SkipSpacePadded(pad: string, x: string)
    requires AllSpace(pad) && (x == "" || !IsSpace(x[0]))
    ensures SkipSpace(pad + x) == x
  {
    if pad == "" {
      assert pad + x == x;
    } else {
      assert (pad + x)[1..] == pad[1..] + x;
      SkipSpacePadded(pad[1..], x);
    }
  }

  lemma {:induction false} DropTrailingSplits(s: string) returns (pad: string)
    ensures AllSpace(pad) && s == DropTrailingSpace(s) + pad
    ensures DropTrailingSpace(s) == "" || !IsSpace(DropTrailingSpace(s)[|DropTrailingSpace(s)| - 1])
  {
    if s != "" && IsSpace(s[|s| - 1]) {
      var rest := DropTrailingSplits(s[..|s| - 1]);
      pad := rest + [s[|s| - 1]];
    } else {
      pad := "";
    }
  }

  lemma {:induction false} DropTrailingPadded(x: string, pad: string)
    requires AllSpace(pad) && (x == "" || !IsSpace(x[|x| - 1]))
    ensures DropTrailingSpace(x + pad) == x
  {
    if pad == "" {
      assert x + pad == x;
    } else {
      assert (x + pad)[..|x + pad| - 1] == x + pad[..|pad| - 1];
      DropTrailingPadded(x, pad[..|pad| - 1]);
    }
  }

  /** `trim` cuts a string into white space, a trimmed middle, and white space. */
  lemma {:induction false} TrimSplits(s: string) returns (front: string, back: string)
    ensures AllSpace(front) && AllSpace(back) && s == front + Trim(s) + back
    ensures IsTrimmed(Trim(s))
  {
    front := SkipSpaceSplits(s);
    back := DropTrailingSplits(SkipSpace(s));
    assert front + SkipSpace(s) == front + Trim(s) + back;
  }

  /** The trimmed middle does not depend on the white space around it. */
  lemma {:induction false} TrimUnique(front: string, x: string, back: string)
    requires AllSpace(front) && AllSpace(back) && IsTrimmed(x)
    ensures Trim(front + x + back) == x
  {
    if x == "" {
      assert front + x + back == (front + back) + x;
      SkipSpacePadded(front + back, x);
    } else {
      assert front + x + back == front + (x + back);
      SkipSpacePadded(front, x + back);
      DropTrailingPadded(x, back);
    }
  }

  lemma {:induction false} TrimPadded(front: string, s: string, back: string)
    requires AllSpace(front) && AllSpace(back)
    ensures Trim(front + s + back) == Trim(s)
  {
    var f, b := TrimSplits(s);
    assert front + s + back == (front + f) + Trim(s) + (b + back);
    TrimUnique(front + f, Trim(s), b + back);
  }

  lemma {:induction false} TrimTrimmed(s: string)
    requires IsTrimmed(s)
    ensures Trim(s) == s
  {
    assert "" + s + "" == s;
    TrimUnique("", s, "");
  }

  // ---------------------------------------------------------------- lines

  predicate NoNewline(s: string) {
    forall i | 0 <= i < |s| :: s[i] != '\n'
  }

  /** `contents.split("\n")`. */
  function SplitLines(s: string): (lines: seq<string>)
    ensures |lines| >= 1
    ensures forall i | 0 <= i < |lines| :: NoNewline(lines[i])
    ensures JoinLines(lines) == s
  {
    if s == "" then [""]
    else if s[0] == '\n' then [""] + SplitLines(s[1..])
    else
      var rest := SplitLines(s[1..]);
      assert rest == [rest[0]] + rest[1..];
      [[s[0]] + rest[0]] + rest[1..]
  }

  /** `lines.join("\n")`. */
  function JoinLines(lines: seq<string>): string
    requires |lines| >= 1
  {
    if |lines| == 1 then lines[0] else lines[0] + "\n" + JoinLines(lines[1..])
  }

  /** A text cut at a newline splits into the lines of both halves. */
  lemma {:induction false} SplitAtNewline(a: string, b: string)
    ensures SplitLines(a + "\n" + b) == SplitLines(a) + SplitLines(b)
  {
    if a == "" {
      assert a + "\n" + b == ['\n'] + b;
      assert (['\n'] + b)[1..] == b;
    } else {
      assert (a + "\n" + b)[1..] == a[1..] + "\n" + b;
      SplitAtNewline(a[1..], b);
    }
  }

  lemma {:induction false} SplitOneLine(l: string)
    requires NoNewline(l)
    ensures SplitLines(l) == [l]
  {
    if l != "" {
      SplitOneLine(l[1..]);
      assert [l[0]] + l[1..] == l;
    }
  }

  /** Splitting undoes joining, for lines that hold no newline. */
  lemma {:induction false} SplitJoin(lines: seq<string>)
    requires |lines| >= 1 && forall i | 0 <= i < |lines| :: NoNewline(lines[i])
    ensures SplitLines(JoinLines(lines)) == lines
  {
    SplitOneLine(lines[0]);
    if |lines| > 1 {
      SplitJoin(lines[1..]);
      SplitAtNewline(lines[0], JoinLines(lines[1..]));
      assert lines == [lines[0]] + lines[1..];
    }
  }

  // ---------------------------------------------------------------- search and replace

  /** `s.replaceAll(pattern, with)`: leftmost matches, no overlaps. */
  function ReplaceAll(s: string, pattern: string, with: string): string
    requires pattern != ""
  {
    if s == "" then ""
    else if pattern <= s then with + ReplaceAll(s[|pattern|..], pattern, with)
    else [s[0]] + ReplaceAll(s[1..], pattern, with)
  }

  lemma {:induction false} ReplaceHit(pattern: string, rest: string, with: string)
    requires pattern != ""
    ensures ReplaceAll(pattern + rest, pattern, with) == with + ReplaceAll(rest, pattern, with)
  {
    assert (pattern + rest)[|pattern|..] == rest;
  }

  lemma {:induction false} ReplaceSkip(c: char, rest: string, pattern: string, with: string)
    requires pattern != "" && !(pattern <= [c] + rest)
    ensures ReplaceAll([c] + rest, pattern, with) == [c] + ReplaceAll(rest, pattern, with)
  {
    assert ([c] + rest)[1..] == rest;
  }

  /** A one-character pattern looks at one character at a time. */
  lemma {:induction false} ReplaceChar(c: char, rest: string, pattern: char, with: string)
    ensures ReplaceAll([c] + rest, [pattern], with)
         == (if c == pattern then with else [c]) + ReplaceAll(rest, [pattern], with)
  {
    if c == pattern {
      ReplaceHit([pattern], rest, with);
    } else {
      assert ([c] + rest)[0] != [pattern][0];
      ReplaceSkip(c, rest, [pattern], with);
    }
  }

  predicate OccursAt(s: string, x: string, i: int) {
    0 <= i <= |s| - |x| && s[i..i + |x|] == x
  }

  /** `s.includes(x)`. */
  predicate Contains(s: string, x: string) {
    exists i | 0 <= i <= |s| :: OccursAt(s, x, i)
  }

  /** The order `sort` puts texts in. */
  predicate Less(s: string, t: string) {
    t != "" && (s == "" || s[0] < t[0] || (s[0] == t[0] && Less(s[1..], t[1..])))
  }

  lemma {:induction false} LessTotal(s: string, t: string)
    ensures s == t || Less(s, t) || Less(t, s)
    ensures !(Less(s, t) && Less(t, s))
  {
    if s != "" && t != "" {
      LessTotal(s[1..], t[1..]);
      if s[0] == t[0] && s[1..] == t[1..] {
        assert s == [s[0]] + s[1..] == t;
      }
    }
  }

  lemma {:induction false} LessTransitive(s: string, t: string, u: string)
    requires Less(s, t) && Less(t, u)
    ensures Less(s, u)
  {
    if s != "" && s[0] == t[0] == u[0] {
      LessTransitive(s[1..], t[1..], u[1..]);
    }
  }
}
