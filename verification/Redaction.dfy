/** Removing secrets from evidence before it is written. */
module Redaction {
  import opened Text

  const MARK := "[redactado]"

  /** Values shorter than this are left alone. */
  const SHORTEST := 8

  /** `text.split(secret)`. */
  function SplitOn(text: string, secret: string): (parts: seq<string>)
    requires secret != ""
    ensures parts != []
  {
    if text == "" then [""]
    else if secret <= text then [""] + SplitOn(text[|secret|..], secret)
    else
      var rest := SplitOn(text[1..], secret);
      [[text[0]] + rest[0]] + rest[1..]
  }

  /** `parts.join(glue)`. */
  function JoinWith(parts: seq<string>, glue: string): string
    requires parts != []
  {
    if |parts| == 1 then parts[0] else parts[0] + glue + JoinWith(parts[1..], glue)
  }

  /** Every secret long enough is cut out, in the order given. */
  function Redact(text: string, secrets: seq<string>): string
    decreases |secrets|
  {
    if secrets == [] then text
    else if |secrets[0]| >= SHORTEST then Redact(JoinWith(SplitOn(text, secrets[0]), MARK), secrets[1..])
    else Redact(text, secrets[1..])
  }

  /** The redacted text still shows the secret. */
  predicate Leaks(text: string, secrets: seq<string>, s: string) {
    Contains(Redact(text, secrets), s)
  }

  /** Splitting and joining is replacing every leftmost occurrence. */
  lemma {:induction false} SplitJoinReplaces(text: string, secret: string, glue: string)
    requires secret != ""
    ensures JoinWith(SplitOn(text, secret), glue) == ReplaceAll(text, secret, glue)
  {
    if text != "" {
      if secret <= text {
        SplitJoinReplaces(text[|secret|..], secret, glue);
        assert ([""] + SplitOn(text[|secret|..], secret))[1..] == SplitOn(text[|secret|..], secret);
        assert "" + glue == glue;
      } else {
        var rest := SplitOn(text[1..], secret);
        SplitJoinReplaces(text[1..], secret, glue);
        var parts := SplitOn(text, secret);
        assert parts[0] == [text[0]] + rest[0] && parts[1..] == rest[1..];
        if |rest| > 1 {
          ConcatAssoc([text[0]], rest[0] + glue, JoinWith(rest[1..], glue));
          ConcatAssoc([text[0]], rest[0], glue);
        }
      }
    }
  }

  // ---------------------------------------------------------------- when the marker can bring a secret back

  /** The end of `a` is the beginning of `b`: some of it, but neither whole. */
  predicate Meets(a: string, b: string) {
    exists n | 1 <= n < |a| :: n < |b| && a[|a| - n..] == b[..n]
  }

  /** The secret and the marker share text: one holds the other, or an end of one is a beginning of the other. */
  predicate Overlaps(secret: string, mark: string) {
    Contains(mark, secret) || Contains(secret, mark) || Meets(secret, mark) || Meets(mark, secret)
  }

  lemma {:induction false} ContainsAt(text: string, s: string, i: nat)
    requires i + |s| <= |text| && text[i..i + |s|] == s
    ensures Contains(text, s)
  {
    assert OccursAt(text, s, i);
  }

  /** A secret found in two joined texts is in one of them, or meets the seam. */
  lemma {:induction false} FoundAcrossSeam(a: string, b: string, s: string, i: nat)
    requires OccursAt(a + b, s, i)
    ensures i + |s| <= |a| ==> OccursAt(a, s, i)
    ensures i >= |a| ==> OccursAt(b, s, i - |a|)
    ensures i < |a| < i + |s| ==> s[..|a| - i] == a[i..] && s[|a| - i..] <= b
  {
    var text := a + b;
    if i + |s| <= |a| {
      assert a[i..i + |s|] == text[i..i + |s|];
    } else if i >= |a| {
      assert b[i - |a|..i - |a| + |s|] == text[i..i + |s|];
    } else {
      assert s[..|a| - i] == text[i..|a|] == a[i..];
      assert s[|a| - i..] == text[|a|..i + |s|] == b[..i + |s| - |a|];
    }
  }

  /** A secret that starts before the marker and reaches it touches it. */
  lemma {:induction false} StartsBeforeMark(mark: string, b: string, s: string, k: nat)
    requires 0 < k < |s| && mark != "" && s[k..] <= mark + b
    ensures Overlaps(s, mark)
  {
    var n := |s| - k;
    assert s[k..] == (mark + b)[..n];
    if n < |mark| {
      assert s[|s| - n..] == mark[..n];
      assert Meets(s, mark);
    } else {
      assert s[k..k + |mark|] == s[k..][..|mark|] == mark;
      ContainsAt(s, mark, k);
    }
  }

  /** A secret that starts inside the marker touches it. */
  lemma {:induction false} StartsInMark(mark: string, b: string, s: string, i: nat)
    requires s != "" && i < |mark| && OccursAt(mark + b, s, i)
    ensures Overlaps(s, mark)
  {
    FoundAcrossSeam(mark, b, s, i);
    if i + |s| <= |mark| {
      assert Contains(mark, s);
    } else {
      var n := |mark| - i;
      assert mark[|mark| - n..] == s[..n];
      if n < |mark| {
        assert Meets(mark, s);
      } else {
        assert s[0..|mark|] == mark;
        ContainsAt(s, mark, 0);
      }
    }
  }

  /** A secret found across a marker touches the marker. */
  lemma {:induction false} FoundAcrossMark(a: string, mark: string, b: string, s: string, i: nat)
    requires s != "" && mark != "" && OccursAt(a + (mark + b), s, i)
    ensures Contains(a, s) || Contains(b, s) || Overlaps(s, mark)
  {
    FoundAcrossSeam(a, mark + b, s, i);
    if i + |s| <= |a| {
      assert Contains(a, s);
    } else if i < |a| {
      StartsBeforeMark(mark, b, s, |a| - i);
    } else if i - |a| < |mark| {
      StartsInMark(mark, b, s, i - |a|);
    } else {
      FoundAcrossSeam(mark, b, s, i - |a|);
      assert Contains(b, s);
    }
  }

  lemma {:induction false} SeamBringsNothing(a: string, mark: string, b: string, s: string)
    requires s != "" && mark != "" && !Contains(a, s) && !Contains(b, s) && !Overlaps(s, mark)
    ensures !Contains(a + mark + b, s)
  {
    var text := a + (mark + b);
    ConcatAssoc(a, mark, b);
    forall i | 0 <= i <= |text| ensures !OccursAt(text, s, i) {
      if OccursAt(text, s, i) {
        FoundAcrossMark(a, mark, b, s, i);
      }
    }
  }

  /** A later secret's markers never bring `s` back. */
  lemma {:induction false} ReplacingBringsNothing(piece: string, text: string, other: string, mark: string, s: string)
    requires s != "" && mark != "" && other != "" && !Overlaps(s, mark) && !Contains(piece + text, s)
    ensures !Contains(piece + ReplaceAll(text, other, mark), s)
    decreases |text|
  {
    if text == "" {
    } else if other <= text {
      var rest := text[|other|..];
      PartsHoldNothing(piece, text, |other|, s);
      assert "" + rest == rest;
      ReplacingBringsNothing("", rest, other, mark, s);
      assert "" + ReplaceAll(rest, other, mark) == ReplaceAll(rest, other, mark);
      SeamBringsNothing(piece, mark, ReplaceAll(rest, other, mark), s);
      ConcatAssoc(piece, mark, ReplaceAll(rest, other, mark));
    } else {
      assert piece + text == piece + [text[0]] + text[1..];
      ReplacingBringsNothing(piece + [text[0]], text[1..], other, mark, s);
      ConcatAssoc(piece, [text[0]], ReplaceAll(text[1..], other, mark));
    }
  }

  lemma {:induction false} OccursInTail(a: string, b: string, s: string, i: nat)
    ensures OccursAt(a + b, s, |a| + i) <==> OccursAt(b, s, i)
  {
    if i <= |b| - |s| {
      assert (a + b)[|a| + i..|a| + i + |s|] == b[i..i + |s|];
    }
  }

  lemma {:induction false} PartsHoldNothing(piece: string, text: string, n: nat, s: string)
    requires n <= |text| && !Contains(piece + text, s)
    ensures !Contains(piece, s) && !Contains(text[n..], s)
  {
    forall i | 0 <= i <= |piece| ensures !OccursAt(piece, s, i) {
      assert OccursAt(piece, s, i) ==> OccursAt(piece + text, s, i);
    }
    var front := piece + text[..n];
    assert front + text[n..] == piece + text;
    forall i | 0 <= i <= |text[n..]| ensures !OccursAt(text[n..], s, i) {
      OccursInTail(front, text[n..], s, i);
    }
  }

  /** Replacing a secret leaves none of it, when the marker cannot bring it back. */
  lemma {:induction false} ReplacedIsGone(piece: string, text: string, mark: string, s: string)
    requires s != "" && mark != "" && !Overlaps(s, mark)
    requires forall i | 0 <= i < |piece| :: !OccursAt(piece + text, s, i)
    ensures !Contains(piece + ReplaceAll(text, s, mark), s)
    decreases |text|
  {
    if text == "" {
      assert piece + text == piece;
    } else if s <= text {
      var rest := text[|s|..];
      forall i | 0 <= i <= |piece| ensures !OccursAt(piece, s, i) {
        assert OccursAt(piece, s, i) ==> OccursAt(piece + text, s, i);
      }
      ReplacedIsGone("", rest, mark, s);
      assert "" + ReplaceAll(rest, s, mark) == ReplaceAll(rest, s, mark);
      SeamBringsNothing(piece, mark, ReplaceAll(rest, s, mark), s);
      ConcatAssoc(piece, mark, ReplaceAll(rest, s, mark));
    } else {
      var longer := piece + [text[0]];
      assert longer + text[1..] == piece + text;
      assert !OccursAt(piece + text, s, |piece|) by {
        assert (piece + text)[|piece|..] == text;
      }
      ReplacedIsGone(longer, text[1..], mark, s);
      ConcatAssoc(piece, [text[0]], ReplaceAll(text[1..], s, mark));
    }
  }

  lemma {:induction false} AbsentStays(text: string, secrets: seq<string>, s: string)
    requires s != "" && !Overlaps(s, MARK) && !Contains(text, s)
    ensures !Contains(Redact(text, secrets), s)
    decreases |secrets|
  {
    if secrets != [] {
      if |secrets[0]| >= SHORTEST {
        SplitJoinReplaces(text, secrets[0], MARK);
        assert "" + text == text;
        ReplacingBringsNothing("", text, secrets[0], MARK, s);
        var once := ReplaceAll(text, secrets[0], MARK);
        assert "" + once == once;
        AbsentStays(once, secrets[1..], s);
      } else {
        AbsentStays(text, secrets[1..], s);
      }
    }
  }

  /** A listed secret that shares no text with the marker is gone, whatever the other secrets are and whatever the text
      the replacements create. */
  lemma {:induction false} RedactedIsGone(text: string, secrets: seq<string>, s: string)
    requires s in secrets && |s| >= 8 && !Overlaps(s, MARK)
    ensures !Contains(Redact(text, secrets), s)
    decreases |secrets|
  {
    if secrets[0] == s {
      SplitJoinReplaces(text, s, MARK);
      assert "" + text == text;
      ReplacedIsGone("", text, MARK, s);
      var once := ReplaceAll(text, s, MARK);
      assert "" + once == once;
      AbsentStays(once, secrets[1..], s);
    } else if |secrets[0]| >= SHORTEST {
      RedactedIsGone(JoinWith(SplitOn(text, secrets[0]), MARK), secrets[1..], s);
    } else {
      RedactedIsGone(text, secrets[1..], s);
    }
  }

  // ---------------------------------------------------------------- and when it does

  /** A letter no marker holds, then a run of another: found nowhere else in a short text. */
  function Stranger(n: nat): string {
    "y" + seq(n, _ => 'z')
  }

  predicate NoStrangers(s: string) {
    forall i | 0 <= i < |s| :: s[i] != 'y' && s[i] != 'z'
  }

  lemma {:induction false} AbsentIsKept(text: string, s: string, mark: string)
    requires s != "" && !Contains(text, s)
    ensures ReplaceAll(text, s, mark) == text
  {
    if text != "" {
      assert !OccursAt(text, s, 0);
      PartsHoldNothing("", text, 1, s) by {
        assert "" + text == text;
      }
      AbsentIsKept(text[1..], s, mark);
      FirstAndRest(text);
    }
  }

  /** The secret has not started before the end of `a`. */
  predicate FreshUpTo(a: string, rest: string, t: string) {
    forall i | 0 <= i < |a| :: !OccursAt(a + rest, t, i)
  }

  /** A text that holds none of the secrets that are cut out is written as it was. */
  lemma {:induction false} TextWithoutSecretsIsKept(text: string, secrets: seq<string>)
    requires forall s | s in secrets && |s| >= 8 :: !Contains(text, s)
    ensures Redact(text, secrets) == text
    decreases |secrets|
  {
    if secrets != [] {
      assert forall s | s in secrets[1..] :: s in secrets;
      if |secrets[0]| >= SHORTEST {
        SplitJoinReplaces(text, secrets[0], MARK);
        AbsentIsKept(text, secrets[0], MARK);
      }
      TextWithoutSecretsIsKept(text, secrets[1..]);
    }
  }

  lemma {:induction false} FreshAfterFirst(a: string, rest: string, t: string)
    requires a != "" && t != "" && FreshUpTo(a, rest, t)
    ensures !(t <= a + rest) && FreshUpTo(a[1..], rest, t)
    ensures a + rest == [a[0]] + (a[1..] + rest)
  {
    FirstAndRest(a);
    ConcatAssoc([a[0]], a[1..], rest);
    var tail := a[1..] + rest;
    forall i | 0 <= i < |a[1..]| ensures !OccursAt(tail, t, i) {
      OccursInTail([a[0]], tail, t, i);
      assert !OccursAt(a + rest, t, i + 1);
    }
    assert !OccursAt(a + rest, t, 0);
  }

  /** Where the first occurrence is, the replacement starts. */
  lemma {:induction false} FirstReplaced(a: string, t: string, b: string, mark: string)
    requires t != "" && FreshUpTo(a, t + b, t)
    ensures ReplaceAll(a + (t + b), t, mark) == a + (mark + ReplaceAll(b, t, mark))
    decreases |a|
  {
    var made := mark + ReplaceAll(b, t, mark);
    if a == "" {
      assert "" + (t + b) == t + b;
      ReplaceHit(t, b, mark);
      assert "" + made == made;
    } else {
      FreshAfterFirst(a, t + b, t);
      ReplaceSkip(a[0], a[1..] + (t + b), t, mark);
      FirstReplaced(a[1..], t, b, mark);
      FirstAndRest(a);
      ConcatAssoc([a[0]], a[1..], made);
    }
  }

  /** The stranger is found only where it was put. */
  lemma {:induction false} StrangerIsFirst(a: string, n: nat, b: string, i: nat)
    requires |a| < n && i < |a|
    ensures !OccursAt(a + (Stranger(n) + b), Stranger(n), i)
  {
    var text, t := a + (Stranger(n) + b), Stranger(n);
    assert text[|a|] == 'y';
    assert t[|a| - i] == 'z';
  }

  /** Text built around a stranger shows the secret only once the stranger is replaced. */
  lemma {:induction false} StrangerBringsBack(a: string, b: string, s: string)
    requires |s| >= SHORTEST && Revealing(a, b, s)
    ensures Leaks(a + (Stranger(|s|) + b), [s, Stranger(|s|)], s)
  {
    var t := Stranger(|s|);
    var text := a + (t + b);
    SplitJoinReplaces(text, s, MARK);
    AbsentIsKept(text, s, MARK);
    assert [s, t][1..] == [t] && [t][1..] == [];
    SplitJoinReplaces(text, t, MARK);
    forall i | 0 <= i < |a| ensures !OccursAt(text, t, i) {
      StrangerIsFirst(a, |s|, b, i);
    }
    FirstReplaced(a, t, b, MARK);
    AbsentIsKept(b, t, MARK);
    ConcatAssoc(a, MARK, b);
    assert Redact(text, [s, t]) == Redact(text, [t]) == a + MARK + b;
  }

  lemma {:induction false} MarkHasNoStrangers()
    ensures NoStrangers(MARK)
  {
  }

  /** Text around a marker that shows the secret, and around a stranger does not. */
  predicate Revealing(a: string, b: string, s: string) {
    |a| < |s| && |b| < |s| && Contains(a + MARK + b, s) && !Contains(a + (Stranger(|s|) + b), s)
  }

  lemma {:induction false} RevealingInside(s: string)
    requires s != "" && Contains(MARK, s)
    ensures Revealing("", "", s)
  {
    assert "" + MARK + "" == MARK;
    assert "" + (Stranger(|s|) + "") == Stranger(|s|);
    NotInStranger(s);
  }

  lemma {:induction false} RevealingAround(s: string) returns (a: string, b: string)
    requires Contains(s, MARK)
    ensures Revealing(a, b, s)
  {
    var i :| 0 <= i <= |s| && OccursAt(s, MARK, i);
    a, b := s[..i], s[i + |MARK|..];
    assert a + MARK + b == s;
    assert OccursAt(s, s, 0);
    NotAroundStranger(a, b, s);
  }

  lemma {:induction false} RevealingBefore(s: string) returns (a: string)
    requires Meets(s, MARK)
    ensures Revealing(a, "", s)
  {
    var n :| 1 <= n < |s| && n < |MARK| && s[|s| - n..] == MARK[..n];
    a := s[..|s| - n];
    assert s == a + MARK[..n];
    assert a + MARK + "" == s + MARK[n..];
    assert OccursAt(s + MARK[n..], s, 0);
    NotEndingInStranger(a, s, n);
  }

  /** A mark that ends as the secret begins, before the rest of the secret. */
  lemma {:induction false} ShowsAfter(mark: string, s: string, n: nat)
    requires n <= |mark| && n <= |s| && mark[|mark| - n..] == s[..n]
    ensures Contains("" + mark + s[n..], s)
  {
    var head := mark[..|mark| - n];
    assert mark == head + s[..n];
    assert s == s[..n] + s[n..];
    ConcatAssoc(head, s[..n], s[n..]);
    assert "" + mark + s[n..] == head + s;
    assert OccursAt(head + s, s, |head|);
  }

  lemma {:induction false} RevealingAfter(s: string) returns (b: string)
    requires Meets(MARK, s)
    ensures Revealing("", b, s)
  {
    var n :| 1 <= n < |MARK| && n < |s| && MARK[|MARK| - n..] == s[..n];
    b := s[n..];
    ShowsAfter(MARK, s, n);
    NotStartingInStranger(b, s, n);
  }

  /** Where a secret that shares text with the marker survives its own redaction. */
  lemma {:induction false} OverlapBringsBack(s: string) returns (text: string, secrets: seq<string>)
    requires |s| >= SHORTEST && Overlaps(s, MARK)
    ensures s in secrets && Leaks(text, secrets, s)
  {
    var a, b := "", "";
    if Contains(MARK, s) {
      RevealingInside(s);
    } else if Contains(s, MARK) {
      a, b := RevealingAround(s);
    } else if Meets(s, MARK) {
      a := RevealingBefore(s);
    } else {
      b := RevealingAfter(s);
    }
    StrangerBringsBack(a, b, s);
    text, secrets := a + (Stranger(|s|) + b), [s, Stranger(|s|)];
  }

  lemma {:induction false} NotInStranger(s: string)
    requires s != "" && Contains(MARK, s)
    ensures !Contains(Stranger(|s|), s)
  {
    MarkHasNoStrangers();
    var k :| 0 <= k <= |MARK| && OccursAt(MARK, s, k);
    assert MARK[k] == s[0];
    forall i | 0 <= i <= |Stranger(|s|)| ensures !OccursAt(Stranger(|s|), s, i) {
      assert i < |Stranger(|s|)| ==> Stranger(|s|)[i] == 'y' || Stranger(|s|)[i] == 'z';
    }
  }

  lemma {:induction false} NotAroundStranger(a: string, b: string, s: string)
    requires s == a + MARK + b
    ensures !Contains(a + (Stranger(|s|) + b), s)
  {
    MarkHasNoStrangers();
    var t := Stranger(|s|);
    var text := a + (t + b);
    assert s[|a|] == MARK[0];
    forall i | 0 <= i <= |text| ensures !OccursAt(text, s, i) {
      var k := i + |a|;
      assert i <= |text| - |s| ==> |a| <= k < |a| + |t| && (text[k] == 'y' || text[k] == 'z');
    }
  }

  lemma {:induction false} NotEndingInStranger(a: string, s: string, n: nat)
    requires 1 <= n < |s| && n < |MARK| && s[|s| - n..] == MARK[..n] && a == s[..|s| - n]
    ensures !Contains(a + (Stranger(|s|) + ""), s)
  {
    MarkHasNoStrangers();
    var text := a + (Stranger(|s|) + "");
    assert s[|s| - n..][n - 1] == s[|s| - 1];
    assert s[|s| - 1] == MARK[n - 1];
    forall i | 0 <= i <= |text| ensures !OccursAt(text, s, i) {
      var k := i + |s| - 1;
      assert k < |text| ==> text[k] == 'y' || text[k] == 'z';
    }
  }

  lemma {:induction false} NotStartingInStranger(b: string, s: string, n: nat)
    requires 1 <= n < |s| && n < |MARK| && MARK[|MARK| - n..] == s[..n] && b == s[n..]
    ensures !Contains("" + (Stranger(|s|) + b), s)
  {
    MarkHasNoStrangers();
    var text := "" + (Stranger(|s|) + b);
    assert MARK[|MARK| - n..][0] == s[0];
    assert MARK[|MARK| - n] == s[0];
    forall i | 0 <= i <= |text| ensures !OccursAt(text, s, i) {
      assert i <= |text| - |s| ==> text[i] == 'y' || text[i] == 'z';
    }
  }

  /** A secret is always removed, from any text and beside any other secrets, exactly when it shares no text with the
      marker. */
  lemma {:induction false} RedactionIsComplete(s: string)
    requires |s| >= 8
    ensures (forall text, secrets | s in secrets :: !Leaks(text, secrets, s)) <==> !Overlaps(s, MARK)
  {
    if Overlaps(s, MARK) {
      var text, secrets := OverlapBringsBack(s);
    } else {
      forall text, secrets | s in secrets ensures !Leaks(text, secrets, s) {
        RedactedIsGone(text, secrets, s);
      }
    }
  }

  /** Secrets without brackets are safe, unless they are most of the marker's word. */
  lemma {:induction false} PlainSecretsAreSafe(s: string)
    requires |s| >= SHORTEST && '[' !in s && ']' !in s && !Contains("redactado", s)
    ensures !Overlaps(s, MARK)
  {
    assert MARK == "[" + "redactado" + "]";
    assert !Contains(MARK, s) by {
      forall i | 0 <= i <= |MARK| ensures !OccursAt(MARK, s, i) {
        if OccursAt(MARK, s, i) {
          InsideBrackets(s, i);
        }
      }
    }
    forall i | 0 <= i <= |s| ensures !OccursAt(s, MARK, i) {
      assert i <= |s| - |MARK| ==> s[i] != MARK[0];
    }
    forall n | 1 <= n < |s| && n < |MARK| ensures s[|s| - n..] != MARK[..n] {
      assert s[|s| - n..][0] == s[|s| - n] && MARK[..n][0] == '[';
    }
    forall n | 1 <= n < |MARK| && n < |s| ensures MARK[|MARK| - n..] != s[..n] {
      assert MARK[|MARK| - n..][n - 1] == ']' && s[..n][n - 1] == s[n - 1];
    }
  }

  lemma {:induction false} InsideBrackets(s: string, i: nat)
    requires s != "" && '[' !in s && ']' !in s && OccursAt(MARK, s, i)
    ensures Contains("redactado", s)
  {
    assert MARK[0] == '[' && MARK[10] == ']';
    assert i >= 1;
    assert i + |s| <= 10;
    assert "redactado" == MARK[1..10];
    assert "redactado"[i - 1..i - 1 + |s|] == MARK[i..i + |s|];
    ContainsAt("redactado", s, i - 1);
  }
}
