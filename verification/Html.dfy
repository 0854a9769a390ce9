/** Escaping text for a page, and reading a page's text back. */
module Html {
  import opened Results
  import opened Text

  // ---------------------------------------------------------------- escaping

  /** Five replacements in a row, the ampersand first. */
  function Escape(value: string): string {
    ReplaceAll(ReplaceAll(ReplaceAll(ReplaceAll(ReplaceAll(value, "&", "&amp;"), "<", "&lt;"), ">", "&gt;"), "\"", "&quot;"), "'", "&#39;")
  }

  function EscapedChar(c: char): string {
    match c
    case '&' => "&amp;"
    case '<' => "&lt;"
    case '>' => "&gt;"
    case '"' => "&quot;"
    case '\'' => "&#39;"
    case _ => [c]
  }

  /** One pass, character by character. */
  function EscapeHtml(value: string): string {
    if value == "" then "" else EscapedChar(value[0]) + EscapeHtml(value[1..])
  }

  lemma {:induction false} ReplaceConcat(a: string, b: string, pattern: char, with: string)
    ensures ReplaceAll(a + b, [pattern], with) == ReplaceAll(a, [pattern], with) + ReplaceAll(b, [pattern], with)
  {
    if a == "" {
      assert a + b == b;
    } else {
      assert a + b == [a[0]] + (a[1..] + b);
      assert a == [a[0]] + a[1..];
      ReplaceChar(a[0], a[1..] + b, pattern, with);
      ReplaceChar(a[0], a[1..], pattern, with);
      ReplaceConcat(a[1..], b, pattern, with);
    }
  }

  lemma {:induction false} ReplaceAbsent(s: string, pattern: char, with: string)
    requires pattern !in s
    ensures ReplaceAll(s, [pattern], with) == s
  {
    if s != "" {
      assert s == [s[0]] + s[1..];
      ReplaceChar(s[0], s[1..], pattern, with);
      ReplaceAbsent(s[1..], pattern, with);
    }
  }

  lemma {:induction false} EscapeConcat(a: string, b: string)
    ensures Escape(a + b) == Escape(a) + Escape(b)
  {
    ReplaceConcat(a, b, '&', "&amp;");
    var a1, b1 := ReplaceAll(a, "&", "&amp;"), ReplaceAll(b, "&", "&amp;");
    ReplaceConcat(a1, b1, '<', "&lt;");
    var a2, b2 := ReplaceAll(a1, "<", "&lt;"), ReplaceAll(b1, "<", "&lt;");
    ReplaceConcat(a2, b2, '>', "&gt;");
    var a3, b3 := ReplaceAll(a2, ">", "&gt;"), ReplaceAll(b2, ">", "&gt;");
    ReplaceConcat(a3, b3, '"', "&quot;");
    ReplaceConcat(ReplaceAll(a3, "\"", "&quot;"), ReplaceAll(b3, "\"", "&quot;"), '\'', "&#39;");
  }

  /** One pass on a single character: the character's image, left alone by the passes after its own. */
  lemma {:induction false} ReplaceOne(c: char, pattern: char, with: string)
    ensures ReplaceAll([c], [pattern], with) == if c == pattern then with else [c]
  {
    ReplaceChar(c, "", pattern, with);
    assert [c] + "" == [c];
  }

  lemma {:induction false} EscapeAmpersand()
    ensures Escape("&") == "&amp;"
  {
    ReplaceOne('&', '&', "&amp;");
    ReplaceAbsent("&amp;", '<', "&lt;");
    ReplaceAbsent("&amp;", '>', "&gt;");
    ReplaceAbsent("&amp;", '"', "&quot;");
    ReplaceAbsent("&amp;", '\'', "&#39;");
  }

  lemma {:induction false} EscapeLess()
    ensures Escape("<") == "&lt;"
  {
    ReplaceOne('<', '&', "&amp;");
    ReplaceOne('<', '<', "&lt;");
    ReplaceAbsent("&lt;", '>', "&gt;");
    ReplaceAbsent("&lt;", '"', "&quot;");
    ReplaceAbsent("&lt;", '\'', "&#39;");
  }

  lemma {:induction false} EscapeGreater()
    ensures Escape(">") == "&gt;"
  {
    ReplaceOne('>', '&', "&amp;");
    ReplaceOne('>', '<', "&lt;");
    ReplaceOne('>', '>', "&gt;");
    ReplaceAbsent("&gt;", '"', "&quot;");
    ReplaceAbsent("&gt;", '\'', "&#39;");
  }

  lemma {:induction false} EscapeQuote()
    ensures Escape("\"") == "&quot;"
  {
    ReplaceOne('"', '&', "&amp;");
    ReplaceOne('"', '<', "&lt;");
    ReplaceOne('"', '>', "&gt;");
    ReplaceOne('"', '"', "&quot;");
    ReplaceAbsent("&quot;", '\'', "&#39;");
  }

  /** The last pass's character, or one that no pass touches. */
  lemma {:induction false} EscapeOther(c: char)
    requires c !in "&<>\""
    ensures Escape([c]) == EscapedChar(c)
  {
    ReplaceOne(c, '&', "&amp;");
    ReplaceOne(c, '<', "&lt;");
    ReplaceOne(c, '>', "&gt;");
    ReplaceOne(c, '"', "&quot;");
    ReplaceOne(c, '\'', "&#39;");
  }

  lemma {:induction false} EscapeOne(c: char)
    ensures Escape([c]) == EscapedChar(c)
  {
    match c
    case '&' => EscapeAmpersand();
    case '<' => EscapeLess();
    case '>' => EscapeGreater();
    case '"' => EscapeQuote();
    case _ => EscapeOther(c);
  }

  /** The five passes and the one pass write the same text. */
  lemma {:induction false} EscapesAgree(value: string)
    ensures Escape(value) == EscapeHtml(value)
  {
    if value != "" {
      assert value == [value[0]] + value[1..];
      EscapeConcat([value[0]], value[1..]);
      EscapeOne(value[0]);
      EscapesAgree(value[1..]);
    }
  }

  // ---------------------------------------------------------------- unescaping

  /** Entities and the characters they stand for. */
  type Table = seq<(string, char)>

  const ENTITIES: Table := [("&amp;", '&'), ("&lt;", '<'), ("&gt;", '>'), ("&quot;", '"'), ("&#39;", '\''), ("&#x27;", '\'')]

  /** An entity starts with its only ampersand, ends with a semicolon, and is no beginning of another. */
  predicate GoodTable(t: Table) {
    && (forall i | 0 <= i < |t| :: GoodEntity(t[i].0) && t[i].1 in "&<>\"'")
    && (forall i, j | 0 <= i < |t| && 0 <= j < |t| && t[i].0 <= t[j].0 :: i == j)
  }

  predicate GoodEntity(e: string) {
    |e| >= 2 && e[0] == '&' && e[|e| - 1] == ';' && forall k | 1 <= k < |e| :: e[k] !in "&<>\"'"
  }

  /** The first entity of the table a text starts with. */
  function EntityAt(t: Table, s: string): (i: Option<nat>)
    ensures i.Some? ==> i.value < |t| && t[i.value].0 <= s
    ensures i.None? ==> forall j | 0 <= j < |t| :: !(t[j].0 <= s)
  {
    if t == [] then None
    else if t[0].0 <= s then Some(0)
    else match EntityAt(t[1..], s)
      case None => None
      case Some(j) => Some(j + 1)
  }

  /** One pass, leftmost entities first. */
  function Unescaped(t: Table, s: string): string
    requires GoodTable(t)
  {
    if s == "" then ""
    else match EntityAt(t, s)
      case Some(i) => [t[i].1] + Unescaped(t, s[|t[i].0|..])
      case None => [s[0]] + Unescaped(t, s[1..])
  }

  lemma {:induction false} EntitiesAreGood()
    ensures GoodTable(ENTITIES)
  {
    forall i | 0 <= i < |ENTITIES| ensures GoodEntity(ENTITIES[i].0) && ENTITIES[i].1 in "&<>\"'" {
    }
    forall i, j | 0 <= i < |ENTITIES| && 0 <= j < |ENTITIES| && ENTITIES[i].0 <= ENTITIES[j].0 ensures i == j {
      var a, b := ENTITIES[i].0, ENTITIES[j].0;
      assert a[1] == b[1] && a[2] == b[2];
    }
  }

  function UnescapeHtml(s: string): string {
    EntitiesAreGood();
    Unescaped(ENTITIES, s)
  }

  /** Whether a page shows a sentence, compared as text. */
  predicate PageSays(html: string, sentence: string) {
    Contains(UnescapeHtml(html), sentence)
  }

  lemma {:induction false} UnescapedEntity(t: Table, i: nat, rest: string)
    requires GoodTable(t) && i < |t|
    ensures Unescaped(t, t[i].0 + rest) == [t[i].1] + Unescaped(t, rest)
  {
    var s := t[i].0 + rest;
    assert t[i].0 <= s;
    var j := EntityAt(t, s).value;
    assert s[|t[i].0|..] == rest;
  }

  /** The entity each escaped character becomes. */
  predicate EscapesInto(t: Table, c: char)
    requires GoodTable(t)
  {
    if c in "&<>\"'" then exists i | 0 <= i < |t| :: t[i] == (EscapedChar(c), c) else EscapedChar(c) == [c]
  }

  lemma {:induction false} UnescapedStep(t: Table, c: char, rest: string)
    requires GoodTable(t) && EscapesInto(t, c)
    ensures Unescaped(t, EscapedChar(c) + rest) == [c] + Unescaped(t, rest)
  {
    if c in "&<>\"'" {
      var i :| 0 <= i < |t| && t[i] == (EscapedChar(c), c);
      UnescapedEntity(t, i, rest);
    } else {
    }
  }

  lemma {:induction false} EntityRows()
    ensures ENTITIES[0] == (EscapedChar('&'), '&') && ENTITIES[1] == (EscapedChar('<'), '<')
    ensures ENTITIES[2] == (EscapedChar('>'), '>')
    ensures ENTITIES[3] == (EscapedChar('"'), '"') && ENTITIES[4] == (EscapedChar('\''), '\'')
  {
  }

  lemma {:induction false} EntitiesEscape(c: char)
    requires GoodTable(ENTITIES)
    ensures EscapesInto(ENTITIES, c)
  {
    EntityRows();
  }

  lemma {:induction false} EscapeHtmlStep(value: string, post: string)
    requires value != ""
    ensures EscapeHtml(value) + post == EscapedChar(value[0]) + (EscapeHtml(value[1..]) + post)
  {
  }

  lemma {:induction false} UnescapedUndoesEscape(t: Table, value: string, post: string)
    requires GoodTable(t) && forall c: char :: EscapesInto(t, c)
    ensures Unescaped(t, EscapeHtml(value) + post) == value + Unescaped(t, post)
  {
    if value == "" {
      assert EscapeHtml(value) + post == post;
    } else {
      EscapeHtmlStep(value, post);
      UnescapedStep(t, value[0], EscapeHtml(value[1..]) + post);
      UnescapedUndoesEscape(t, value[1..], post);
      FirstAndRest(value);
      ConcatAssoc([value[0]], value[1..], Unescaped(t, post));
    }
  }

  /** Escaped text is read back as itself, whatever follows it. */
  lemma {:induction false} UnescapeUndoesEscape(value: string, post: string)
    ensures UnescapeHtml(EscapeHtml(value) + post) == value + UnescapeHtml(post)
  {
    EntitiesAreGood();
    forall c: char ensures EscapesInto(ENTITIES, c) {
      EntitiesEscape(c);
    }
    UnescapedUndoesEscape(ENTITIES, value, post);
  }

  /** Both ways of escaping are undone. */
  lemma {:induction false} EscapeRoundTrip(value: string)
    ensures UnescapeHtml(Escape(value)) == value && UnescapeHtml(EscapeHtml(value)) == value
  {
    EscapesAgree(value);
    UnescapeUndoesEscape(value, "");
    assert EscapeHtml(value) + "" == EscapeHtml(value);
  }

  // ---------------------------------------------------------------- a page around the text

  /** The text from `k` on is the beginning, but not the whole, of the table's entity `i`. */
  predicate MidEntity(t: Table, pre: string, k: nat, i: nat) {
    k < |pre| && i < |t| && |pre| - k < |t[i].0| && pre[k..] <= t[i].0
  }

  /** The text stops in the middle of an entity. */
  predicate EndsMidEntity(t: Table, pre: string) {
    exists k, i | 0 <= k < |pre| && 0 <= i < |t| :: MidEntity(t, pre, k, i)
  }

  /** Where no entity straddles the seam, the two sides are read apart. */
  lemma {:induction false} UnescapedSeam(t: Table, a: string, b: string)
    requires GoodTable(t)
    requires !EndsMidEntity(t, a) || (b != "" && b[0] == '&')
    ensures Unescaped(t, a + b) == Unescaped(t, a) + Unescaped(t, b)
    decreases |a|
  {
    if a == "" {
      assert a + b == b;
    } else if EntityAt(t, a + b).Some? {
      var i := EntityAt(t, a + b).value;
      if |t[i].0| <= |a| {
        var rest := a[|t[i].0|..];
        EntityInPrefix(t[i].0, a, b);
        MidEntityOfSuffix(t, a, |t[i].0|);
        UnescapedSeam(t, rest, b);
        UnescapedEntity(t, i, rest);
        ConcatAssoc(t[i].0, rest, b);
        UnescapedEntity(t, i, rest + b);
        ConcatAssoc([t[i].1], Unescaped(t, rest), Unescaped(t, b));
      } else {
        StraddlingEntity(t, a, b, i);
      }
    } else {
      assert (a + b)[1..] == a[1..] + b;
      MidEntityOfSuffix(t, a, 1);
      UnescapedSeam(t, a[1..], b);
      ConcatAssoc([a[0]], Unescaped(t, a[1..]), Unescaped(t, b));
    }
  }

  lemma {:induction false} EntityInPrefix(e: string, a: string, b: string)
    requires e <= a + b && |e| <= |a|
    ensures a == e + a[|e|..]
  {
    assert e == (a + b)[..|e|] == a[..|e|];
  }

  /** An entity across the seam starts the left side, and its rest holds no ampersand. */
  lemma {:induction false} StraddlingEntity(t: Table, a: string, b: string, i: nat)
    requires GoodTable(t) && i < |t| && a != "" && |a| < |t[i].0| && t[i].0 <= a + b
    ensures EndsMidEntity(t, a) && b != "" && b[0] != '&'
  {
    var e := t[i].0;
    assert GoodEntity(e);
    assert e[|a|] == (a + b)[|a|] == b[0];
    assert a == e[..|a|];
    assert MidEntity(t, a, 0, i);
  }

  lemma {:induction false} MidEntityOfSuffix(t: Table, a: string, n: nat)
    requires n <= |a|
    ensures EndsMidEntity(t, a[n..]) ==> EndsMidEntity(t, a)
  {
    if EndsMidEntity(t, a[n..]) {
      var k, i :| 0 <= k < |a[n..]| && 0 <= i < |t| && MidEntity(t, a[n..], k, i);
      assert a[n..][k..] == a[n + k..];
      assert MidEntity(t, a, n + k, i);
    }
  }

  lemma {:induction false} PageSaysAfter(pre: string, s: string, post: string)
    requires !EndsMidEntity(ENTITIES, pre)
    ensures PageSays(pre + Escape(s) + post, s)
  {
    EscapesAgree(s);
    ConcatAssoc(pre, EscapeHtml(s), post);
    UnescapeSeam(pre, EscapeHtml(s) + post);
    UnescapeUndoesEscape(s, post);
    ContainsMiddle(UnescapeHtml(pre), s, UnescapeHtml(post));
  }

  lemma {:induction false} UnescapeSeam(a: string, b: string)
    requires !EndsMidEntity(ENTITIES, a)
    ensures UnescapeHtml(a + b) == UnescapeHtml(a) + UnescapeHtml(b)
  {
    EntitiesAreGood();
    UnescapedSeam(ENTITIES, a, b);
  }

  lemma {:induction false} ContainsMiddle(a: string, s: string, b: string)
    ensures Contains(a + (s + b), s)
  {
    assert OccursAt(a + (s + b), s, |a|);
  }

  function Repeat(c: char, n: nat): string {
    seq(n, _ => c)
  }

  lemma {:induction false} EscapePlainText(s: string)
    requires forall k | 0 <= k < |s| :: s[k] !in "&<>\"'"
    ensures EscapeHtml(s) == s
  {
    if s != "" {
      EscapePlainText(s[1..]);
      assert s == [s[0]] + s[1..];
    }
  }

  lemma {:induction false} UnescapedPlainText(t: Table, s: string)
    requires GoodTable(t) && forall k | 0 <= k < |s| :: s[k] != '&'
    ensures Unescaped(t, s) == s
  {
    if s != "" {
      assert s == [s[0]] + s[1..];
      UnescapedPlainText(t, s[1..]);
    }
  }

  /** What is missing of an entity the page stopped in. */
  lemma {:induction false} EntityCompleted(t: Table, pre: string, k: nat, i: nat, zs: string) returns (q: string)
    requires GoodTable(t) && MidEntity(t, pre, k, i)
    ensures q == t[i].0[|pre| - k..] && q != "" && q[|q| - 1] == ';' && GoodEntity(t[i].0)
    ensures pre + (q + zs) == pre[..k] + (t[i].0 + zs)
    ensures forall j | 0 <= j < |q| :: q[j] !in "&<>\"'"
  {
    var e := t[i].0;
    q := e[|pre| - k..];
    assert GoodEntity(e);
    assert pre == pre[..k] + pre[k..] && e == pre[k..] + q;
    ConcatAssoc(pre[..k], pre[k..], q + zs);
    ConcatAssoc(pre[k..], q, zs);
  }

  /** A page that stops in the middle of an entity swallows the start of some sentence: what ends the entity, then a run
      of letters longer than anything else on the page. */
  lemma {:induction false} MidEntityHidesText(t: Table, pre: string, k: nat, i: nat) returns (s: string)
    requires GoodTable(t) && MidEntity(t, pre, k, i)
    ensures !Contains(Unescaped(t, pre + s), s) && EscapeHtml(s) == s
  {
    var e, u := t[i].0, Unescaped(t, pre[..k]);
    var zs := Repeat('z', |u| + 1);
    var q := EntityCompleted(t, pre, k, i, zs);
    s := q + zs;
    EscapePlainText(s);
    assert (e + zs)[0] == '&';
    UnescapedSeam(t, pre[..k], e + zs);
    UnescapedEntity(t, i, zs);
    UnescapedPlainText(t, zs);
    TailIsHidden(u, t[i].1, q, |u| + 1);
    ConcatAssoc(u, [t[i].1], zs);
  }

  /** After `u` and `c`, a run of z's never shows `q` and as many z's again. */
  lemma {:induction false} TailIsHidden(u: string, c: char, q: string, n: nat)
    requires n > |u| && c != 'z' && c != ';' && q != "" && q[|q| - 1] == ';'
    ensures !Contains(u + [c] + Repeat('z', n), q + Repeat('z', n))
  {
    var text, s := u + [c] + Repeat('z', n), q + Repeat('z', n);
    assert text[|u|] == c && s[|q| - 1] == ';';
    forall i | 0 <= i <= |text| ensures !OccursAt(text, s, i) {
      var j := i + |q| - 1;
      assert j < |text| && text[j] == ';' ==> j < |u|;
    }
  }

  /** A page shows every escaped sentence put after `pre` exactly when `pre` does not stop in the middle of an entity. */
  lemma {:induction false} PageSaysWhatWasEscaped(pre: string)
    ensures (forall s, post :: PageSays(pre + Escape(s) + post, s)) <==> !EndsMidEntity(ENTITIES, pre)
  {
    if EndsMidEntity(ENTITIES, pre) {
      EntitiesAreGood();
      var k, i :| 0 <= k < |pre| && 0 <= i < |ENTITIES| && MidEntity(ENTITIES, pre, k, i);
      var s := MidEntityHidesText(ENTITIES, pre, k, i);
      EscapesAgree(s);
      assert pre + Escape(s) + "" == pre + s;
      assert !PageSays(pre + Escape(s) + "", s);
    } else {
      forall s, post ensures PageSays(pre + Escape(s) + post, s) {
        PageSaysAfter(pre, s, post);
      }
    }
  }

  /** A tag before the text is always a safe place to stop. */
  lemma {:induction false} TagEndsCleanly(pre: string)
    requires pre != "" && pre[|pre| - 1] == '>'
    ensures !EndsMidEntity(ENTITIES, pre)
  {
    EntitiesAreGood();
    forall k, i | 0 <= k < |pre| && 0 <= i < |ENTITIES| ensures !MidEntity(ENTITIES, pre, k, i) {
      assert pre[k..][|pre| - 1 - k] == '>';
      assert GoodEntity(ENTITIES[i].0);
    }
  }
}
