/** Money as decimal text: seven decimals, exact, never through a float. */
module Decimal {
  import opened Results
  import opened Text

  const SCALE := 10_000_000

  // ---------------------------------------------------------------- digits

  predicate IsDigit(c: char) {
    '0' <= c <= '9'
  }

  predicate AllDigits(s: string) {
    forall i | 0 <= i < |s| :: IsDigit(s[i])
  }

  function DigitOf(c: char): nat
    requires IsDigit(c)
  {
    c as int - '0' as int
  }

  function DigitChar(d: nat): (c: char)
    requires d < 10
    ensures IsDigit(c) && DigitOf(c) == d
  {
    (d + '0' as int) as char
  }

  function Pow10(k: nat): (p: nat)
    ensures p >= 1
  {
    if k == 0 then 1 else 10 * Pow10(k - 1)
  }

  /** `BigInt(digits)`; the empty text reads 0. */
  function Value(s: string): nat
    requires AllDigits(s)
  {
    if s == "" then 0 else 10 * Value(s[..|s| - 1]) + DigitOf(s[|s| - 1])
  }

  /** `n.toString()` of a natural number. */
  function NatText(n: nat): (s: string)
    ensures s != "" && AllDigits(s)
  {
    if n < 10 then [DigitChar(n)] else NatText(n / 10) + [DigitChar(n % 10)]
  }

  function IntText(n: int): string {
    if n < 0 then "-" + NatText(-n) else NatText(n)
  }

  function Repeat(c: char, n: nat): (s: string)
    ensures |s| == n && forall i | 0 <= i < n :: s[i] == c
  {
    seq(n, _ => c)
  }

  function PadStart(s: string, n: nat): (r: string)
    ensures |r| == if |s| < n then n else |s|
  {
    if |s| < n then Repeat('0', n - |s|) + s else s
  }

  function PadEnd(s: string, n: nat): (r: string)
    ensures |r| == if |s| < n then n else |s|
  {
    if |s| < n then s + Repeat('0', n - |s|) else s
  }

  lemma {:induction false} ValueOfNatText(n: nat)
    ensures Value(NatText(n)) == n
  {
    if n < 10 {
      assert NatText(n)[..0] == "";
    } else {
      ValueOfNatText(n / 10);
      assert NatText(n)[..|NatText(n)| - 1] == NatText(n / 10);
    }
  }

  lemma {:induction false} NatTextLength(n: nat, k: nat)
    requires k >= 1 && n < Pow10(k)
    ensures |NatText(n)| <= k
  {
    if n >= 10 {
      assert Pow10(1) == 10 * Pow10(0) == 10;
      NatTextLength(n / 10, k - 1);
    }
  }

  lemma {:induction false} ValueBelow(s: string)
    requires AllDigits(s)
    ensures Value(s) < Pow10(|s|)
  {
    if s != "" {
      ValueBelow(s[..|s| - 1]);
    }
  }

  lemma {:induction false} ValueOfZeros(n: nat, s: string)
    requires AllDigits(s)
    ensures Value(Repeat('0', n) + s) == Value(s)
    decreases |s|, n
  {
    var text := Repeat('0', n) + s;
    if s == "" {
      if n > 0 {
        assert text[..n - 1] == Repeat('0', n - 1) + "";
        ValueOfZeros(n - 1, "");
      }
    } else {
      assert text[..|text| - 1] == Repeat('0', n) + s[..|s| - 1];
      ValueOfZeros(n, s[..|s| - 1]);
    }
  }

  lemma {:induction false} LastDigit(s: string)
    requires s != "" && AllDigits(s)
    ensures Value(s) / 10 == Value(s[..|s| - 1]) && Value(s) % 10 == DigitOf(s[|s| - 1])
    ensures DigitChar(DigitOf(s[|s| - 1])) == s[|s| - 1]
    ensures Value(s) >= 10 ==> NatText(Value(s)) == NatText(Value(s[..|s| - 1])) + [s[|s| - 1]]
    ensures Value(s) < 10 ==> NatText(Value(s)) == [s[|s| - 1]] && Value(s[..|s| - 1]) == 0
  {
  }

  /** Digits are the number they denote, padded back to their length. */
  lemma {:induction false} DigitsPadBack(s: string)
    requires s != "" && AllDigits(s)
    ensures PadStart(NatText(Value(s)), |s|) == s
    ensures |s| == 1 || s[0] != '0' ==> NatText(Value(s)) == s
  {
    var n := |s| - 1;
    LastDigit(s);
    if n == 0 {
      assert s[..0] == "";
      assert s == [s[0]];
    } else {
      var front := s[..n];
      DigitsPadBack(front);
      assert s == front + [s[n]];
      var v := NatText(Value(front));
      if Value(s) < 10 {
        assert front == Repeat('0', n - 1) + "0" == Repeat('0', n);
      } else if |v| < n {
        ConcatAssoc(Repeat('0', n - |v|), v, [s[n]]);
      }
    }
  }

  // ---------------------------------------------------------------- amounts

  /** Division of big integers drops the fraction, whatever the sign; the remainder keeps the dividend's sign. */
  function Quotient(n: int, d: int): int
    requires d > 0
  {
    if n >= 0 then n / d else -(-n / d)
  }

  function Remainder(n: int, d: int): int
    requires d > 0
  {
    n - d * Quotient(n, d)
  }

  function FromUnits(units: int): string {
    IntText(Quotient(units, SCALE)) + "." + PadStart(IntText(Remainder(units, SCALE)), 7)
  }

  function FormatScaled(amount: int): string {
    var absolute := if amount < 0 then -amount else amount;
    (if amount < 0 then "-" else "") + NatText(absolute / SCALE) + "." + PadStart(NatText(absolute % SCALE), 7)
  }

  /** How many digits the text starts with. */
  function DigitRun(s: string): (n: nat)
    ensures n <= |s| && AllDigits(s[..n]) && (n < |s| ==> !IsDigit(s[n]))
  {
    if s == "" || !IsDigit(s[0]) then 0
    else
      var n := 1 + DigitRun(s[1..]);
      assert forall i | 0 < i < n :: s[i] == s[1..][..n - 1][i - 1];
      n
  }

  /** An amount's text: digits, then perhaps a point and more digits. */
  datatype Amount = Amount(whole: string, fraction: Option<string>)

  function Decimals(a: Amount): string {
    match a.fraction
    case None => ""
    case Some(f) => f
  }

  /** The amount a text spells; `least` and `most` bound the digits after a point. */
  function MatchAmount(s: string, least: nat, most: nat): (m: Option<Amount>)
    ensures m.Some? ==> Spells(m.value, s)
  {
    var n := DigitRun(s);
    if n == 0 then None
    else if n == |s| then Some(Amount(s, None))
    else if s[n] == '.' && AllDigits(s[n + 1..]) && least <= |s[n + 1..]| <= most then
      assert s == s[..n] + "." + s[n + 1..];
      Some(Amount(s[..n], Some(s[n + 1..])))
    else None
  }

  predicate Spells(a: Amount, s: string) {
    && a.whole != "" && AllDigits(a.whole)
    && match a.fraction
       case None => s == a.whole
       case Some(f) => AllDigits(f) && s == a.whole + "." + f
  }

  /** The matcher finds the only reading a text has. */
  lemma {:induction false} SpellingIsFound(a: Amount, s: string, least: nat, most: nat)
    requires Spells(a, s) && (a.fraction.Some? ==> least <= |a.fraction.value| <= most)
    ensures MatchAmount(s, least, most) == Some(a)
  {
    var n := DigitRun(s);
    assert s[..|a.whole|] == a.whole;
    assert forall i | 0 <= i < |a.whole| :: s[i] == a.whole[i];
    assert |a.whole| < |s| ==> s[|a.whole|] == '.';
    assert forall i | 0 <= i < n :: IsDigit(s[..n][i]) && s[..n][i] == s[i];
    assert n == |a.whole|;
    if a.fraction.Some? {
      assert s[n + 1..] == a.fraction.value;
    }
  }

  function ToUnits(value: string): (r: Result<nat, string>) {
    match MatchAmount(value, 1, 7)
    case None => Err("InvalidAmount")
    case Some(a) => Ok(UnitsOf(a))
  }

  function UnitsOf(a: Amount): nat
    requires AllDigits(a.whole) && (a.fraction.Some? ==> AllDigits(a.fraction.value))
  {
    Value(a.whole) * SCALE + Value(PadEnd(Decimals(a), 7))
  }

  function ParseScaled(amount: string): (r: Result<nat, string>) {
    match MatchAmount(amount, 7, 7)
    case None => Err("invalid scaled amount")
    case Some(a) =>
      if a.fraction.None? then Err("invalid scaled amount")
      else Ok(Value(a.whole) * SCALE + Value(a.fraction.value))
  }

  /** The fraction up to its last digit other than zero. */
  function TrimZeros(s: string): (r: string)
    ensures |r| <= |s| && r == s[..|r|] && (forall i | |r| <= i < |s| :: s[i] == '0')
    ensures r != "" ==> r[|r| - 1] != '0'
  {
    if s != "" && s[|s| - 1] == '0' then TrimZeros(s[..|s| - 1]) else s
  }

  function UpToPoint(s: string): (r: string) {
    if s == "" || s[0] == '.' then "" else [s[0]] + UpToPoint(s[1..])
  }

  /** What follows the first point, up to the next. */
  function AfterPoint(s: string): string {
    if s == "" then "" else if s[0] == '.' then UpToPoint(s[1..]) else AfterPoint(s[1..])
  }

  function DisplayAmount(amount: string): string {
    UpToPoint(amount) + "." + PadEnd(TrimZeros(AfterPoint(amount)), 2)
  }

  // ---------------------------------------------------------------- exactness

  lemma {:induction false} SplitAtPoint(a: string, b: string)
    requires AllDigits(a) && AllDigits(b)
    ensures UpToPoint(a) == a && AfterPoint(a) == ""
    ensures UpToPoint(a + "." + b) == a && AfterPoint(a + "." + b) == b
    decreases |a| + |b|, |b|
  {
    if a == "" {
      assert ("" + "." + b)[1..] == b;
      if b != "" {
        SplitAtPoint(b, "");
      }
    } else {
      SplitAtPoint(a[1..], b);
      assert (a + "." + b)[1..] == a[1..] + "." + b;
    }
  }

  function AmountOf(units: nat): (a: Amount)
    ensures Spells(a, FromUnits(units)) && a.fraction.Some? && |a.fraction.value| == 7
    ensures Value(a.whole) == units / SCALE && Value(a.fraction.value) == units % SCALE
  {
    var rest := NatText(units % SCALE);
    assert Pow10(7) == SCALE;
    NatTextLength(units % SCALE, 7);
    ValueOfNatText(units / SCALE);
    ValueOfNatText(units % SCALE);
    ValueOfZeros(7 - |rest|, rest);
    assert Repeat('0', 0) + rest == rest;
    Amount(NatText(units / SCALE), Some(PadStart(rest, 7)))
  }

  /** What is printed reads back, through either reader. */
  lemma {:induction false} UnitsRoundTrip(units: nat)
    ensures ToUnits(FromUnits(units)) == Ok(units)
    ensures ParseScaled(FromUnits(units)) == Ok(units)
  {
    hide NatText, Value, MatchAmount, FromUnits, AmountOf;
    var a := AmountOf(units);
    SpellingIsFound(a, FromUnits(units), 1, 7);
    SpellingIsFound(a, FromUnits(units), 7, 7);
  }

  lemma {:induction false} PrintersAgreeAboveZero(n: nat)
    ensures FormatScaled(n) == FromUnits(n)
  {
    var whole, decimals := NatText(n / SCALE), PadStart(NatText(n % SCALE), 7);
    assert Quotient(n, SCALE) == n / SCALE && Remainder(n, SCALE) == n % SCALE;
    assert "" + whole == whole;
    assert FromUnits(n) == whole + "." + decimals;
  }

  lemma {:induction false} PrintersAgreeOnWhole(n: int)
    requires n < 0 && -n % SCALE == 0
    ensures FormatScaled(n) == FromUnits(n)
  {
    assert Remainder(n, SCALE) == 0;
  }

  /** Both printers agree digit for digit, except below zero, and there on whole amounts. */
  lemma {:induction false} PrintersAgree(n: int)
    ensures FormatScaled(n) == FromUnits(n) <==> n >= 0 || -n % SCALE == 0
  {
    if n >= 0 {
      PrintersAgreeAboveZero(n);
    } else if -n % SCALE == 0 {
      PrintersAgreeOnWhole(n);
    } else {
      assert Remainder(n, SCALE) == -(-n % SCALE);
      SignInside(n, -n % SCALE);
    }
  }

  /** A negative remainder leaves its sign among the decimals, where a scaled amount has only digits. */
  lemma {:induction false} SignInside(n: int, r: int)
    requires n < 0 && Remainder(n, SCALE) == -r && r > 0
    ensures FormatScaled(n) != FromUnits(n)
  {
    var text := FromUnits(n);
    var whole, decimals := IntText(Quotient(n, SCALE)), PadStart(IntText(-r), 7);
    var sign := if |IntText(-r)| < 7 then 7 - |IntText(-r)| else 0;
    assert decimals[sign] == '-';
    assert text[|whole| + 1 + sign] == '-';
    forall i | 0 < i < |FormatScaled(n)| ensures FormatScaled(n)[i] != '-' {
    }
  }

  lemma {:induction false} ScaledRoundTrip(amount: int)
    ensures ParseScaled(FormatScaled(amount)) == if amount >= 0 then Ok(amount) else Err("invalid scaled amount")
  {
    if amount >= 0 {
      PrintersAgree(amount);
      UnitsRoundTrip(amount);
    } else {
      assert FormatScaled(amount)[0] == '-';
    }
  }

  lemma {:induction false} ZerosPadBack(f: string)
    requires AllDigits(f) && |f| <= 7
    ensures AllDigits(PadEnd(TrimZeros(f), 2)) && 2 <= |PadEnd(TrimZeros(f), 2)| <= 7
    ensures PadEnd(PadEnd(TrimZeros(f), 2), 7) == PadEnd(f, 7)
  {
  }

  /** Shortening an amount for reading never changes what it is worth. */
  lemma {:induction false} DisplayKeepsValue(amount: string)
    requires ToUnits(amount).Ok?
    ensures ToUnits(DisplayAmount(amount)) == ToUnits(amount)
  {
    var a := MatchAmount(amount, 1, 7).value;
    var f := Decimals(a);
    SplitAtPoint(a.whole, f);
    var shown := PadEnd(TrimZeros(f), 2);
    ZerosPadBack(f);
    var b := Amount(a.whole, Some(shown));
    assert DisplayAmount(amount) == a.whole + "." + shown;
    SpellingIsFound(b, DisplayAmount(amount), 1, 7);
    assert UnitsOf(b) == UnitsOf(a);
  }

  /** The scaled reader accepts exactly the amounts with seven decimals, and reads them as the other does. */
  lemma {:induction false} ScaledIsStricter(amount: string)
    ensures ParseScaled(amount).Ok? <==> ToUnits(amount).Ok? && |AfterPoint(amount)| == 7
    ensures ParseScaled(amount).Ok? ==> ParseScaled(amount) == ToUnits(amount)
  {
    var loose := MatchAmount(amount, 1, 7);
    if loose.Some? {
      var a := loose.value;
      SplitAtPoint(a.whole, Decimals(a));
      assert AfterPoint(amount) == Decimals(a);
      if |Decimals(a)| == 7 {
        SpellingIsFound(a, amount, 7, 7);
        assert PadEnd(Decimals(a), 7) == Decimals(a);
      }
    }
  }

  predicate Canonical(amount: string) {
    var a := MatchAmount(amount, 7, 7);
    a.Some? && a.value.fraction.Some? && (|a.value.whole| == 1 || a.value.whole[0] != '0')
  }

  /** Reading then printing gives the text back exactly for amounts written with seven decimals and no leading zero. */
  lemma {:induction false} PrintedAgain(amount: string)
    requires ToUnits(amount).Ok?
    ensures FromUnits(ToUnits(amount).value) == amount <==> Canonical(amount)
  {
    var units := ToUnits(amount).value;
    var a := MatchAmount(amount, 1, 7).value;
    if Canonical(amount) {
      var f := a.fraction.value;
      assert PadEnd(f, 7) == f;
      ValueBelow(f);
      assert Pow10(7) == SCALE;
      assert units / SCALE == Value(a.whole) && units % SCALE == Value(f);
      DigitsPadBack(a.whole);
      DigitsPadBack(f);
    } else if FromUnits(units) == amount {
      var b := AmountOf(units);
      SpellingIsFound(b, amount, 7, 7);
      NoLeadingZero(units / SCALE);
      assert false;
    }
  }

  lemma {:induction false} NoLeadingZero(n: nat)
    ensures |NatText(n)| == 1 || NatText(n)[0] != '0'
    ensures n > 0 ==> NatText(n)[0] != '0'
  {
    if n >= 10 {
      NoLeadingZero(n / 10);
    }
  }
}
