/** The folder of numbered verdicts: which of its names sorts last. */
module VerdictFolder {
  import opened Decimal
  import opened Text

  const HASH_LENGTH := 64

  /** `String(n).padStart(3, "0")`. */
  function Number(n: nat): (s: string)
    ensures s != "" && AllDigits(s)
  {
    PadStart(NatText(n), 3)
  }

  function Name(n: nat, hash: string): string {
    Number(n) + ("-" + (hash + ".json"))
  }

  predicate EndsWith(s: string, ending: string) {
    |ending| <= |s| && s[|s| - |ending|..] == ending
  }

  /** Texts that start with as many characters each are ordered by those first, then by what follows. */
  lemma {:induction false} LessInTwo(a: string, x: string, b: string, y: string)
    requires |a| == |b|
    ensures Less(a + x, b + y) <==> Less(a, b) || (a == b && Less(x, y))
  {
    if a == "" {
      assert a + x == x && b + y == y;
    } else {
      assert (a + x)[1..] == a[1..] + x && (b + y)[1..] == b[1..] + y;
      LessInTwo(a[1..], x, b[1..], y);
      assert a == [a[0]] + a[1..] && b == [b[0]] + b[1..];
    }
  }

  /** Digits in equal number are ordered as the numbers they spell. */
  lemma {:induction false} DigitsInOrder(a: string, b: string)
    requires AllDigits(a) && AllDigits(b) && |a| == |b|
    ensures Less(a, b) <==> Value(a) < Value(b)
    ensures a == b <==> Value(a) == Value(b)
  {
    if a != "" {
      var n := |a| - 1;
      DigitsInOrder(a[..n], b[..n]);
      assert a == a[..n] + [a[n]] && b == b[..n] + [b[n]];
      LessInTwo(a[..n], [a[n]], b[..n], [b[n]]);
    }
  }

  lemma {:induction false} PowersMultiply(i: nat, j: nat)
    ensures Pow10(i + j) == Pow10(i) * Pow10(j)
  {
    if i > 0 {
      PowersMultiply(i - 1, j);
      assert 10 * (Pow10(i - 1) * Pow10(j)) == (10 * Pow10(i - 1)) * Pow10(j);
    }
  }

  lemma {:induction false} AtMostIfMultiples(d: nat, a: nat, b: nat)
    requires d * a < d * (b + 1)
    ensures a <= b
  {
  }

  lemma {:induction false} QuotientIs(n: nat, d: nat, q: nat)
    requires d > 0 && d * q <= n < d * q + d
    ensures n / d == q
  {
    var r := n % d;
    assert n == d * (n / d) + r;
    assert d * (q + 1) == d * q + d;
    AtMostIfMultiples(d, n / d, q);
    AtMostIfMultiples(d, q, n / d);
  }

  lemma {:induction false} OneMoreDigit(v: nat, digit: nat, p: nat)
    requires digit < 10 && p > 0
    ensures (10 * v + digit) / (10 * p) == v / p
  {
    var q, r := v / p, v % p;
    assert v == p * q + r;
    assert (10 * p) * q == 10 * (p * q);
    QuotientIs(10 * v + digit, 10 * p, q);
  }

  /** The first digits of a number are its quotient. */
  lemma {:induction false} FirstDigits(s: string, m: nat)
    requires AllDigits(s) && m <= |s|
    ensures Value(s[..m]) == Value(s) / Pow10(|s| - m)
    decreases |s|
  {
    if m == |s| {
      assert s[..m] == s;
    } else {
      var front, p := s[..|s| - 1], Pow10(|s| - 1 - m);
      FirstDigits(front, m);
      assert front[..m] == s[..m];
      OneMoreDigit(Value(front), DigitOf(s[|s| - 1]), p);
    }
  }

  lemma {:induction false} LengthOfNumber(n: nat, d: nat)
    requires d >= 1 && n < Pow10(d) && (d == 1 || Pow10(d - 1) <= n)
    ensures |NatText(n)| == d
  {
    if d == 1 {
      assert Pow10(1) == 10 * Pow10(0);
    } else {
      if d == 2 {
        assert Pow10(1) == 10 * Pow10(0);
      } else {
        assert Pow10(d - 1) == 10 * Pow10(d - 2);
      }
      LengthOfNumber(n / 10, d - 1);
    }
  }

  lemma {:induction false} NumberBelow(n: nat)
    ensures n < Pow10(|NatText(n)|) && (n > 0 ==> Pow10(|NatText(n)| - 1) <= n)
  {
    if n < 10 {
      assert Pow10(1) == 10 * Pow10(0);
    } else {
      NumberBelow(n / 10);
    }
  }

  function Width(n: nat): nat {
    |Number(n)|
  }

  lemma {:induction false} WidthOfNumber(n: nat)
    ensures Value(Number(n)) == n && 3 <= Width(n) && n < Pow10(Width(n))
    ensures n > 999 ==> Width(n) > 3 && Pow10(Width(n) - 1) <= n
    ensures n <= 999 ==> Width(n) == 3
  {
    assert Pow10(3) == 1000;
    ValueOfNatText(n);
    NumberBelow(n);
    if |NatText(n)| < 3 {
      ValueOfZeros(3 - |NatText(n)|, NatText(n));
    }
    if n <= 999 {
      NatTextLength(n, 3);
    } else if |NatText(n)| <= 3 {
      PowersGrow(|NatText(n)|, 3);
      assert false;
    }
  }

  lemma {:induction false} PowersGrow(i: nat, j: nat)
    requires i <= j
    ensures Pow10(i) <= Pow10(j)
  {
    if i < j {
      PowersGrow(i, j - 1);
    }
  }

  function Rest(hash: string): (r: string)
    ensures r != "" && r[0] == '-'
  {
    "-" + (hash + ".json")
  }

  /** A name, cut inside its number. */
  lemma {:induction false} NameCut(n: nat, hash: string, m: nat)
    requires m <= Width(n)
    ensures Name(n, hash) == Number(n)[..m] + (Number(n)[m..] + Rest(hash))
    ensures AllDigits(Number(n)[..m]) && Value(Number(n)[..m]) == n / Pow10(Width(n) - m)
    ensures m < Width(n) ==> IsDigit((Number(n)[m..] + Rest(hash))[0])
  {
    WidthOfNumber(n);
    FirstDigits(Number(n), m);
    assert Number(n) == Number(n)[..m] + Number(n)[m..];
    if m < Width(n) {
      assert (Number(n)[m..] + Rest(hash))[0] == Number(n)[m];
    }
    ConcatAssoc(Number(n)[..m], Number(n)[m..], Rest(hash));
  }

  /** Numbers written as wide sort by value; a narrower one sorts first when it is at most the wider's first digits. */
  lemma {:induction false} NamesInOrder(k: nat, n: nat, hk: string, hn: string)
    requires k != n && Width(k) <= Width(n)
    ensures Less(Name(k, hk), Name(n, hn)) <==> k <= n / Pow10(Width(n) - Width(k))
  {
    WidthOfNumber(k);
    WidthOfNumber(n);
    var m := Width(k);
    NameCut(n, hn, m);
    DigitsInOrder(Number(k), Number(n)[..m]);
    LessInTwo(Number(k), Rest(hk), Number(n)[..m], Number(n)[m..] + Rest(hn));
    if m == Width(n) {
      assert n / Pow10(0) == n;
    }
  }

  /** The numbers whose name sorts after every earlier one's. */
  predicate SortsLast(n: nat) {
    n <= 999 || n >= Pow10(Width(n)) - 10
  }

  function Names(hashes: seq<string>): set<string> {
    set i | 0 <= i < |hashes| :: Name(i + 1, hashes[i])
  }

  /** `sort().at(-1)`. */
  predicate IsLast(names: set<string>, name: string) {
    name in names && forall other | other in names :: other == name || Less(other, name)
  }

  lemma {:induction false} EarlierSortsBefore(k: nat, n: nat, hk: string, hn: string)
    requires 0 < k < n && SortsLast(n)
    ensures Less(Name(k, hk), Name(n, hn))
  {
    WidthOfNumber(k);
    WidthOfNumber(n);
    if Width(k) > Width(n) {
      PowersGrow(Width(n), Width(k) - 1);
      assert false;
    }
    NamesInOrder(k, n, hk, hn);
    var gap := Width(n) - Width(k);
    if gap == 0 {
      assert n / Pow10(0) == n;
    } else {
      PowersMultiply(Width(k), gap);
      assert Pow10(gap) == 10 * Pow10(gap - 1);
      MultipleBelow(k, Pow10(Width(k)), Pow10(gap), n);
    }
  }

  lemma {:induction false} MultipleBelow(k: nat, q: nat, p: nat, n: nat)
    requires p >= 10 && k < q && n >= q * p - 10
    ensures k <= n / p
  {
    assert (k + 1) * p <= q * p;
    assert k * p <= n;
    assert n == p * (n / p) + n % p;
    AtMostIfMultiples(p, k, n / p);
  }

  /** The number of nines just below `n`'s width. */
  function Nines(n: nat): (k: nat)
    requires n > 999
    ensures 0 < k < n
  {
    WidthOfNumber(n);
    assert Pow10(Width(n) - 1) > 1 by {
      PowersGrow(3, Width(n) - 1);
      assert Pow10(3) == 1000;
    }
    Pow10(Width(n) - 1) - 1
  }

  lemma {:induction false} NinesWidth(n: nat)
    requires n > 999
    ensures Width(Nines(n)) == Width(n) - 1 && SortsLast(Nines(n)) && Nines(n) >= 999
  {
    WidthOfNumber(n);
    var d, k := Width(n), Nines(n);
    assert Pow10(3) == 1000 && Pow10(d - 1) == 10 * Pow10(d - 2);
    PowersGrow(3, d - 1);
    LengthOfNumber(k, d - 1);
  }

  /** Past 999, the nines hide every number of the next width that does not start with as many nines. */
  lemma {:induction false} NinesSortAfter(m: nat, n: nat, hk: string, hm: string)
    requires n > 999 && !SortsLast(n) && Nines(n) < m <= n
    ensures Less(Name(m, hm), Name(Nines(n), hk))
  {
    WidthOfNumber(n);
    WidthOfNumber(m);
    NinesWidth(n);
    var d, k := Width(n), Nines(n);
    if Width(m) > d {
      PowersGrow(d, Width(m) - 1);
      assert false;
    }
    if Width(m) < d {
      PowersGrow(Width(m), d - 1);
      assert false;
    }
    NamesInOrder(k, m, hk, hm);
    assert Pow10(1) == 10 * Pow10(0) && Pow10(d) == 10 * Pow10(d - 1);
    LessTotal(Name(k, hk), Name(m, hm));
    assert Name(k, hk)[d - 1] == '-';
    assert Name(m, hm)[d - 1] == Number(m)[d - 1];
  }

  /** Whose name sorts last among `n` verdicts. */
  function LastNumber(n: nat): (k: nat)
    requires n > 0
    ensures 0 < k <= n
  {
    if SortsLast(n) then n else Nines(n)
  }

  /** The name that sorts last is the newest verdict's exactly up to 999 of them, and then only in the last ten before
      the number gains a digit; otherwise it is the one numbered with nines. */
  lemma {:induction false} NameThatSortsLast(hashes: seq<string>)
    requires hashes != []
    ensures IsLast(Names(hashes), Name(LastNumber(|hashes|), hashes[LastNumber(|hashes|) - 1]))
  {
    var n := |hashes|;
    var k := LastNumber(n);
    var last := Name((k - 1) + 1, hashes[k - 1]);
    assert last in Names(hashes);
    forall other | other in Names(hashes) ensures other == last || Less(other, last) {
      var i :| 0 <= i < n && other == Name(i + 1, hashes[i]);
      if i + 1 < k {
        if k < n {
          NinesWidth(n);
        }
        EarlierSortsBefore(i + 1, k, hashes[i], hashes[k - 1]);
      } else if k < i + 1 {
        NinesSortAfter(i + 1, n, hashes[k - 1], hashes[i]);
      }
    }
  }

  lemma {:induction false} LastIsUnique(names: set<string>, a: string, b: string)
    requires IsLast(names, a) && IsLast(names, b)
    ensures a == b
  {
    LessTotal(a, b);
  }

  /** The newest name sorts last if and only if its number is one that does. */
  lemma {:induction false} NewestSortsLastWhen(hashes: seq<string>)
    requires hashes != [] && forall i | 0 <= i < |hashes| :: |hashes[i]| == HASH_LENGTH
    ensures IsLast(Names(hashes), Name(|hashes|, hashes[|hashes| - 1])) <==> SortsLast(|hashes|)
  {
    var n := |hashes|;
    NameThatSortsLast(hashes);
    var k := LastNumber(n);
    if k < n {
      NinesWidth(n);
      assert |Name(k, hashes[k - 1])| < |Name(n, hashes[n - 1])|;
      if IsLast(Names(hashes), Name(n, hashes[n - 1])) {
        LastIsUnique(Names(hashes), Name(k, hashes[k - 1]), Name(n, hashes[n - 1]));
        assert false;
      }
    }
  }

  /** A name ends with a hash's own ending exactly when it carries that hash. */
  lemma {:induction false} NameEndsWith(n: nat, carried: string, hash: string)
    requires |carried| == |hash|
    ensures EndsWith(Name(n, carried), "-" + (hash + ".json")) <==> carried == hash
  {
    var ending := "-" + (carried + ".json");
    assert Name(n, carried)[|Number(n)|..] == ending;
    if ending == "-" + (hash + ".json") {
      assert ending[1..1 + |hash|] == carried && ("-" + (hash + ".json"))[1..1 + |hash|] == hash;
    }
  }

  /** What `execute` asks of the folder: its last name, if any, carries this hash. */
  ghost predicate LatestCarries(names: set<string>, hash: string) {
    forall latest | IsLast(names, latest) :: EndsWith(latest, "-" + (hash + ".json"))
  }

  /** A folder with no names lets every hash through; any other only the hash of the name that sorts last. */
  lemma {:induction false} LatestCarriesWhen(hashes: seq<string>, hash: string)
    requires |hash| == HASH_LENGTH && forall i | 0 <= i < |hashes| :: |hashes[i]| == HASH_LENGTH
    ensures LatestCarries(Names(hashes), hash) <==> hashes == [] || hash == hashes[LastNumber(|hashes|) - 1]
  {
    if hashes == [] {
      return;
    }
    var k := LastNumber(|hashes|);
    var last := Name(k, hashes[k - 1]);
    NameThatSortsLast(hashes);
    NameEndsWith(k, hashes[k - 1], hash);
    forall latest | IsLast(Names(hashes), latest) ensures latest == last {
      LastIsUnique(Names(hashes), latest, last);
    }
  }
}
