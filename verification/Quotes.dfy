/** The quotes handed out and not paid yet: each is paid once, expires, or makes room. */
module Quotes {
  import opened Results

  /** A quote; `reserved` is the budget its signed intent holds until `intentEnds`. */
  datatype Entry = Entry(id: string, reserved: nat, intentEnds: int, expiresAt: int)

  datatype Reason = Expired | Evicted

  /** What becomes of a quote: it is issued and taken at a time, or dropped, which is one `onDrop` call. */
  datatype Mark = Issued(entry: Entry, at: int) | Taken(entry: Entry, at: int) | Dropping(entry: Entry, reason: Reason)

  type Issuing = m: Mark | m.Issued? witness Issued(Entry("", 0, 0, 0), 0)

  type Taking = m: Mark | m.Taken? witness Taken(Entry("", 0, 0, 0), 0)

  type Drop = m: Mark | m.Dropping? witness Dropping(Entry("", 0, 0, 0), Expired)

  datatype Refusal = QuoteNotFound | QuoteExpired

  function Min(a: int, b: int): int {
    if a <= b then a else b
  }

  function Max(a: int, b: int): int {
    if a <= b then b else a
  }

  predicate IsLive(e: Entry, now: int) {
    e.expiresAt > now
  }

  function Live(es: seq<Entry>, now: int): (r: seq<Entry>)
    ensures |r| <= |es|
  {
    if es == [] then [] else (if IsLive(es[0], now) then [es[0]] else []) + Live(es[1..], now)
  }

  function Past(es: seq<Entry>, now: int): seq<Entry> {
    if es == [] then [] else (if IsLive(es[0], now) then [] else [es[0]]) + Past(es[1..], now)
  }

  lemma {:induction false} LiveAreLive(es: seq<Entry>, now: int)
    ensures forall i | 0 <= i < |Live(es, now)| :: IsLive(Live(es, now)[i], now)
  {
    if es != [] {
      LiveAreLive(es[1..], now);
    }
  }

  function Dropped(es: seq<Entry>, reason: Reason): (r: seq<Drop>)
    ensures |r| == |es| && forall i | 0 <= i < |es| :: r[i] == Dropping(es[i], reason)
  {
    seq(|es|, i requires 0 <= i < |es| => Dropping(es[i], reason))
  }

  /** How many make room for one more; all of them when the ceiling leaves no place. */
  function Surplus(size: nat, max: int): (k: nat)
    ensures k <= size
  {
    if size < max then 0 else Min(size, size - max + 1)
  }

  function IndexOf(es: seq<Entry>, id: string): (i: nat)
    ensures i <= |es| && (i < |es| ==> es[i].id == id) && forall j | 0 <= j < i :: es[j].id != id
  {
    if es == [] || es[0].id == id then 0 else 1 + IndexOf(es[1..], id)
  }

  // ---------------------------------------------------------------- what the calls do to the book

  /** The waiting quotes in the order they were issued, and every `onDrop` call so far. */
  datatype Book = Book(waiting: seq<Entry>, drops: seq<Drop>)

  function AfterSweep(b: Book, now: int): Book {
    Book(Live(b.waiting, now), b.drops + Dropped(Past(b.waiting, now), Expired))
  }

  function AfterEviction(b: Book, max: int): Book {
    var k := Surplus(|b.waiting|, max);
    Book(b.waiting[k..], b.drops + Dropped(b.waiting[..k], Evicted))
  }

  function NewEntry(id: string, reserved: nat, intentEnds: int, now: int, ttl: int): Entry {
    Entry(id, reserved, intentEnds, Min(now + ttl, intentEnds))
  }

  function AfterIssue(b: Book, e: Entry, now: int, max: int): Book {
    var room := AfterEviction(AfterSweep(b, now), max);
    room.(waiting := room.waiting + [e])
  }

  function Without(es: seq<Entry>, i: nat): seq<Entry>
    requires i < |es|
  {
    es[..i] + es[i + 1..]
  }

  function AfterTake(b: Book, id: string, now: int): (Book, Result<Entry, Refusal>) {
    var i := IndexOf(b.waiting, id);
    if i == |b.waiting| then (b, Err(QuoteNotFound))
    else
      var e, rest := b.waiting[i], Without(b.waiting, i);
      if IsLive(e, now) then (Book(rest, b.drops), Ok(e))
      else (Book(rest, b.drops + [Dropping(e, Expired)]), Err(QuoteExpired))
  }

  /** A sweep that has looked at the first `i` entries it keeps, and dropped `past`. */
  predicate Sweeping(was: Book, now: int, es: seq<Entry>, drops: seq<Drop>, i: nat, past: seq<Entry>) {
    && i <= |es|
    && es[..i] + Live(es[i..], now) == Live(was.waiting, now)
    && past + Past(es[i..], now) == Past(was.waiting, now)
    && drops == was.drops + Dropped(past, Expired)
  }

  /** An issue that has evicted the first `k` entries. */
  predicate Evicting(was: Book, max: int, es: seq<Entry>, drops: seq<Drop>, k: nat) {
    && k <= Surplus(|was.waiting|, max)
    && es == was.waiting[k..]
    && drops == was.drops + Dropped(was.waiting[..k], Evicted)
  }

  lemma {:induction false} SweepKeepsOne(was: Book, now: int, es: seq<Entry>, drops: seq<Drop>, i: nat, past: seq<Entry>)
    requires Sweeping(was, now, es, drops, i, past) && i < |es| && IsLive(es[i], now)
    ensures Sweeping(was, now, es, drops, i + 1, past)
  {
    assert es[i..][1..] == es[i + 1..];
    assert es[..i + 1] == es[..i] + [es[i]];
    assert [] + Past(es[i + 1..], now) == Past(es[i + 1..], now);
  }

  lemma {:induction false} SweepDropsOne(was: Book, now: int, es: seq<Entry>, drops: seq<Drop>, i: nat, past: seq<Entry>)
    requires Sweeping(was, now, es, drops, i, past) && i < |es| && !IsLive(es[i], now)
    ensures Sweeping(was, now, Without(es, i), drops + [Dropping(es[i], Expired)], i, past + [es[i]])
  {
    var rest, e := es[i + 1..], es[i];
    assert es[i..][1..] == rest && Without(es, i)[..i] == es[..i] && Without(es, i)[i..] == rest;
    assert Live(es[i..], now) == [] + Live(rest, now) == Live(rest, now);
    assert Past(es[i..], now) == [e] + Past(rest, now);
    assert past + ([e] + Past(rest, now)) == past + [e] + Past(rest, now);
    assert Dropped(past + [e], Expired) == Dropped(past, Expired) + [Dropping(e, Expired)];
  }

  lemma {:induction false} EvictOne(was: Book, max: int, es: seq<Entry>, drops: seq<Drop>, k: nat)
    requires Evicting(was, max, es, drops, k) && es != [] && |es| >= max
    ensures Evicting(was, max, es[1..], drops + [Dropping(es[0], Evicted)], k + 1)
  {
    assert was.waiting[..k + 1] == was.waiting[..k] + [es[0]];
    assert Dropped(was.waiting[..k + 1], Evicted) == Dropped(was.waiting[..k], Evicted) + [Dropping(es[0], Evicted)];
  }

  class QuoteBook {
    var entries: seq<Entry>
    var drops: seq<Drop>
    const ttlMs: int
    const max: int

    ghost function State(): Book
      reads this
    {
      Book(entries, drops)
    }

    constructor (ttlMs: int, max: int)
      ensures this.ttlMs == ttlMs && this.max == max && State() == Book([], [])
    {
      this.ttlMs, this.max := ttlMs, max;
      entries, drops := [], [];
    }

    method Sweep(now: int)
      modifies this
      ensures State() == AfterSweep(old(State()), now)
    {
      ghost var was, past: seq<Entry> := State(), [];
      var i := 0;
      while i < |entries|
        invariant 0 <= i <= |entries| && Sweeping(was, now, entries, drops, i, past)
        decreases |entries| - i
      {
        var e := entries[i];
        if e.expiresAt <= now {
          SweepDropsOne(was, now, entries, drops, i, past);
          past := past + [e];
          entries := entries[..i] + entries[i + 1..];
          drops := drops + [Dropping(e, Expired)];
        } else {
          SweepKeepsOne(was, now, entries, drops, i, past);
          i := i + 1;
        }
      }
    }

    /** `now` is the clock when the call sweeps, `later` when it dates the quote. */
    method Issue(id: string, reserved: nat, intentEnds: int, now: int, later: int) returns (entry: Entry)
      requires forall e | e in entries :: e.id != id
      modifies this
      ensures entry == NewEntry(id, reserved, intentEnds, later, ttlMs)
      ensures State() == AfterIssue(old(State()), entry, now, max)
    {
      Sweep(now);
      ghost var swept, k := State(), 0;
      while |entries| >= max && entries != []
        invariant Evicting(swept, max, entries, drops, k)
        decreases |entries|
      {
        var oldest := entries[0];
        EvictOne(swept, max, entries, drops, k);
        k := k + 1;
        entries := entries[1..];
        drops := drops + [Dropping(oldest, Evicted)];
      }
      assert k == Surplus(|swept.waiting|, max);
      entry := Entry(id, reserved, intentEnds, Min(later + ttlMs, intentEnds));
      entries := entries + [entry];
    }

    method Take(id: string, now: int) returns (r: Result<Entry, Refusal>)
      modifies this
      ensures (State(), r) == AfterTake(old(State()), id, now)
    {
      var i := 0;
      while i < |entries| && entries[i].id != id
        invariant 0 <= i <= |entries| && i <= IndexOf(entries, id)
        invariant entries == old(entries) && drops == old(drops)
      {
        i := i + 1;
      }
      if i == |entries| {
        return Err(QuoteNotFound);
      }
      var entry := entries[i];
      entries := entries[..i] + entries[i + 1..];
      if entry.expiresAt <= now {
        drops := drops + [Dropping(entry, Expired)];
        return Err(QuoteExpired);
      }
      return Ok(entry);
    }
  }

  // ---------------------------------------------------------------- whole runs

  datatype Call =
    | Issue(id: string, reserved: nat, intentEnds: int, now: int, later: int)
    | Take(id: string, now: int)
    | Sweep(now: int)

  /** The book, with everything issued and everything taken from it. */
  datatype History = History(book: Book, issued: seq<Issuing>, taken: seq<Taking>)

  function After(h: History, call: Call, ttl: int, max: int): History {
    match call
    case Issue(id, reserved, intentEnds, now, later) =>
      var e := NewEntry(id, reserved, intentEnds, later, ttl);
      h.(book := AfterIssue(h.book, e, now, max), issued := h.issued + [Issued(e, later)])
    case Take(id, now) =>
      var (book, r) := AfterTake(h.book, id, now);
      h.(book := book, taken := if r.Ok? then h.taken + [Taken(r.value, now)] else h.taken)
    case Sweep(now) => h.(book := AfterSweep(h.book, now))
  }

  function Run(calls: seq<Call>, ttl: int, max: int): History {
    if calls == [] then History(Book([], []), [], [])
    else After(Run(calls[..|calls| - 1], ttl, max), calls[|calls| - 1], ttl, max)
  }

  /** No two calls issue under one id. */
  predicate FreshIds(calls: seq<Call>) {
    forall i, j | 0 <= i < j < |calls| && calls[i].Issue? && calls[j].Issue? :: calls[i].id != calls[j].id
  }

  function EntriesOf(marks: seq<Mark>): (r: seq<Entry>)
    ensures |r| == |marks| && forall i | 0 <= i < |r| :: r[i] == marks[i].entry
  {
    seq(|marks|, i requires 0 <= i < |marks| => marks[i].entry)
  }

  /** What a list of entries adds up to, counting each as `f` says. */
  function Sum(es: seq<Entry>, f: Entry -> nat): nat {
    if es == [] then 0 else f(es[0]) + Sum(es[1..], f)
  }

  /** `a` is `b` with some entries left out. */
  predicate InOrder(a: seq<Entry>, b: seq<Entry>)
    decreases |b|
  {
    a == [] || (b != [] && ((a[0] == b[0] && InOrder(a[1..], b[1..])) || InOrder(a, b[1..])))
  }

  lemma {:induction false} SumSplits(a: seq<Entry>, b: seq<Entry>, f: Entry -> nat)
    ensures Sum(a + b, f) == Sum(a, f) + Sum(b, f)
  {
    if a == [] {
      assert a + b == b;
    } else {
      assert (a + b)[1..] == a[1..] + b;
      SumSplits(a[1..], b, f);
    }
  }

  lemma {:induction false} SumOne(e: Entry, f: Entry -> nat)
    ensures Sum([e], f) == f(e)
  {
    assert [e][1..] == [];
  }

  lemma {:induction false} SweepSplits(es: seq<Entry>, now: int, f: Entry -> nat)
    ensures Sum(es, f) == Sum(Live(es, now), f) + Sum(Past(es, now), f)
  {
    if es != [] {
      SweepSplits(es[1..], now, f);
      SumOne(es[0], f);
      if IsLive(es[0], now) {
        SumSplits([es[0]], Live(es[1..], now), f);
        assert [] + Past(es[1..], now) == Past(es[1..], now);
      } else {
        SumSplits([es[0]], Past(es[1..], now), f);
        assert [] + Live(es[1..], now) == Live(es[1..], now);
      }
    }
  }

  lemma {:induction false} LiveInOrder(a: seq<Entry>, b: seq<Entry>, now: int)
    requires InOrder(a, b)
    ensures InOrder(Live(a, now), b)
    decreases |b|
  {
    if a != [] {
      if a[0] == b[0] && InOrder(a[1..], b[1..]) {
        LiveInOrder(a[1..], b[1..], now);
        if IsLive(a[0], now) {
          assert Live(a, now)[1..] == Live(a[1..], now);
        } else {
          assert Live(a, now) == Live(a[1..], now);
        }
      } else {
        LiveInOrder(a, b[1..], now);
      }
    }
  }

  lemma {:induction false} PartInOrder(a: seq<Entry>, b: seq<Entry>, i: nat, j: nat)
    requires InOrder(a, b) && i <= j <= |a|
    ensures InOrder(a[..i] + a[j..], b)
    decreases |b|
  {
    var r := a[..i] + a[j..];
    if r != [] {
      if a[0] == b[0] && InOrder(a[1..], b[1..]) {
        if i > 0 {
          PartInOrder(a[1..], b[1..], i - 1, j - 1);
          assert r[1..] == a[1..][..i - 1] + a[1..][j - 1..];
        } else if j > 0 {
          PartInOrder(a[1..], b[1..], 0, j - 1);
          assert r == a[1..][..0] + a[1..][j - 1..];
        } else {
          assert r == a;
        }
      } else {
        PartInOrder(a, b[1..], i, j);
      }
    }
  }

  lemma {:induction false} OneMoreInOrder(a: seq<Entry>, b: seq<Entry>, e: Entry)
    requires InOrder(a, b)
    ensures InOrder(a + [e], b + [e])
    decreases |b|
  {
    if b == [] {
      assert a + [e] == [e] && b + [e] == [e];
    } else {
      assert (b + [e])[1..] == b[1..] + [e];
      if a == [] {
        OneMoreInOrder([], b[1..], e);
        assert [] + [e] == [e] && a + [e] == [e];
      } else {
        assert (a + [e])[1..] == a[1..] + [e];
        if a[0] == b[0] && InOrder(a[1..], b[1..]) {
          OneMoreInOrder(a[1..], b[1..], e);
        } else {
          OneMoreInOrder(a, b[1..], e);
        }
      }
    }
  }

  /** Everything issued is waiting, taken or dropped. */
  predicate Conserved(h: History, f: Entry -> nat) {
    Sum(EntriesOf(h.issued), f)
    == Sum(h.book.waiting, f) + Sum(EntriesOf(h.taken), f) + Sum(EntriesOf(h.book.drops), f)
  }

  predicate Kept(h: History, ttl: int, max: int) {
    && InOrder(h.book.waiting, EntriesOf(h.issued))
    && |h.book.waiting| <= Max(1, max)
    && (forall i | 0 <= i < |h.issued| ::
          h.issued[i].entry.expiresAt == Min(h.issued[i].at + ttl, h.issued[i].entry.intentEnds))
    && (forall i | 0 <= i < |h.taken| :: IsLive(h.taken[i].entry, h.taken[i].at))
  }

  lemma {:induction false} DropsAdd(drops: seq<Drop>, es: seq<Entry>, reason: Reason, f: Entry -> nat)
    ensures Sum(EntriesOf(drops + Dropped(es, reason)), f) == Sum(EntriesOf(drops), f) + Sum(es, f)
  {
    assert EntriesOf(drops + Dropped(es, reason)) == EntriesOf(drops) + es;
    SumSplits(EntriesOf(drops), es, f);
  }

  lemma {:induction false} SweepConserves(h: History, now: int, f: Entry -> nat)
    requires Conserved(h, f)
    ensures Conserved(h.(book := AfterSweep(h.book, now)), f)
  {
    SweepSplits(h.book.waiting, now, f);
    DropsAdd(h.book.drops, Past(h.book.waiting, now), Expired, f);
  }

  lemma {:induction false} EvictionConserves(h: History, max: int, f: Entry -> nat)
    requires Conserved(h, f)
    ensures Conserved(h.(book := AfterEviction(h.book, max)), f)
  {
    var es := h.book.waiting;
    var k := Surplus(|es|, max);
    assert es == es[..k] + es[k..];
    SumSplits(es[..k], es[k..], f);
    DropsAdd(h.book.drops, es[..k], Evicted, f);
  }

  lemma {:induction false} AddConserves(h: History, e: Entry, at: int, f: Entry -> nat)
    requires Conserved(h, f)
    ensures Conserved(h.(book := h.book.(waiting := h.book.waiting + [e]), issued := h.issued + [Issued(e, at)]), f)
  {
    assert EntriesOf(h.issued + [Issued(e, at)]) == EntriesOf(h.issued) + [e];
    SumSplits(EntriesOf(h.issued), [e], f);
    SumSplits(h.book.waiting, [e], f);
  }

  lemma {:induction false} SumWithout(es: seq<Entry>, i: nat, f: Entry -> nat)
    requires i < |es|
    ensures Sum(es, f) == Sum(Without(es, i), f) + f(es[i])
  {
    assert es == es[..i] + ([es[i]] + es[i + 1..]);
    SumSplits(es[..i], [es[i]] + es[i + 1..], f);
    SumSplits([es[i]], es[i + 1..], f);
    SumSplits(es[..i], es[i + 1..], f);
    SumOne(es[i], f);
  }

  lemma {:induction false} TakeConserves(h: History, id: string, now: int, ttl: int, max: int, f: Entry -> nat)
    requires Conserved(h, f)
    ensures Conserved(After(h, Take(id, now), ttl, max), f)
  {
    var i := IndexOf(h.book.waiting, id);
    if i < |h.book.waiting| {
      var e := h.book.waiting[i];
      SumWithout(h.book.waiting, i, f);
      SumOne(e, f);
      if IsLive(e, now) {
        assert EntriesOf(h.taken + [Taken(e, now)]) == EntriesOf(h.taken) + [e];
        SumSplits(EntriesOf(h.taken), [e], f);
      } else {
        assert Dropped([e], Expired) == [Dropping(e, Expired)];
        DropsAdd(h.book.drops, [e], Expired, f);
      }
    }
  }

  /** The conservation law of the book, whatever is counted: after any calls, what was issued is what waits, what was
      taken and what was dropped. */
  lemma {:induction false} RunConserves(calls: seq<Call>, ttl: int, max: int, f: Entry -> nat)
    ensures Conserved(Run(calls, ttl, max), f)
  {
    if calls != [] {
      var h, call := Run(calls[..|calls| - 1], ttl, max), calls[|calls| - 1];
      RunConserves(calls[..|calls| - 1], ttl, max, f);
      match call {
        case Issue(id, reserved, intentEnds, now, later) =>
          SweepConserves(h, now, f);
          var swept := h.(book := AfterSweep(h.book, now));
          EvictionConserves(swept, max, f);
          AddConserves(swept.(book := AfterEviction(swept.book, max)), NewEntry(id, reserved, intentEnds, later, ttl), later, f);
        case Take(id, now) => TakeConserves(h, id, now, ttl, max, f);
        case Sweep(now) => SweepConserves(h, now, f);
      }
    }
  }

  lemma {:induction false} TakeKeeps(h: History, id: string, now: int, ttl: int, max: int)
    requires Kept(h, ttl, max)
    ensures Kept(After(h, Take(id, now), ttl, max), ttl, max)
  {
    var i := IndexOf(h.book.waiting, id);
    if i < |h.book.waiting| {
      PartInOrder(h.book.waiting, EntriesOf(h.issued), i, i + 1);
    }
  }

  lemma {:induction false} RestInOrder(a: seq<Entry>, b: seq<Entry>, k: nat)
    requires InOrder(a, b) && k <= |a|
    ensures InOrder(a[k..], b)
  {
    PartInOrder(a, b, 0, k);
    assert a[..0] + a[k..] == a[k..];
  }

  lemma {:induction false} RoomKeepsOrder(waiting: seq<Entry>, issued: seq<Entry>, now: int, max: int)
    requires InOrder(waiting, issued)
    ensures var swept := Live(waiting, now);
            InOrder(swept[Surplus(|swept|, max)..], issued)
  {
    LiveInOrder(waiting, issued, now);
    RestInOrder(Live(waiting, now), issued, Surplus(|Live(waiting, now)|, max));
  }

  lemma {:induction false} IssueKeeps(h: History, e: Entry, now: int, at: int, ttl: int, max: int)
    requires Kept(h, ttl, max) && e.expiresAt == Min(at + ttl, e.intentEnds)
    ensures Kept(h.(book := AfterIssue(h.book, e, now, max), issued := h.issued + [Issued(e, at)]), ttl, max)
  {
    var issued, swept := EntriesOf(h.issued), Live(h.book.waiting, now);
    var left := swept[Surplus(|swept|, max)..];
    RoomKeepsOrder(h.book.waiting, issued, now, max);
    OneMoreInOrder(left, issued, e);
    assert EntriesOf(h.issued + [Issued(e, at)]) == issued + [e];
    assert AfterIssue(h.book, e, now, max).waiting == left + [e];
  }

  lemma {:induction false} RunKeeps(calls: seq<Call>, ttl: int, max: int)
    ensures Kept(Run(calls, ttl, max), ttl, max)
  {
    if calls != [] {
      var h, call := Run(calls[..|calls| - 1], ttl, max), calls[|calls| - 1];
      RunKeeps(calls[..|calls| - 1], ttl, max);
      match call {
        case Issue(id, reserved, intentEnds, now, later) =>
          IssueKeeps(h, NewEntry(id, reserved, intentEnds, later, ttl), now, later, ttl, max);
        case Take(id, now) => TakeKeeps(h, id, now, ttl, max);
        case Sweep(now) => LiveInOrder(h.book.waiting, EntriesOf(h.issued), now);
      }
    }
  }

  function ReservedBy(e: Entry): nat {
    e.reserved
  }

  function Named(id: string): Entry -> nat {
    (e: Entry) => if e.id == id then 1 else 0
  }

  function EqualTo(x: Entry): Entry -> nat {
    (e: Entry) => if e == x then 1 else 0
  }

  function WithId(es: seq<Entry>, id: string): nat {
    Sum(es, Named(id))
  }

  /** How often an id was issued. */
  function TimesIssued(calls: seq<Call>, id: string): nat {
    if calls == [] then 0
    else TimesIssued(calls[..|calls| - 1], id)
         + (if calls[|calls| - 1].Issue? && calls[|calls| - 1].id == id then 1 else 0)
  }

  lemma {:induction false} IssuedAsCalled(calls: seq<Call>, ttl: int, max: int, id: string)
    ensures WithId(EntriesOf(Run(calls, ttl, max).issued), id) == TimesIssued(calls, id)
  {
    if calls != [] {
      var before, call := calls[..|calls| - 1], calls[|calls| - 1];
      IssuedAsCalled(before, ttl, max, id);
      var h := Run(before, ttl, max);
      if call.Issue? {
        var e := NewEntry(call.id, call.reserved, call.intentEnds, call.later, ttl);
        assert EntriesOf(h.issued + [Issued(e, call.later)]) == EntriesOf(h.issued) + [e];
        SumSplits(EntriesOf(h.issued), [e], Named(id));
        SumOne(e, Named(id));
      }
    }
  }

  lemma {:induction false} FreshIsOnce(calls: seq<Call>, id: string)
    requires FreshIds(calls)
    ensures TimesIssued(calls, id) <= 1
    ensures TimesIssued(calls, id) == 1 <==> WasIssued(calls, id)
  {
    if calls != [] {
      var before := calls[..|calls| - 1];
      FreshIsOnce(before, id);
      if WasIssued(calls, id) {
        var i :| 0 <= i < |calls| && calls[i].Issue? && calls[i].id == id;
        assert i < |before| ==> before[i] == calls[i];
      }
      if WasIssued(before, id) {
        var i :| 0 <= i < |before| && before[i].Issue? && before[i].id == id;
        assert calls[i] == before[i];
      }
    }
  }

  predicate WasIssued(calls: seq<Call>, id: string) {
    exists i | 0 <= i < |calls| :: calls[i].Issue? && calls[i].id == id
  }

  /** With fresh ids, an issued id is in exactly one place, once: so `onDrop` is told at most once of a quote, and never
      of one that was taken; and an id is never taken twice. */
  lemma {:induction false} EachIdIsInOnePlace(calls: seq<Call>, ttl: int, max: int, id: string)
    requires FreshIds(calls)
    ensures var h := Run(calls, ttl, max);
            WithId(h.book.waiting, id) + WithId(EntriesOf(h.taken), id) + WithId(EntriesOf(h.book.drops), id)
            == if WasIssued(calls, id) then 1 else 0
  {
    RunConserves(calls, ttl, max, Named(id));
    IssuedAsCalled(calls, ttl, max, id);
    FreshIsOnce(calls, id);
  }

  lemma {:induction false} PresentWhenCounted(es: seq<Entry>, e: Entry)
    ensures Sum(es, EqualTo(e)) > 0 <==> e in es
  {
    if es != [] {
      PresentWhenCounted(es[1..], e);
      assert es == [es[0]] + es[1..];
    }
  }

  lemma {:induction false} TakenWasIssued(calls: seq<Call>, ttl: int, max: int, e: Entry)
    requires e in EntriesOf(Run(calls, ttl, max).taken)
    ensures e in EntriesOf(Run(calls, ttl, max).issued)
  {
    var h := Run(calls, ttl, max);
    RunConserves(calls, ttl, max, EqualTo(e));
    PresentWhenCounted(EntriesOf(h.taken), e);
    PresentWhenCounted(EntriesOf(h.issued), e);
  }

  /** What is taken was issued, and is paid inside its window, which ends by the earlier of its time to live and its
      intent. */
  lemma {:induction false} TakenInTime(calls: seq<Call>, ttl: int, max: int, k: nat) returns (i: nat)
    requires k < |Run(calls, ttl, max).taken|
    ensures var h := Run(calls, ttl, max);
            && i < |h.issued| && h.issued[i].entry == h.taken[k].entry
            && h.taken[k].at < h.taken[k].entry.expiresAt == Min(h.issued[i].at + ttl, h.taken[k].entry.intentEnds)
  {
    var h := Run(calls, ttl, max);
    var e := h.taken[k].entry;
    RunKeeps(calls, ttl, max);
    assert EntriesOf(h.taken)[k] == e;
    TakenWasIssued(calls, ttl, max, e);
    i :| 0 <= i < |EntriesOf(h.issued)| && EntriesOf(h.issued)[i] == e;
  }

  /** Room is made from the oldest on: what waits is in the order it was issued, and an issue evicts a first part of it,
      none of it past its window. */
  lemma {:induction false} OldestGoFirst(calls: seq<Call>, ttl: int, max: int, now: int)
    ensures var h := Run(calls, ttl, max);
            var swept := AfterSweep(h.book, now);
            var k := Surplus(|swept.waiting|, max);
            && InOrder(swept.waiting, EntriesOf(h.issued))
            && AfterEviction(swept, max).drops == swept.drops + Dropped(swept.waiting[..k], Evicted)
            && swept.waiting == swept.waiting[..k] + AfterEviction(swept, max).waiting
            && forall i | 0 <= i < |swept.waiting| :: IsLive(swept.waiting[i], now)
  {
    RunKeeps(calls, ttl, max);
    var h := Run(calls, ttl, max);
    LiveInOrder(h.book.waiting, EntriesOf(h.issued), now);
    LiveAreLive(h.book.waiting, now);
  }

  predicate WithinCeiling(calls: seq<Call>, ttl: int, max: int) {
    |Run(calls, ttl, max).book.waiting| <= max
  }

  /** The ceiling holds after every run exactly when it allows at least one quote. */
  lemma {:induction false} CeilingHoldsWhen(ttl: int, max: int)
    ensures (forall calls :: WithinCeiling(calls, ttl, max)) <==> max >= 1
  {
    if max >= 1 {
      forall calls ensures WithinCeiling(calls, ttl, max) {
        RunKeeps(calls, ttl, max);
      }
    } else {
      var one := [Issue("q", 0, 0, 0, 0)];
      assert one[..0] == [];
      assert !WithinCeiling(one, ttl, max);
    }
  }

  // ---------------------------------------------------------------- what an issue and a take do to a run

  lemma {:induction false} RunOneMore(calls: seq<Call>, call: Call, ttl: int, max: int)
    ensures Run(calls + [call], ttl, max) == After(Run(calls, ttl, max), call, ttl, max)
  {
    assert (calls + [call])[..|calls|] == calls;
  }

  /** Sweeping keeps, in order, exactly the quotes whose window has not passed. */
  lemma {:induction false} LiveAreThose(es: seq<Entry>, now: int, e: Entry)
    ensures InOrder(Live(es, now), es)
    ensures Sum(Live(es, now), EqualTo(e)) == if e.expiresAt > now then Sum(es, EqualTo(e)) else 0
    ensures Sum(Past(es, now), EqualTo(e)) == if e.expiresAt > now then 0 else Sum(es, EqualTo(e))
  {
    if es != [] {
      LiveAreThose(es[1..], now, e);
      SumOne(es[0], EqualTo(e));
      if IsLive(es[0], now) {
        SumSplits([es[0]], Live(es[1..], now), EqualTo(e));
        assert Live(es, now)[1..] == Live(es[1..], now);
        assert Past(es, now) == Past(es[1..], now);
      } else {
        SumSplits([es[0]], Past(es[1..], now), EqualTo(e));
        assert Live(es, now) == Live(es[1..], now);
      }
    } else {
      assert es == [];
    }
  }

  /** Only what is past its window is dropped while fewer than the ceiling still wait; otherwise the oldest go too, just
      as many as leave the ceiling full, or all when there is no place. */
  predicate MakesRoom(was: Book, now: int, max: int, e: Entry, next: Book) {
    var live, past := Live(was.waiting, now), Past(was.waiting, now);
    var swept := was.drops + Dropped(past, Expired);
    && (|live| < max ==> next == Book(live + [e], swept))
    && (1 <= max <= |live| ==>
          var gone := |live| - max + 1;
          next == Book(live[gone..] + [e], swept + Dropped(live[..gone], Evicted)) && |next.waiting| == max)
    && (max < 1 ==> next == Book([e], swept + Dropped(live, Evicted)))
  }

  lemma {:induction false} NothingEvicted(b: Book, max: int)
    requires |b.waiting| < max
    ensures AfterEviction(b, max) == b
  {
    assert b.waiting[0..] == b.waiting && Dropped(b.waiting[..0], Evicted) == [] && b.drops + [] == b.drops;
  }

  lemma {:induction false} AllEvicted(b: Book, max: int)
    requires max < 1
    ensures AfterEviction(b, max) == Book([], b.drops + Dropped(b.waiting, Evicted))
  {
    assert b.waiting[..|b.waiting|] == b.waiting && b.waiting[|b.waiting|..] == [];
  }

  lemma {:induction false} RoomIsMade(was: Book, e: Entry, now: int, max: int)
    ensures MakesRoom(was, now, max, e, AfterIssue(was, e, now, max))
  {
    hide Live, Past, Dropped;
    var swept := AfterSweep(was, now);
    if |swept.waiting| < max {
      hide AfterEviction;
      NothingEvicted(swept, max);
    } else if max < 1 {
      hide AfterEviction;
      AllEvicted(swept, max);
      assert [] + [e] == [e];
    }
  }

  /** An issue evicts only for want of room: while fewer than the ceiling still wait at its clock they all go on waiting,
      in order, with the new one last, and only what is past its window is dropped; otherwise just as many of the oldest
      go as leave the ceiling full. */
  lemma {:induction false} IssueMakesRoom(
      calls: seq<Call>, id: string, reserved: nat, intentEnds: int, now: int, later: int, ttl: int, max: int)
    ensures var was, h := Run(calls, ttl, max), Run(calls + [Issue(id, reserved, intentEnds, now, later)], ttl, max);
            && h.issued != [] && h.taken == was.taken
            && var e := h.issued[|h.issued| - 1].entry;
               && MakesRoom(was.book, now, max, e, h.book) && h.issued == was.issued + [Issued(e, later)]
               && e.id == id && e.reserved == reserved && e.intentEnds == intentEnds
               && e.expiresAt <= later + ttl && e.expiresAt <= intentEnds
               && (e.expiresAt == later + ttl || e.expiresAt == intentEnds)
  {
    hide Run, MakesRoom, AfterIssue;
    RunOneMore(calls, Issue(id, reserved, intentEnds, now, later), ttl, max);
    RoomIsMade(Run(calls, ttl, max).book, NewEntry(id, reserved, intentEnds, later, ttl), now, max);
  }

  /** A waiting quote whose window has not passed is handed out when it is taken, and leaves the others waiting; one past
      its window is dropped instead; and an id that does not wait changes nothing. */
  lemma {:induction false} TakeHandsOut(calls: seq<Call>, i: nat, now: int, ttl: int, max: int)
    requires FreshIds(calls) && i < |Run(calls, ttl, max).book.waiting|
    ensures var was := Run(calls, ttl, max);
            var e := was.book.waiting[i];
            var h := Run(calls + [Take(e.id, now)], ttl, max);
            && h.book.waiting == was.book.waiting[..i] + was.book.waiting[i + 1..] && h.issued == was.issued
            && (e.expiresAt > now ==> h.taken == was.taken + [Taken(e, now)] && h.book.drops == was.book.drops)
            && (e.expiresAt <= now ==> h.taken == was.taken && h.book.drops == was.book.drops + [Dropping(e, Expired)])
            && AfterTake(was.book, e.id, now).1 == if e.expiresAt > now then Ok(e) else Err(QuoteExpired)
  {
    var was := Run(calls, ttl, max);
    var e := was.book.waiting[i];
    RunOneMore(calls, Take(e.id, now), ttl, max);
    EachIdIsInOnePlace(calls, ttl, max, e.id);
    OnlyOneNamed(was.book.waiting, e.id, i, IndexOf(was.book.waiting, e.id));
  }

  /** A sweep leaves what is inside its window, in order, and drops the rest as expired. */
  lemma {:induction false} SweepDropsPast(calls: seq<Call>, now: int, ttl: int, max: int)
    ensures var was, h := Run(calls, ttl, max), Run(calls + [Sweep(now)], ttl, max);
            && h.book.waiting == Live(was.book.waiting, now) && (h.issued, h.taken) == (was.issued, was.taken)
            && h.book.drops == was.book.drops + Dropped(Past(was.book.waiting, now), Expired)
  {
    RunOneMore(calls, Sweep(now), ttl, max);
  }

  lemma {:induction false} OnlyOneNamed(es: seq<Entry>, id: string, i: nat, j: nat)
    requires WithId(es, id) <= 1 && i < |es| && es[i].id == id && j <= i && es[j].id == id
    ensures i == j
  {
    if j < i {
      assert es == es[..j + 1] + es[j + 1..];
      SumSplits(es[..j + 1], es[j + 1..], Named(id));
      NamedCounts(es[..j + 1], id, j);
      NamedCounts(es[j + 1..], id, i - j - 1);
    }
  }

  lemma {:induction false} NamedCounts(es: seq<Entry>, id: string, i: nat)
    requires i < |es| && es[i].id == id
    ensures WithId(es, id) >= 1
  {
    if i > 0 {
      NamedCounts(es[1..], id, i - 1);
    }
  }

  lemma {:induction false} UnknownIsNotTaken(calls: seq<Call>, id: string, now: int, ttl: int, max: int)
    requires forall i | 0 <= i < |Run(calls, ttl, max).book.waiting| :: Run(calls, ttl, max).book.waiting[i].id != id
    ensures Run(calls + [Take(id, now)], ttl, max) == Run(calls, ttl, max)
    ensures AfterTake(Run(calls, ttl, max).book, id, now).1 == Err(QuoteNotFound)
  {
    RunOneMore(calls, Take(id, now), ttl, max);
  }
}
