/** The budget that quotes reserve on the ledger: what is held there is exactly the quotes not given back. */
module Budget {
  import opened Results
  import opened Decimal
  import opened Quotes
  import V = Vault

  /** A quote's intent is signed, which the ledger records, before it is issued; a quote that left the book unpaid is given
      back; a paid one is anchored. A release that fails is no step. */
  datatype Step =
    | Call(call: Quotes.Call, at: string)
    | GiveBack(id: string, reason: string)
    | Anchor(entry: V.Entry)

  const SUBJECT := "agent"
  const CURRENCY := "USDC"

  function BookCalls(steps: seq<Step>): seq<Quotes.Call> {
    if steps == [] then []
    else BookCalls(steps[..|steps| - 1]) + if steps[|steps| - 1].Call? then [steps[|steps| - 1].call] else []
  }

  /** The quote was taken or dropped. */
  predicate Gone(h: History, id: string) {
    WithId(EntriesOf(h.taken), id) + WithId(EntriesOf(h.book.drops), id) > 0
  }

  function LedgerCall(h: History, step: Step): seq<V.Call> {
    match step
    case Call(Issue(id, reserved, _, _, _), at) => [V.Record(SUBJECT, id, CURRENCY, FromUnits(reserved), at)]
    case Call(_, _) => []
    case GiveBack(id, reason) => if Gone(h, id) then [V.Release(id, reason)] else []
    case Anchor(entry) => [V.RecordAnchor(entry)]
  }

  function LedgerCalls(steps: seq<Step>, ttl: int, max: int): seq<V.Call> {
    if steps == [] then []
    else
      var before := steps[..|steps| - 1];
      LedgerCalls(before, ttl, max) + LedgerCall(Run(BookCalls(before), ttl, max), steps[|steps| - 1])
  }

  /** When each quote's intent was signed. */
  function SignedAt(steps: seq<Step>): map<string, string> {
    if steps == [] then map[]
    else
      var before, last := SignedAt(steps[..|steps| - 1]), steps[|steps| - 1];
      if last.Call? && last.call.Issue? then before[last.call.id := last.at] else before
  }

  /** The day's budget a quote's intent, signed then, is reserved from. */
  function BucketAt(at: string): V.Bucket {
    V.Bucket(SUBJECT, CURRENCY, V.Day(at))
  }

  /** What a quote reserved of the budgets `keep` keeps. */
  function Share(e: Entry, signed: map<string, string>, keep: V.Bucket -> bool): nat {
    if e.id in signed && keep(BucketAt(signed[e.id])) then e.reserved else 0
  }

  /** What it still holds of them: nothing once its intent was released. */
  function ShareHeld(e: Entry, signed: map<string, string>, released: set<string>, keep: V.Bucket -> bool): nat {
    if e.id in released then 0 else Share(e, signed, keep)
  }

  function Reserved(signed: map<string, string>, keep: V.Bucket -> bool): Entry -> nat {
    (e: Entry) => Share(e, signed, keep)
  }

  function Held(signed: map<string, string>, released: set<string>, keep: V.Bucket -> bool): Entry -> nat {
    (e: Entry) => ShareHeld(e, signed, released, keep)
  }

  function OfDay(day: string): V.Bucket -> bool {
    V.Only(V.Bucket(SUBJECT, CURRENCY, day))
  }

  /** One grant for each quote issued, of what it reserved, on the day its intent was signed. */
  predicate Granted(issued: seq<Issuing>, signed: map<string, string>, grants: map<string, V.Grant>) {
    && (forall i | 0 <= i < |issued| ::
          var id := issued[i].entry.id;
          && id in grants && id in signed && V.Worth(grants[id]) == issued[i].entry.reserved
          && V.BucketOf(grants[id]) == BucketAt(signed[id]))
    && (forall id | id in grants :: WithId(EntriesOf(issued), id) > 0)
    && forall id | id in signed :: WithId(EntriesOf(issued), id) > 0
  }

  /** The ledger's grants are the quotes', and what it counts is what the quotes not given back hold. */
  predicate Agrees(h: History, m: V.Memory, signed: map<string, string>, keep: V.Bucket -> bool) {
    && Granted(h.issued, signed, m.grants)
    && (forall id | id in m.released :: id in m.grants && Gone(h, id))
    && V.Net(m.log, keep) == Sum(EntriesOf(h.issued), Held(signed, m.released, keep))
  }

  lemma {:induction false} PrintedAmount(units: nat)
    ensures V.ScaleAmount(FromUnits(units)) == Ok(units)
    ensures ToUnits(FromUnits(units)) == Ok(units)
  {
    UnitsRoundTrip(units);
    var a := AmountOf(units);
    SpellingIsFound(a, FromUnits(units), 1, 7);
    NoLeadingZero(units / SCALE);
  }

  /** Two ways to count a list in which they agree on every entry. */
  lemma {:induction false} SameSum(es: seq<Entry>, f: Entry -> nat, g: Entry -> nat)
    requires forall i | 0 <= i < |es| :: f(es[i]) == g(es[i])
    ensures Sum(es, f) == Sum(es, g)
  {
    if es != [] {
      SameSum(es[1..], f, g);
    }
  }

  /** Two ways to count that differ on the one entry under an id. */
  lemma {:induction false} OneLess(es: seq<Entry>, f: Entry -> nat, g: Entry -> nat, id: string, units: nat)
    requires WithId(es, id) == 1
    requires forall i | 0 <= i < |es| :: f(es[i]) == g(es[i]) + if es[i].id == id then units else 0
    ensures Sum(es, f) == Sum(es, g) + units
  {
    if es[0].id == id {
      forall i | 0 <= i < |es[1..]| ensures f(es[1..][i]) == g(es[1..][i]) {
        CountedIsThere(es[1..], id);
        assert es[1..][i] == es[i + 1];
      }
      SameSum(es[1..], f, g);
    } else {
      OneLess(es[1..], f, g, id, units);
    }
  }

  lemma {:induction false} CountedIsThere(es: seq<Entry>, id: string)
    ensures WithId(es, id) > 0 <==> exists i | 0 <= i < |es| :: es[i].id == id
  {
    if es != [] {
      CountedIsThere(es[1..], id);
      if i :| 0 <= i < |es[1..]| && es[1..][i].id == id {
        assert es[i + 1].id == id;
      }
      if i :| 0 < i < |es| && es[i].id == id {
        assert es[1..][i - 1].id == id;
      }
    }
  }

  lemma {:induction false} LongerHasMore(a: seq<Entry>, b: seq<Entry>, id: string)
    requires a <= b
    ensures WithId(a, id) <= WithId(b, id)
  {
    assert b == a + b[|a|..];
    SumSplits(a, b[|a|..], Named(id));
  }

  /** What was taken or dropped stays so. */
  lemma {:induction false} GoneStays(h: History, call: Quotes.Call, ttl: int, max: int, id: string)
    requires Gone(h, id)
    ensures Gone(After(h, call, ttl, max), id)
  {
    var g := After(h, call, ttl, max);
    assert h.taken <= g.taken && h.book.drops <= g.book.drops;
    LongerHasMore(EntriesOf(h.taken), EntriesOf(g.taken), id);
    LongerHasMore(EntriesOf(h.book.drops), EntriesOf(g.book.drops), id);
  }

  lemma {:induction false} CountsOneMore(es: seq<Entry>, e: Entry, id: string)
    ensures WithId(es + [e], id) == WithId(es, id) + if e.id == id then 1 else 0
  {
    SumSplits(es, [e], Named(id));
    SumOne(e, Named(id));
  }

  /** The new grant is the new quote's, and every other quote keeps its own. */
  lemma {:induction false} OneMoreGranted(issued: seq<Issuing>, e: Entry, when: int, signed: map<string, string>, at: string,
                                          grants: map<string, V.Grant>, g: V.Grant)
    requires Granted(issued, signed, grants) && WithId(EntriesOf(issued), e.id) == 0
    requires V.Worth(g) == e.reserved && V.BucketOf(g) == BucketAt(at)
    ensures Granted(issued + [Issued(e, when)], signed[e.id := at], grants[e.id := g])
  {
    var more, es := issued + [Issued(e, when)], EntriesOf(issued);
    assert EntriesOf(more) == es + [e];
    CountedIsThere(es, e.id);
    forall i | 0 <= i < |issued| ensures more[i].entry.id != e.id && more[i] == issued[i] {
      assert es[i].id != e.id;
    }
    forall id | id in grants[e.id := g] || id in signed[e.id := at] ensures WithId(EntriesOf(more), id) > 0 {
      CountsOneMore(es, e, id);
    }
  }

  /** Signing an intent the ledger has not seen records exactly its amount, on its day. */
  lemma {:induction false} Signed(m: V.Memory, id: string, reserved: nat, at: string, keep: V.Bucket -> bool)
    requires id !in m.grants && id !in m.released
    ensures var n := V.After(m, V.Record(SUBJECT, id, CURRENCY, FromUnits(reserved), at));
            && n.grants == m.grants[id := V.Granted(SUBJECT, id, CURRENCY, FromUnits(reserved), at)]
            && V.Worth(n.grants[id]) == reserved && V.BucketOf(n.grants[id]) == BucketAt(at) && n.released == m.released
            && V.Net(n.log, keep) == V.Net(m.log, keep) + if keep(BucketAt(at)) then reserved else 0
  {
    var granted := V.Granted(SUBJECT, id, CURRENCY, FromUnits(reserved), at);
    PrintedAmount(reserved);
    V.NetAfter(m.log, granted, keep);
    assert m.released - {id} == m.released;
  }

  /** The new quote holds what it reserved, and the others hold what they did. */
  lemma {:induction false} OneMoreHeld(es: seq<Entry>, e: Entry, signed: map<string, string>, at: string,
                                       released: set<string>, keep: V.Bucket -> bool)
    requires WithId(es, e.id) == 0 && e.id !in released
    ensures Sum(es + [e], Held(signed[e.id := at], released, keep))
         == Sum(es, Held(signed, released, keep)) + if keep(BucketAt(at)) then e.reserved else 0
  {
    var was, now := Held(signed, released, keep), Held(signed[e.id := at], released, keep);
    CountedIsThere(es, e.id);
    forall i | 0 <= i < |es| ensures was(es[i]) == now(es[i]) {
      assert es[i].id != e.id;
    }
    SameSum(es, was, now);
    SumSplits(es, [e], now);
    SumOne(e, now);
  }

  lemma {:induction false} OneMoreAgrees(h: History, g: History, m: V.Memory, n: V.Memory, e: Entry, when: int,
                                         signed: map<string, string>, at: string, granted: V.Grant, keep: V.Bucket -> bool)
    requires Agrees(h, m, signed, keep) && WithId(EntriesOf(h.issued), e.id) == 0
    requires V.Worth(granted) == e.reserved && V.BucketOf(granted) == BucketAt(at)
    requires g.issued == h.issued + [Issued(e, when)] && forall id | Gone(h, id) :: Gone(g, id)
    requires n.grants == m.grants[e.id := granted] && n.released == m.released
    requires V.Net(n.log, keep) == V.Net(m.log, keep) + if keep(BucketAt(at)) then e.reserved else 0
    ensures Agrees(g, n, signed[e.id := at], keep)
  {
    OneMoreGranted(h.issued, e, when, signed, at, m.grants, granted);
    CountedIsThere(EntriesOf(h.issued), e.id);
    assert EntriesOf(g.issued) == EntriesOf(h.issued) + [e];
    OneMoreHeld(EntriesOf(h.issued), e, signed, at, m.released, keep);
  }

  lemma {:induction false} IssueAgrees(h: History, m: V.Memory, call: Quotes.Call, signed: map<string, string>, at: string,
                                       ttl: int, max: int, keep: V.Bucket -> bool)
    requires Agrees(h, m, signed, keep) && call.Issue? && WithId(EntriesOf(h.issued), call.id) == 0
    ensures Agrees(After(h, call, ttl, max),
                   V.After(m, V.Record(SUBJECT, call.id, CURRENCY, FromUnits(call.reserved), at)), signed[call.id := at], keep)
  {
    var g := After(h, call, ttl, max);
    var n := V.After(m, V.Record(SUBJECT, call.id, CURRENCY, FromUnits(call.reserved), at));
    var e := NewEntry(call.id, call.reserved, call.intentEnds, call.later, ttl);
    forall id | Gone(h, id) ensures Gone(g, id) {
      GoneStays(h, call, ttl, max, id);
    }
    Signed(m, call.id, call.reserved, at, keep);
    OneMoreAgrees(h, g, m, n, e, call.later, signed, at, n.grants[call.id], keep);
  }

  lemma {:induction false} GiveBackAgrees(h: History, m: V.Memory, id: string, reason: string, signed: map<string, string>,
                                          keep: V.Bucket -> bool)
    requires Agrees(h, m, signed, keep) && Gone(h, id) && WithId(EntriesOf(h.issued), id) <= 1
    ensures Agrees(h, V.After(m, V.Release(id, reason)), signed, keep)
  {
    if V.AfterRelease(m, id, reason).Ok? && id !in m.released {
      var es, g := EntriesOf(h.issued), m.grants[id];
      V.NetAfter(m.log, V.ReleaseOf(g, reason), keep);
      var was, now := Held(signed, m.released, keep), Held(signed, m.released + {id}, keep);
      var units := if keep(V.BucketOf(g)) then V.Worth(g) else 0;
      forall i | 0 <= i < |es| ensures was(es[i]) == now(es[i]) + if es[i].id == id then units else 0 {
        assert h.issued[i].entry == es[i];
      }
      OneLess(es, was, now, id, units);
    }
  }

  lemma {:induction false} OtherCallAgrees(h: History, m: V.Memory, call: Quotes.Call, ttl: int, max: int,
                                           signed: map<string, string>, keep: V.Bucket -> bool)
    requires Agrees(h, m, signed, keep) && !call.Issue?
    ensures Agrees(After(h, call, ttl, max), m, signed, keep)
  {
    forall id | id in m.released ensures Gone(After(h, call, ttl, max), id) {
      GoneStays(h, call, ttl, max, id);
    }
  }

  lemma {:induction false} AnchorAgrees(h: History, m: V.Memory, entry: V.Entry, signed: map<string, string>,
                                        keep: V.Bucket -> bool)
    requires Agrees(h, m, signed, keep)
    ensures Agrees(h, V.After(m, V.RecordAnchor(entry)), signed, keep)
  {
    if entry.Anchored? {
      V.NetAfter(m.log, entry, keep);
    }
  }

  lemma {:induction false} LedgerAfter(calls: seq<V.Call>, more: seq<V.Call>)
    requires |more| <= 1
    ensures V.Run(calls + more) == if more == [] then V.Run(calls) else V.After(V.Run(calls), more[0])
  {
    if more == [] {
      assert calls + more == calls;
    } else {
      assert (calls + more)[..|calls|] == calls;
    }
  }

  lemma {:induction false} FreshBefore(calls: seq<Quotes.Call>, more: seq<Quotes.Call>)
    requires FreshIds(calls + more)
    ensures FreshIds(calls)
    ensures more != [] && more[0].Issue? ==> !WasIssued(calls, more[0].id)
  {
    assert forall i | 0 <= i < |calls| :: (calls + more)[i] == calls[i];
    if more != [] {
      assert (calls + more)[|calls|] == more[0];
    }
  }

  /** A call of the book, with its intent signed first when it issues. */
  lemma {:induction false} CallAgrees(calls: seq<Quotes.Call>, call: Quotes.Call, at: string, m: V.Memory,
                                      signed: map<string, string>, ttl: int, max: int, keep: V.Bucket -> bool)
    requires Agrees(Run(calls, ttl, max), m, signed, keep) && FreshIds(calls + [call])
    ensures var h, ledger := Run(calls, ttl, max), LedgerCall(Run(calls, ttl, max), Call(call, at));
            && (call.Issue? ==>
                  ledger != [] && Agrees(After(h, call, ttl, max), V.After(m, ledger[0]), signed[call.id := at], keep))
            && (!call.Issue? ==> ledger == [] && Agrees(After(h, call, ttl, max), m, signed, keep))
  {
    var h := Run(calls, ttl, max);
    if call.Issue? {
      FreshBefore(calls, [call]);
      IssuedAsCalled(calls, ttl, max, call.id);
      FreshIsOnce(calls, call.id);
      IssueAgrees(h, m, call, signed, at, ttl, max, keep);
    } else {
      OtherCallAgrees(h, m, call, ttl, max, signed, keep);
    }
  }

  lemma {:induction false} RunAgrees(steps: seq<Step>, ttl: int, max: int, keep: V.Bucket -> bool)
    requires FreshIds(BookCalls(steps))
    ensures Agrees(Run(BookCalls(steps), ttl, max), V.Run(LedgerCalls(steps, ttl, max)), SignedAt(steps), keep)
    ensures V.OneProcess(LedgerCalls(steps, ttl, max))
  {
    if steps != [] {
      var before, last := steps[..|steps| - 1], steps[|steps| - 1];
      var calls, ledger := BookCalls(before), LedgerCalls(before, ttl, max);
      var h, m, signed := Run(calls, ttl, max), V.Run(ledger), SignedAt(before);
      FreshBefore(calls, if last.Call? then [last.call] else []);
      RunAgrees(before, ttl, max, keep);
      LedgerAfter(ledger, LedgerCall(h, last));
      match last {
        case Call(call, at) =>
          assert (calls + [call])[..|calls|] == calls;
          CallAgrees(calls, call, at, m, signed, ttl, max, keep);
        case GiveBack(id, reason) =>
          assert calls + [] == calls;
          if Gone(h, id) {
            IssuedAsCalled(calls, ttl, max, id);
            FreshIsOnce(calls, id);
            GiveBackAgrees(h, m, id, reason, signed, keep);
          }
        case Anchor(entry) =>
          assert calls + [] == calls;
          AnchorAgrees(h, m, entry, signed, keep);
      }
    }
  }

  lemma {:induction false} WaitingIsHeld(calls: seq<Quotes.Call>, ttl: int, max: int, m: V.Memory, i: nat,
                                         signed: map<string, string>, keep: V.Bucket -> bool)
    requires FreshIds(calls) && Agrees(Run(calls, ttl, max), m, signed, keep) && i < |Run(calls, ttl, max).book.waiting|
    ensures var id := Run(calls, ttl, max).book.waiting[i].id; id !in m.released && id in m.grants
  {
    var h := Run(calls, ttl, max);
    var id := h.book.waiting[i].id;
    EachIdIsInOnePlace(calls, ttl, max, id);
    CountedIsThere(h.book.waiting, id);
    RunConserves(calls, ttl, max, Named(id));
    CountedIsThere(EntriesOf(h.issued), id);
    var j :| 0 <= j < |EntriesOf(h.issued)| && EntriesOf(h.issued)[j].id == id;
    assert h.issued[j].entry.id == id;
  }

  /** Over any run and any days, what the ledger counts as spent, its live grants, is what the waiting quotes signed then
      reserved and what the taken and the dropped ones did that were not given back: no waiting quote is ever given back,
      and none is counted twice. */
  lemma {:induction false} BudgetIsHeld(steps: seq<Step>, ttl: int, max: int, keep: V.Bucket -> bool)
    requires FreshIds(BookCalls(steps))
    ensures var h, m, signed := Run(BookCalls(steps), ttl, max), V.Run(LedgerCalls(steps, ttl, max)), SignedAt(steps);
            && V.Net(m.log, keep) == V.WorthOf(V.LiveGrants(m.log), V.In(keep))
            && V.Net(m.log, keep)
               == Sum(h.book.waiting, Reserved(signed, keep)) + Sum(EntriesOf(h.taken), Held(signed, m.released, keep))
                  + Sum(EntriesOf(h.book.drops), Held(signed, m.released, keep))
            && forall i | 0 <= i < |h.book.waiting| :: V.HasRecorded(m, h.book.waiting[i].id)
  {
    var calls, ledger, signed := BookCalls(steps), LedgerCalls(steps, ttl, max), SignedAt(steps);
    var h, m := Run(calls, ttl, max), V.Run(ledger);
    RunAgrees(steps, ttl, max, keep);
    V.OneProcessNeverForgets(ledger);
    V.SpentIsLiveGrants(ledger, keep);
    RunConserves(calls, ttl, max, Held(signed, m.released, keep));
    forall i | 0 <= i < |h.book.waiting|
      ensures h.book.waiting[i].id !in m.released && h.book.waiting[i].id in m.grants
    {
      WaitingIsHeld(calls, ttl, max, m, i, signed, keep);
    }
    SameSum(h.book.waiting, Held(signed, m.released, keep), Reserved(signed, keep));
  }

  /** So what the ledger's own total says of a day is what the quotes whose intents were signed that day hold. */
  lemma {:induction false} DayIsHeld(steps: seq<Step>, ttl: int, max: int, day: string)
    requires FreshIds(BookCalls(steps))
    ensures var h, m, signed := Run(BookCalls(steps), ttl, max), V.Run(LedgerCalls(steps, ttl, max)), SignedAt(steps);
            V.Total(m.totals, V.Bucket(SUBJECT, CURRENCY, day))
            == Sum(h.book.waiting, Reserved(signed, OfDay(day))) + Sum(EntriesOf(h.taken), Held(signed, m.released, OfDay(day)))
               + Sum(EntriesOf(h.book.drops), Held(signed, m.released, OfDay(day)))
  {
    BudgetIsHeld(steps, ttl, max, OfDay(day));
    V.MemoryIsTheLog(LedgerCalls(steps, ttl, max), "", V.Bucket(SUBJECT, CURRENCY, day));
  }
}
