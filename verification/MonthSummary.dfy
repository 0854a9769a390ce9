/** A team's month, read from its vault: what was paid, refused and spent, and how it spreads over the days. */
module MonthSummary {
  import opened Results
  import opened Text
  import opened Decimal
  import opened Vault

  datatype Payment = Payment(
    intent: string, amount: string, currency: string, at: string, link: Option<(string, string)>, released: bool)

  datatype RefusalRow = RefusalRow(intent: string, code: string, reason: string, at: string)

  datatype Summary = Summary(
    month: string, payments: seq<Payment>, refusals: seq<RefusalRow>, spent: string, currency: Option<string>,
    activeDays: nat)

  /** `YYYY-MM`. */
  predicate IsMonth(m: string) {
    && |m| == 7 && AllDigits(m[..4]) && m[4] == '-' && IsDigit(m[5]) && IsDigit(m[6])
    && 1 <= 10 * DigitOf(m[5]) + DigitOf(m[6]) <= 12
  }

  /** Four digits for the year, and one of the twelve months. */
  lemma {:induction false} MonthsAre(m: string)
    ensures IsMonth(m) <==>
              && |m| == 7 && AllDigits(m[..4]) && m[4] == '-'
              && m[5..] in {"01", "02", "03", "04", "05", "06", "07", "08", "09", "10", "11", "12"}
  {
    if |m| == 7 {
      assert m[5..] == [m[5], m[6]];
    }
  }

  function Month(at: string): string {
    Upto(at, 7)
  }

  // ---------------------------------------------------------------- what a month holds

  predicate GrantedIn(e: Entry, month: string) {
    e.Granted? && Month(e.at) == month
  }

  function Grants(log: seq<Entry>, month: string): seq<Entry> {
    if log == [] then []
    else Grants(log[..|log| - 1], month) + if GrantedIn(log[|log| - 1], month) then [log[|log| - 1]] else []
  }

  function Refusals(log: seq<Entry>, month: string): seq<RefusalRow> {
    if log == [] then []
    else
      var e := log[|log| - 1];
      Refusals(log[..|log| - 1], month)
      + if e.Refused? && Month(e.at) == month then [RefusalRow(e.intent, e.code, e.reason, e.at)] else []
  }

  /** Where an intent's payment settled and was anchored, by the last entry that says so. */
  function LinkOf(log: seq<Entry>, intent: string): Option<(string, string)> {
    if log == [] then None
    else
      var e := log[|log| - 1];
      if e.Anchored? && e.intent == intent then Some((e.paymentTx, e.anchorTx)) else LinkOf(log[..|log| - 1], intent)
  }

  /** A month's grants that count: those whose intent was never released. */
  function Counts(month: string, released: set<string>): Entry -> bool {
    (e: Entry) => GrantedIn(e, month) && e.intent !in released
  }

  function SpentUnits(log: seq<Entry>, month: string): nat {
    WorthOf(log, Counts(month, EverReleased(log)))
  }

  function DaysOf(log: seq<Entry>, counts: Entry -> bool): set<string> {
    if log == [] then {}
    else DaysOf(log[..|log| - 1], counts) + if counts(log[|log| - 1]) then {Day(log[|log| - 1].at)} else {}
  }

  predicate OneCurrency(gs: seq<Entry>) {
    forall i, j | 0 <= i < |gs| && 0 <= j < |gs| && gs[i].Granted? && gs[j].Granted? :: gs[i].currency == gs[j].currency
  }

  predicate AllParse(log: seq<Entry>, counts: Entry -> bool) {
    forall i | 0 <= i < |log| && counts(log[i]) && log[i].Granted? :: ToUnits(log[i].amount).Ok?
  }

  function PaymentOf(log: seq<Entry>, g: Entry): Payment
    requires g.Granted?
  {
    Payment(g.intent, g.amount, g.currency, g.at, LinkOf(log, g.intent), g.intent in EverReleased(log))
  }

  /** `payments` lists these grants, as the whole log tells them. */
  predicate Lists(log: seq<Entry>, gs: seq<Entry>, payments: seq<Payment>) {
    |payments| == |gs| && forall i | 0 <= i < |gs| :: gs[i].Granted? && payments[i] == PaymentOf(log, gs[i])
  }

  // ---------------------------------------------------------------- summarizeMonth

  lemma {:induction false} Prefix(log: seq<Entry>, i: nat)
    requires i < |log|
    ensures log[..i + 1] == log[..i] + [log[i]] && log[..i + 1][..i] == log[..i]
  {
  }

  /** The links and the releases of the whole log, in one pass. */
  method Collect(records: seq<Entry>) returns (anchored: map<string, (string, string)>, released: set<string>)
    ensures released == EverReleased(records)
    ensures forall intent :: (if intent in anchored then Some(anchored[intent]) else None) == LinkOf(records, intent)
  {
    anchored, released := map[], {};
    var i := 0;
    while i < |records|
      invariant 0 <= i <= |records| && released == EverReleased(records[..i])
      invariant forall intent ::
                  (if intent in anchored then Some(anchored[intent]) else None) == LinkOf(records[..i], intent)
    {
      var e := records[i];
      Prefix(records, i);
      if e.Anchored? {
        anchored := anchored[e.intent := (e.paymentTx, e.anchorTx)];
      }
      if e.Released? {
        released := released + {e.intent};
      }
      i := i + 1;
    }
    assert records[..i] == records;
  }

  /** What the loop holds once it has read `front`. */
  predicate Reading(log: seq<Entry>, month: string, front: seq<Entry>, payments: seq<Payment>,
                    refusals: seq<RefusalRow>, spent: int, days: set<string>)
  {
    var counts := Counts(month, EverReleased(log));
    && Lists(log, Grants(front, month), payments)
    && refusals == Refusals(front, month)
    && spent == WorthOf(front, counts)
    && days == DaysOf(front, counts)
    && AllParse(front, counts)
  }

  lemma {:induction false} ListsOneMore(log: seq<Entry>, gs: seq<Entry>, payments: seq<Payment>, e: Entry)
    requires Lists(log, gs, payments) && e.Granted?
    ensures Lists(log, gs + [e], payments + [PaymentOf(log, e)])
  {
  }

  lemma {:induction false} ParseOneMore(log: seq<Entry>, e: Entry, counts: Entry -> bool)
    requires AllParse(log, counts) && (counts(e) && e.Granted? ==> ToUnits(e.amount).Ok?)
    ensures AllParse(log + [e], counts)
  {
  }

  lemma {:induction false} OneMoreEntry(log: seq<Entry>, e: Entry, month: string, counts: Entry -> bool)
    ensures Grants(log + [e], month) == Grants(log, month) + if GrantedIn(e, month) then [e] else []
    ensures Refusals(log + [e], month) == Refusals(log, month)
      + if e.Refused? && Month(e.at) == month then [RefusalRow(e.intent, e.code, e.reason, e.at)] else []
    ensures DaysOf(log + [e], counts) == DaysOf(log, counts) + if counts(e) then {Day(e.at)} else {}
  {
    LogGrows(log, e);
  }

  lemma {:induction false} ReadGrant(log: seq<Entry>, month: string, front: seq<Entry>, e: Entry, payments: seq<Payment>,
                  refusals: seq<RefusalRow>, spent: int, days: set<string>)
    requires Reading(log, month, front, payments, refusals, spent, days) && GrantedIn(e, month)
    requires e.intent in EverReleased(log) || ToUnits(e.amount).Ok?
    ensures var counted := e.intent !in EverReleased(log);
            Reading(log, month, front + [e], payments + [PaymentOf(log, e)], refusals,
                    if counted then spent + Worth(e) else spent, if counted then days + {Day(e.at)} else days)
  {
    var counts := Counts(month, EverReleased(log));
    OneMoreEntry(front, e, month, counts);
    WorthOfOneMore(front, e, counts);
    ListsOneMore(log, Grants(front, month), payments, e);
    ParseOneMore(front, e, counts);
    assert days + {} == days && refusals + [] == refusals;
  }

  lemma {:induction false} ReadOther(log: seq<Entry>, month: string, front: seq<Entry>, e: Entry, payments: seq<Payment>,
                  refusals: seq<RefusalRow>, spent: int, days: set<string>)
    requires Reading(log, month, front, payments, refusals, spent, days) && !GrantedIn(e, month)
    ensures var more := if e.Refused? && Month(e.at) == month then [RefusalRow(e.intent, e.code, e.reason, e.at)] else [];
            Reading(log, month, front + [e], payments, refusals + more, spent, days)
  {
    var counts := Counts(month, EverReleased(log));
    OneMoreEntry(front, e, month, counts);
    WorthOfOneMore(front, e, counts);
    ParseOneMore(front, e, counts);
    assert Grants(front, month) + [] == Grants(front, month);
    assert days + {} == days;
  }

  /** One granted entry of the month, listed and counted. */
  method ReadPayment(ghost log: seq<Entry>, month: string, ghost front: seq<Entry>, e: Entry,
                     anchored: map<string, (string, string)>, released: set<string>, payments: seq<Payment>,
                     ghost refusals: seq<RefusalRow>, spent: int, days: set<string>)
      returns (ok: bool, listed: seq<Payment>, total: int, active: set<string>)
    requires Reading(log, month, front, payments, refusals, spent, days) && GrantedIn(e, month)
    requires released == EverReleased(log)
    requires forall x :: (if x in anchored then Some(anchored[x]) else None) == LinkOf(log, x)
    ensures ok <==> e.intent in released || ToUnits(e.amount).Ok?
    ensures ok ==> listed == payments + [PaymentOf(log, e)]
                   && Reading(log, month, front + [e], listed, refusals, total, active)
  {
    var link := if e.intent in anchored then Some(anchored[e.intent]) else None;
    ok, listed, total, active := true, payments, spent, days;
    assert link == LinkOf(log, e.intent);
    listed := listed + [Payment(e.intent, e.amount, e.currency, e.at, link, e.intent in released)];
    if e.intent !in released {
      var units := ToUnits(e.amount);
      if units.Err? {
        ok := false;
        return;
      }
      total := total + units.value;
      active := active + {Day(e.at)};
    }
    ReadGrant(log, month, front, e, payments, refusals, spent, days);
  }

  lemma {:induction false} NotCounted(log: seq<Entry>, month: string, i: nat)
    requires i < |log| && GrantedIn(log[i], month) && log[i].intent !in EverReleased(log) && ToUnits(log[i].amount).Err?
    ensures !Summarisable(log, month)
  {
    assert Counts(month, EverReleased(log))(log[i]);
  }

  /** One currency among the month's grants, and an amount in each that counts. */
  predicate Summarisable(log: seq<Entry>, month: string) {
    OneCurrency(Grants(log, month)) && AllParse(log, Counts(month, EverReleased(log)))
  }

  /** What a summary says of its log. */
  predicate Summarises(log: seq<Entry>, month: string, s: Summary) {
    && s.month == month
    && Lists(log, Grants(log, month), s.payments)
    && s.refusals == Refusals(log, month)
    && s.spent == FromUnits(SpentUnits(log, month))
    && s.activeDays == |DaysOf(log, Counts(month, EverReleased(log)))|
    && Denominated(s.payments, s.currency)
  }

  lemma {:induction false} ReadAll(log: seq<Entry>, month: string, payments: seq<Payment>, refusals: seq<RefusalRow>, spent: int,
                days: set<string>, currency: Option<string>)
    requires Reading(log, month, log, payments, refusals, spent, days) && Denominated(payments, currency)
    ensures Summarisable(log, month)
    ensures Summarises(log, month, Summary(month, payments, refusals, FromUnits(spent), currency, |days|))
  {
  }

  lemma {:induction false} DenominatedOneMore(payments: seq<Payment>, currency: Option<string>, p: Payment)
    requires Denominated(payments, currency) && (currency.None? || currency.value == p.currency)
    ensures Denominated(payments + [p], Some(p.currency))
  {
  }

  method SummarizeMonth(records: seq<Entry>, month: string) returns (r: Result<Summary, Error>)
    ensures !IsMonth(month) ==> r == Err(InvalidArguments)
    ensures IsMonth(month) ==> (r.Ok? <==> Summarisable(records, month))
    ensures IsMonth(month) && r.Err? ==> r == Err(InvalidAmount)
    ensures r.Ok? ==> Summarises(records, month, r.value)
  {
    if !IsMonth(month) {
      return Err(InvalidArguments);
    }
    var anchored, released := Collect(records);
    var payments: seq<Payment>, refusals: seq<RefusalRow> := [], [];
    var days: set<string>, spent := {}, 0;
    var currency: Option<string> := None;
    var i := 0;
    while i < |records|
      invariant 0 <= i <= |records| && Reading(records, month, records[..i], payments, refusals, spent, days)
      invariant Denominated(payments, currency)
    {
      var e := records[i];
      Prefix(records, i);
      if GrantedIn(e, month) {
        if currency.Some? && currency.value != e.currency {
          MixedCurrencies(records, month, i, payments, currency);
          return Err(InvalidAmount);
        }
        DenominatedOneMore(payments, currency, PaymentOf(records, e));
        currency := Some(e.currency);
        var ok;
        ok, payments, spent, days :=
          ReadPayment(records, month, records[..i], e, anchored, released, payments, refusals, spent, days);
        if !ok {
          NotCounted(records, month, i);
          return Err(InvalidAmount);
        }
      } else {
        ReadOther(records, month, records[..i], e, payments, refusals, spent, days);
        refusals := refusals
          + if e.Refused? && Month(e.at) == month then [RefusalRow(e.intent, e.code, e.reason, e.at)] else [];
      }
      i := i + 1;
    }
    assert records[..i] == records;
    ReadAll(records, month, payments, refusals, spent, days, currency);
    r := Ok(Summary(month, payments, refusals, FromUnits(spent), currency, |days|));
  }

  /** These places in the log, in order, are the ones that hold what `keep` keeps. */
  predicate Picks(log: seq<Entry>, at: seq<nat>, keep: Entry -> bool) {
    && (forall k | 0 <= k < |at| :: at[k] < |log| && keep(log[at[k]]))
    && (forall j, k | 0 <= j < k < |at| :: at[j] < at[k])
    && (forall i | 0 <= i < |log| :: keep(log[i]) ==> i in at)
  }

  function GrantsOf(month: string): Entry -> bool {
    (e: Entry) => e.Granted? && month <= e.at
  }

  function RefusalsIn(month: string): Entry -> bool {
    (e: Entry) => e.Refused? && month <= e.at
  }

  /** `kept` is what the log holds at those places. */
  predicate Places(log: seq<Entry>, at: seq<nat>, keep: Entry -> bool, kept: seq<Entry>) {
    Picks(log, at, keep) && |kept| == |at| && forall k | 0 <= k < |at| :: kept[k] == log[at[k]]
  }

  lemma {:induction false} NoPlaces(keep: Entry -> bool)
    ensures Places([], [], keep, [])
  {
  }

  lemma {:induction false} OneMorePlace(log: seq<Entry>, at: seq<nat>, keep: Entry -> bool, kept: seq<Entry>, e: Entry)
    requires Places(log, at, keep, kept)
    ensures Places(log + [e], if keep(e) then at + [|log|] else at, keep, if keep(e) then kept + [e] else kept)
  {
    var all, more := log + [e], if keep(e) then at + [|log|] else at;
    assert forall k | 0 <= k < |at| :: more[k] == at[k] && all[at[k]] == log[at[k]];
    forall i | 0 <= i < |all| && keep(all[i]) ensures i in more {
      if i < |log| {
        assert all[i] == log[i];
        var k :| 0 <= k < |at| && at[k] == i;
        assert more[k] == i;
      } else {
        assert more[|at|] == i;
      }
    }
  }

  lemma {:induction false} DatedIn(at: string, month: string)
    requires |month| == 7
    ensures Month(at) == month <==> month <= at
  {
  }

  lemma {:induction false} GrantsArePicked(log: seq<Entry>, month: string) returns (at: seq<nat>)
    requires |month| == 7
    ensures Places(log, at, GrantsOf(month), Grants(log, month))
  {
    hide Month, Places;
    if log == [] {
      at := [];
      NoPlaces(GrantsOf(month));
    } else {
      var before, e := log[..|log| - 1], log[|log| - 1];
      at := GrantsArePicked(before, month);
      OneMorePlace(before, at, GrantsOf(month), Grants(before, month), e);
      assert log == before + [e];
      DatedIn(e.at, month);
      assert Grants(before, month) + [] == Grants(before, month);
      at := if GrantedIn(e, month) then at + [|before|] else at;
    }
  }

  function RowsOf(es: seq<Entry>): seq<RefusalRow>
    requires forall e | e in es :: e.Refused?
  {
    seq(|es|, i requires 0 <= i < |es| => RefusalRow(es[i].intent, es[i].code, es[i].reason, es[i].at))
  }

  lemma {:induction false} RefusalsArePicked(log: seq<Entry>, month: string) returns (at: seq<nat>, es: seq<Entry>)
    requires |month| == 7
    ensures Places(log, at, RefusalsIn(month), es)
    ensures (forall e | e in es :: e.Refused?) && Refusals(log, month) == RowsOf(es)
  {
    hide Month, Places;
    if log == [] {
      at, es := [], [];
      NoPlaces(RefusalsIn(month));
    } else {
      var before, e := log[..|log| - 1], log[|log| - 1];
      at, es := RefusalsArePicked(before, month);
      OneMorePlace(before, at, RefusalsIn(month), es, e);
      assert log == before + [e];
      DatedIn(e.at, month);
      if e.Refused? && Month(e.at) == month {
        at, es := at + [|before|], es + [e];
      }
    }
  }

  /** No entry from `i` on anchors the intent. */
  predicate NotAnchoredFrom(log: seq<Entry>, intent: string, i: nat) {
    forall j | i <= j < |log| :: !(log[j].Anchored? && log[j].intent == intent)
  }

  /** An intent's link is what its last anchor says. */
  lemma {:induction false} LinkIsLast(log: seq<Entry>, intent: string)
    ensures LinkOf(log, intent).None? <==> NotAnchoredFrom(log, intent, 0)
    ensures LinkOf(log, intent).Some? ==> exists i | 0 <= i < |log| ::
              && log[i].Anchored? && log[i].intent == intent && NotAnchoredFrom(log, intent, i + 1)
              && LinkOf(log, intent).value == (log[i].paymentTx, log[i].anchorTx)
  {
    if log != [] {
      var before, e := log[..|log| - 1], log[|log| - 1];
      LinkIsLast(before, intent);
      assert log == before + [e];
      if e.Anchored? && e.intent == intent {
        assert NotAnchoredFrom(log, intent, |before| + 1);
      } else if LinkOf(before, intent).Some? {
        var i :| 0 <= i < |before| && before[i].Anchored? && before[i].intent == intent
                 && NotAnchoredFrom(before, intent, i + 1)
                 && LinkOf(before, intent).value == (before[i].paymentTx, before[i].anchorTx);
        assert NotAnchoredFrom(log, intent, i + 1) && log[i] == before[i];
      }
    }
  }

  lemma {:induction false} EverReleasedWhen(log: seq<Entry>, intent: string)
    ensures intent in EverReleased(log) <==> exists i | 0 <= i < |log| :: log[i].Released? && log[i].intent == intent
  {
    if log != [] {
      var before, e := log[..|log| - 1], log[|log| - 1];
      EverReleasedWhen(before, intent);
      assert log == before + [e];
      assert forall i | 0 <= i < |before| :: log[i] == before[i];
    }
  }

  /** A summary lists the log's own entries: each grant dated in the month once, in the log's order, with its last anchor
      and whether a release names its intent anywhere; and each refusal likewise. */
  lemma {:induction false} SummaryIsTheLog(log: seq<Entry>, month: string, s: Summary) returns (paid: seq<nat>, refused: seq<nat>)
    requires IsMonth(month) && Summarises(log, month, s)
    ensures Picks(log, paid, GrantsOf(month)) && |paid| == |s.payments|
    ensures forall k | 0 <= k < |paid| ::
              var e, p := log[paid[k]], s.payments[k];
              && (p.intent, p.amount, p.currency, p.at) == (e.intent, e.amount, e.currency, e.at)
              && (p.released <==> exists i | 0 <= i < |log| :: log[i].Released? && log[i].intent == e.intent)
              && p.link == LinkOf(log, e.intent)
    ensures Picks(log, refused, RefusalsIn(month)) && |refused| == |s.refusals|
    ensures forall k | 0 <= k < |refused| ::
              var e, r := log[refused[k]], s.refusals[k];
              (r.intent, r.code, r.reason, r.at) == (e.intent, e.code, e.reason, e.at)
  {
    paid := GrantsArePicked(log, month);
    var es;
    refused, es := RefusalsArePicked(log, month);
    forall k | 0 <= k < |paid|
      ensures s.payments[k].released <==> exists i | 0 <= i < |log| :: log[i].Released? && log[i].intent == log[paid[k]].intent
    {
      EverReleasedWhen(log, log[paid[k]].intent);
    }
  }

  /** All the payments are in the summary's currency; without payments it has none. */
  predicate Denominated(payments: seq<Payment>, currency: Option<string>) {
    if payments == [] then currency == None
    else currency.Some? && forall i | 0 <= i < |payments| :: payments[i].currency == currency.value
  }

  lemma {:induction false} GrantsGrow(log: seq<Entry>, month: string, i: nat)
    requires i <= |log|
    ensures Grants(log[..i], month) <= Grants(log, month)
    decreases |log| - i
  {
    if i == |log| {
      assert log[..i] == log;
    } else {
      Prefix(log, i);
      GrantsGrow(log, month, i + 1);
    }
  }

  lemma {:induction false} MixedCurrencies(log: seq<Entry>, month: string, i: nat, payments: seq<Payment>, currency: Option<string>)
    requires i < |log| && GrantedIn(log[i], month) && Lists(log, Grants(log[..i], month), payments)
    requires currency.Some? && currency.value != log[i].currency && Denominated(payments, currency)
    ensures !Summarisable(log, month)
  {
    Prefix(log, i);
    var before, all := Grants(log[..i], month), Grants(log, month);
    GrantsGrow(log, month, i + 1);
    assert Grants(log[..i + 1], month) == before + [log[i]];
    assert all[0] == before[0] && all[|before|] == log[i];
  }

  // ---------------------------------------------------------------- dayRows

  /** A day of the table; `percent` is in hundredths of a percent of the day's budget. */
  datatype DayRow = DayRow(day: string, spent: string, payments: nat, refusals: nat, percent: nat)

  datatype Tally = Tally(day: string, spent: nat, payments: nat, refusals: nat)

  function UnitsOfPayment(p: Payment): nat {
    match ToUnits(p.amount)
    case Ok(units) => units
    case Err(_) => 0
  }

  /** What the payments that were not released add up to, on the days `on` keeps. */
  function Paid(ps: seq<Payment>, on: string -> bool): nat {
    if ps == [] then 0
    else
      var p := ps[|ps| - 1];
      Paid(ps[..|ps| - 1], on) + if !p.released && on(Day(p.at)) then UnitsOfPayment(p) else 0
  }

  function PaidCount(ps: seq<Payment>, on: string -> bool): nat {
    if ps == [] then 0
    else
      var p := ps[|ps| - 1];
      PaidCount(ps[..|ps| - 1], on) + if !p.released && on(Day(p.at)) then 1 else 0
  }

  function RefusalCount(rs: seq<RefusalRow>, on: string -> bool): nat {
    if rs == [] then 0
    else RefusalCount(rs[..|rs| - 1], on) + if on(Day(rs[|rs| - 1].at)) then 1 else 0
  }

  predicate IsPaidOn(p: Payment, on: string -> bool) {
    !p.released && on(Day(p.at))
  }

  /** The payments of those days that were not released, each once. */
  lemma {:induction false} EachPaymentOnce(ps: seq<Payment>, on: string -> bool)
    ensures PaidCount(ps, on) == |set i | 0 <= i < |ps| && IsPaidOn(ps[i], on)|
  {
    var all := set i | 0 <= i < |ps| && IsPaidOn(ps[i], on);
    if ps == [] {
      assert all == {};
    } else {
      var front, last := ps[..|ps| - 1], ps[|ps| - 1];
      EachPaymentOnce(front, on);
      var before := set i | 0 <= i < |front| && IsPaidOn(front[i], on);
      assert PaidCount(ps, on) == PaidCount(front, on) + if IsPaidOn(last, on) then 1 else 0;
      hide PaidCount, IsPaidOn;
      assert forall i | 0 <= i < |front| :: ps[i] == front[i];
      assert all == if IsPaidOn(last, on) then before + {|front|} else before;
    }
  }

  function OnDay(day: string): string -> bool {
    (d: string) => d == day
  }

  function AnyDay(): string -> bool {
    (d: string) => true
  }

  function Find(ts: seq<Tally>, day: string): (i: nat)
    ensures i <= |ts| && (i < |ts| ==> ts[i].day == day) && forall j | 0 <= j < i :: ts[j].day != day
  {
    if ts == [] || ts[0].day == day then 0 else 1 + Find(ts[1..], day)
  }

  predicate DistinctDays(ts: seq<Tally>) {
    forall i, j | 0 <= i < j < |ts| :: ts[i].day != ts[j].day
  }

  /** Each row holds exactly its own day of these payments and refusals; a day without a row has none. */
  predicate Tallied(ts: seq<Tally>, ps: seq<Payment>, rs: seq<RefusalRow>) {
    && DistinctDays(ts)
    && (forall i | 0 <= i < |ts| ::
          ts[i] == Tally(ts[i].day, Paid(ps, OnDay(ts[i].day)), PaidCount(ps, OnDay(ts[i].day)),
                         RefusalCount(rs, OnDay(ts[i].day))))
    && (forall i | 0 <= i < |ps| && !ps[i].released :: Find(ts, Day(ps[i].at)) < |ts|)
    && (forall i | 0 <= i < |rs| :: Find(ts, Day(rs[i].at)) < |ts|)
  }

  /** Every row has a payment or a refusal. */
  predicate NoneEmpty(ts: seq<Tally>) {
    forall i | 0 <= i < |ts| :: ts[i].payments > 0 || ts[i].refusals > 0
  }

  /** The row of a day, made when it is missing. */
  method RowAt(ts: seq<Tally>, day: string) returns (more: seq<Tally>, i: nat)
    ensures i == Find(ts, day) < |more| && more[i].day == day
    ensures more == if Find(ts, day) < |ts| then ts else ts + [Tally(day, 0, 0, 0)]
  {
    i := 0;
    while i < |ts| && ts[i].day != day
      invariant 0 <= i <= |ts| && i <= Find(ts, day)
    {
      i := i + 1;
    }
    more := if i < |ts| then ts else ts + [Tally(day, 0, 0, 0)];
  }

  lemma {:induction false} FindByDay(ts: seq<Tally>, day: string, i: nat)
    requires i < |ts| && ts[i].day == day
    ensures Find(ts, day) < |ts|
  {
  }

  /** A day no payment or refusal fell on. */
  lemma {:induction false} NothingPaid(ps: seq<Payment>, day: string)
    requires forall i | 0 <= i < |ps| && !ps[i].released :: Day(ps[i].at) != day
    ensures Paid(ps, OnDay(day)) == 0 && PaidCount(ps, OnDay(day)) == 0
  {
    if ps != [] {
      NothingPaid(ps[..|ps| - 1], day);
    }
  }

  lemma {:induction false} NothingRefused(rs: seq<RefusalRow>, day: string)
    requires forall i | 0 <= i < |rs| :: Day(rs[i].at) != day
    ensures RefusalCount(rs, OnDay(day)) == 0
  {
    if rs != [] {
      NothingRefused(rs[..|rs| - 1], day);
    }
  }

  /** A missing row is an empty one. */
  lemma {:induction false} MissingIsEmpty(ts: seq<Tally>, ps: seq<Payment>, rs: seq<RefusalRow>, day: string)
    requires Tallied(ts, ps, rs) && Find(ts, day) == |ts|
    ensures Tallied(ts + [Tally(day, 0, 0, 0)], ps, rs)
  {
    var more := ts + [Tally(day, 0, 0, 0)];
    forall i | 0 <= i < |ps| && !ps[i].released ensures Day(ps[i].at) != day && Find(more, Day(ps[i].at)) < |more| {
      var k := Find(ts, Day(ps[i].at));
      FindByDay(more, Day(ps[i].at), k);
    }
    forall i | 0 <= i < |rs| ensures Day(rs[i].at) != day && Find(more, Day(rs[i].at)) < |more| {
      var k := Find(ts, Day(rs[i].at));
      FindByDay(more, Day(rs[i].at), k);
    }
    NothingPaid(ps, day);
    NothingRefused(rs, day);
  }

  /** A payment added to its day's row. */
  function Credit(ts: seq<Tally>, k: nat, units: nat): seq<Tally>
    requires k < |ts|
  {
    ts[k := ts[k].(spent := ts[k].spent + units, payments := ts[k].payments + 1)]
  }

  lemma {:induction false} PaymentTallied(ts: seq<Tally>, ps: seq<Payment>, rs: seq<RefusalRow>, p: Payment, k: nat)
    requires Tallied(ts, ps, rs) && k < |ts| && !p.released && ts[k].day == Day(p.at)
    ensures Tallied(Credit(ts, k, UnitsOfPayment(p)), ps + [p], rs)
  {
    assert (ps + [p])[..|ps|] == ps;
    var next := Credit(ts, k, UnitsOfPayment(p));
    SameDays(ts, next);
    FindByDay(next, Day(p.at), k);
  }

  lemma {:induction false} RowMade(ts: seq<Tally>, more: seq<Tally>, ps: seq<Payment>, rs: seq<RefusalRow>, day: string)
    requires Tallied(ts, ps, rs) && more == if Find(ts, day) < |ts| then ts else ts + [Tally(day, 0, 0, 0)]
    ensures Tallied(more, ps, rs)
  {
    if Find(ts, day) == |ts| {
      MissingIsEmpty(ts, ps, rs, day);
    }
  }

  function CountRefusal(ts: seq<Tally>, k: nat): seq<Tally>
    requires k < |ts|
  {
    ts[k := ts[k].(refusals := ts[k].refusals + 1)]
  }

  lemma {:induction false} RefusalTallied(ts: seq<Tally>, ps: seq<Payment>, rs: seq<RefusalRow>, r: RefusalRow, k: nat)
    requires Tallied(ts, ps, rs) && k < |ts| && ts[k].day == Day(r.at)
    ensures Tallied(CountRefusal(ts, k), ps, rs + [r])
  {
    assert (rs + [r])[..|rs|] == rs;
    var next := CountRefusal(ts, k);
    SameDays(ts, next);
    FindByDay(next, Day(r.at), k);
  }

  lemma {:induction false} SameDays(a: seq<Tally>, b: seq<Tally>)
    requires |a| == |b| && forall i | 0 <= i < |a| :: a[i].day == b[i].day
    ensures forall day :: Find(a, day) == Find(b, day)
  {
    forall day ensures Find(a, day) == Find(b, day) {
      var i, j := Find(a, day), Find(b, day);
    }
  }

  function RowOf(t: Tally, cap: nat): DayRow {
    DayRow(t.day, FromUnits(t.spent), t.payments, t.refusals, if cap == 0 then 0 else t.spent * 10_000 / cap)
  }

  predicate PaymentsParse(ps: seq<Payment>) {
    forall i | 0 <= i < |ps| && !ps[i].released :: ToUnits(ps[i].amount).Ok?
  }

  /** One row for each day with a payment or a refusal, and no other. */
  predicate Table(ts: seq<Tally>, ps: seq<Payment>, rs: seq<RefusalRow>) {
    Tallied(ts, ps, rs) && NoneEmpty(ts)
  }

  lemma {:induction false} PaymentAdded(ts: seq<Tally>, more: seq<Tally>, ps: seq<Payment>, i: nat, k: nat)
    requires i < |ps| && !ps[i].released && k < |more| && more[k].day == Day(ps[i].at) && Table(ts, ps[..i], [])
    requires more == if Find(ts, Day(ps[i].at)) < |ts| then ts else ts + [Tally(Day(ps[i].at), 0, 0, 0)]
    ensures Table(Credit(more, k, UnitsOfPayment(ps[i])), ps[..i + 1], [])
  {
    assert ps[..i + 1] == ps[..i] + [ps[i]];
    RowMade(ts, more, ps[..i], [], Day(ps[i].at));
    PaymentTallied(more, ps[..i], [], ps[i], k);
  }

  lemma {:induction false} ReleasedAdded(ts: seq<Tally>, ps: seq<Payment>, i: nat)
    requires i < |ps| && ps[i].released && Table(ts, ps[..i], [])
    ensures Table(ts, ps[..i + 1], [])
  {
    var more := ps[..i + 1];
    assert more == ps[..i] + [ps[i]] && more[..i] == ps[..i];
    forall j | 0 <= j < |more| && !more[j].released ensures Find(ts, Day(more[j].at)) < |ts| {
      assert more[j] == ps[..i][j];
    }
  }

  /** One payment, in its day's row. */
  method AddPayment(ts: seq<Tally>, ps: seq<Payment>, i: nat) returns (r: Result<seq<Tally>, Error>)
    requires i < |ps| && Table(ts, ps[..i], [])
    ensures r.Ok? <==> ps[i].released || ToUnits(ps[i].amount).Ok?
    ensures r.Err? ==> r == Err(InvalidAmount)
    ensures r.Ok? ==> Table(r.value, ps[..i + 1], [])
  {
    if ps[i].released {
      ReleasedAdded(ts, ps, i);
      return Ok(ts);
    }
    var more, k := RowAt(ts, Day(ps[i].at));
    var units := ToUnits(ps[i].amount);
    if units.Err? {
      return Err(InvalidAmount);
    }
    PaymentAdded(ts, more, ps, i, k);
    r := Ok(Credit(more, k, units.value));
  }

  method TallyPayments(ps: seq<Payment>) returns (r: Result<seq<Tally>, Error>)
    ensures r.Ok? <==> PaymentsParse(ps)
    ensures r.Err? ==> r == Err(InvalidAmount)
    ensures r.Ok? ==> Table(r.value, ps, [])
  {
    var days: seq<Tally> := [];
    var i := 0;
    while i < |ps|
      invariant 0 <= i <= |ps| && Table(days, ps[..i], [])
      invariant forall j | 0 <= j < i && !ps[j].released :: ToUnits(ps[j].amount).Ok?
    {
      var next := AddPayment(days, ps, i);
      if next.Err? {
        return next;
      }
      days := next.value;
      i := i + 1;
    }
    assert ps[..i] == ps;
    r := Ok(days);
  }

  lemma {:induction false} RefusalAdded(ts: seq<Tally>, more: seq<Tally>, ps: seq<Payment>, rs: seq<RefusalRow>, i: nat, k: nat)
    requires i < |rs| && k < |more| && more[k].day == Day(rs[i].at) && Table(ts, ps, rs[..i])
    requires more == if Find(ts, Day(rs[i].at)) < |ts| then ts else ts + [Tally(Day(rs[i].at), 0, 0, 0)]
    ensures Table(CountRefusal(more, k), ps, rs[..i + 1])
  {
    assert rs[..i + 1] == rs[..i] + [rs[i]];
    RowMade(ts, more, ps, rs[..i], Day(rs[i].at));
    RefusalTallied(more, ps, rs[..i], rs[i], k);
  }

  /** One refusal, in its day's row. */
  method AddRefusal(ts: seq<Tally>, ghost ps: seq<Payment>, rs: seq<RefusalRow>, i: nat) returns (days: seq<Tally>)
    requires i < |rs| && Table(ts, ps, rs[..i])
    ensures Table(days, ps, rs[..i + 1])
  {
    var more, k := RowAt(ts, Day(rs[i].at));
    RefusalAdded(ts, more, ps, rs, i, k);
    days := CountRefusal(more, k);
  }

  method TallyRefusals(ts: seq<Tally>, ghost ps: seq<Payment>, rs: seq<RefusalRow>) returns (days: seq<Tally>)
    requires Table(ts, ps, [])
    ensures Table(days, ps, rs)
  {
    days := ts;
    var i := 0;
    while i < |rs|
      invariant 0 <= i <= |rs| && Table(days, ps, rs[..i])
    {
      days := AddRefusal(days, ps, rs, i);
      i := i + 1;
    }
    assert rs[..i] == rs;
  }

  predicate InDayOrder(ts: seq<Tally>) {
    forall i, j | 0 <= i < j < |ts| :: Less(ts[i].day, ts[j].day)
  }

  function InsertByDay(ts: seq<Tally>, t: Tally): seq<Tally> {
    if ts == [] then [t]
    else if Less(t.day, ts[0].day) then [t] + ts
    else [ts[0]] + InsertByDay(ts[1..], t)
  }

  /** `sort`, by day. */
  function ByDay(ts: seq<Tally>): seq<Tally> {
    if ts == [] then [] else InsertByDay(ByDay(ts[1..]), ts[0])
  }

  lemma {:induction false} InsertedInOrder(ts: seq<Tally>, t: Tally)
    requires InDayOrder(ts) && forall x | x in ts :: x.day != t.day
    ensures InDayOrder(InsertByDay(ts, t))
    ensures forall x :: x in InsertByDay(ts, t) <==> x in ts || x == t
  {
    if ts != [] {
      assert ts == [ts[0]] + ts[1..];
      if Less(t.day, ts[0].day) {
        forall i | 0 < i < |ts| ensures Less(t.day, ts[i].day) {
          LessTransitive(t.day, ts[0].day, ts[i].day);
        }
      } else {
        LessTotal(t.day, ts[0].day);
        InsertedInOrder(ts[1..], t);
        assert forall x | x in InsertByDay(ts[1..], t) :: Less(ts[0].day, x.day);
      }
    }
  }

  /** Sorting puts distinct days in order, and keeps the rows. */
  lemma {:induction false} SortedByDay(ts: seq<Tally>)
    requires DistinctDays(ts)
    ensures InDayOrder(ByDay(ts)) && forall x :: x in ByDay(ts) <==> x in ts
  {
    if ts != [] {
      SortedByDay(ts[1..]);
      assert ts == [ts[0]] + ts[1..];
      InsertedInOrder(ByDay(ts[1..]), ts[0]);
    }
  }

  lemma {:induction false} FoundIn(a: seq<Tally>, b: seq<Tally>, day: string)
    requires Find(a, day) < |a| && forall x | x in a :: x in b
    ensures Find(b, day) < |b|
  {
    var t := a[Find(a, day)];
    assert t in b;
    var i :| 0 <= i < |b| && b[i] == t;
    FindByDay(b, day, i);
  }

  /** The same rows in day order are still a tally. */
  lemma {:induction false} SortedTallied(ts: seq<Tally>, ps: seq<Payment>, rs: seq<RefusalRow>)
    requires Table(ts, ps, rs)
    ensures Table(ByDay(ts), ps, rs) && InDayOrder(ByDay(ts))
  {
    var sorted := ByDay(ts);
    SortedByDay(ts);
    forall i, j | 0 <= i < j < |sorted| ensures sorted[i].day != sorted[j].day {
      LessTotal(sorted[i].day, sorted[j].day);
    }
    forall i | 0 <= i < |sorted|
      ensures sorted[i] == Tally(sorted[i].day, Paid(ps, OnDay(sorted[i].day)), PaidCount(ps, OnDay(sorted[i].day)),
                                 RefusalCount(rs, OnDay(sorted[i].day)))
      ensures sorted[i].payments > 0 || sorted[i].refusals > 0
    {
      assert sorted[i] in ts;
    }
    forall i | 0 <= i < |ps| && !ps[i].released ensures Find(sorted, Day(ps[i].at)) < |sorted| {
      FoundIn(ts, sorted, Day(ps[i].at));
    }
    forall i | 0 <= i < |rs| ensures Find(sorted, Day(rs[i].at)) < |sorted| {
      FoundIn(ts, sorted, Day(rs[i].at));
    }
  }

  /** What a row shows of a day: what was paid and refused that day, and how much of the cap that is, in hundredths of a
      percent rounded down. */
  predicate Shows(row: DayRow, summary: Summary, cap: nat) {
    var spent := Paid(summary.payments, OnDay(row.day));
    && ToUnits(row.spent) == Ok(spent)
    && row.payments == PaidCount(summary.payments, OnDay(row.day))
    && row.refusals == RefusalCount(summary.refusals, OnDay(row.day))
    && (cap == 0 ==> row.percent == 0)
    && (cap > 0 ==> row.percent * cap <= spent * 10_000 < (row.percent + 1) * cap)
  }

  lemma {:induction false} PercentOf(spent: nat, cap: nat)
    requires cap > 0
    ensures var percent := spent * 10_000 / cap; percent * cap <= spent * 10_000 < (percent + 1) * cap
  {
    var x := spent * 10_000;
    assert x == cap * (x / cap) + x % cap;
  }

  lemma {:induction false} RowShows(t: Tally, summary: Summary, cap: nat)
    requires t.spent == Paid(summary.payments, OnDay(t.day)) && t.payments == PaidCount(summary.payments, OnDay(t.day))
    requires t.refusals == RefusalCount(summary.refusals, OnDay(t.day))
    ensures Shows(RowOf(t, cap), summary, cap) && RowOf(t, cap).day == t.day
  {
    hide Paid, PaidCount, RefusalCount, ToUnits, FromUnits;
    UnitsRoundTrip(t.spent);
    if cap > 0 {
      PercentOf(t.spent, cap);
    }
  }

  /** One row for each day with a payment or a refusal, in day order, with the tallies they show. */
  method DayRows(summary: Summary, teamPerDay: string) returns (r: Result<seq<DayRow>, Error>, ghost ts: seq<Tally>)
    ensures r.Ok? <==> PaymentsParse(summary.payments) && ToUnits(teamPerDay).Ok?
    ensures r.Err? ==> r == Err(InvalidAmount)
    ensures r.Ok? ==>
              && Table(ts, summary.payments, summary.refusals) && InDayOrder(ts)
              && |r.value| == |ts|
              && forall i | 0 <= i < |ts| ::
                   r.value[i].day == ts[i].day && Shows(r.value[i], summary, ToUnits(teamPerDay).value)
  {
    ts := [];
    var tallied := TallyPayments(summary.payments);
    if tallied.Err? {
      return Err(InvalidAmount), ts;
    }
    var days := TallyRefusals(tallied.value, summary.payments, summary.refusals);
    var cap := ToUnits(teamPerDay);
    if cap.Err? {
      return Err(InvalidAmount), ts;
    }
    SortedTallied(days, summary.payments, summary.refusals);
    var sorted := ByDay(days);
    ts := sorted;
    r := Ok(seq(|sorted|, j requires 0 <= j < |sorted| => RowOf(sorted[j], cap.value)));
    forall i | 0 <= i < |ts| ensures Shows(r.value[i], summary, cap.value) && r.value[i].day == ts[i].day {
      RowShows(ts[i], summary, cap.value);
    }
  }

  // ---------------------------------------------------------------- conservation

  function SumOf(ts: seq<Tally>, f: Tally -> nat): nat {
    if ts == [] then 0 else f(ts[0]) + SumOf(ts[1..], f)
  }

  function SpentOf(t: Tally): nat { t.spent }

  function PaymentsOf(t: Tally): nat { t.payments }

  function RefusalsOf(t: Tally): nat { t.refusals }

  function Active(t: Tally): nat { if t.payments > 0 then 1 else 0 }

  function PaidOn(ps: seq<Payment>): Tally -> nat {
    (t: Tally) => Paid(ps, OnDay(t.day))
  }

  function CountedOn(ps: seq<Payment>): Tally -> nat {
    (t: Tally) => PaidCount(ps, OnDay(t.day))
  }

  function RefusedOn(rs: seq<RefusalRow>): Tally -> nat {
    (t: Tally) => RefusalCount(rs, OnDay(t.day))
  }

  /** Rows of distinct days, one of them this payment's, hold it once. */
  lemma {:induction false} OneRowMore(ts: seq<Tally>, f: Tally -> nat, g: Tally -> nat, day: string, units: nat)
    requires DistinctDays(ts)
    requires forall i | 0 <= i < |ts| :: g(ts[i]) == f(ts[i]) + if ts[i].day == day then units else 0
    ensures SumOf(ts, g) == SumOf(ts, f) + if Find(ts, day) < |ts| then units else 0
  {
    if ts != [] {
      OneRowMore(ts[1..], f, g, day, units);
      if ts[0].day == day && Find(ts[1..], day) < |ts[1..]| {
        assert false;
      }
    }
  }

  lemma {:induction false} SumOfZeros(ts: seq<Tally>, f: Tally -> nat)
    requires forall i | 0 <= i < |ts| :: f(ts[i]) == 0
    ensures SumOf(ts, f) == 0
  {
    if ts != [] {
      SumOfZeros(ts[1..], f);
    }
  }

  lemma {:induction false} PaidSpreads(ts: seq<Tally>, ps: seq<Payment>)
    requires DistinctDays(ts) && forall i | 0 <= i < |ps| && !ps[i].released :: Find(ts, Day(ps[i].at)) < |ts|
    ensures SumOf(ts, PaidOn(ps)) == Paid(ps, AnyDay())
    ensures SumOf(ts, CountedOn(ps)) == PaidCount(ps, AnyDay())
  {
    if ps == [] {
      SumOfZeros(ts, PaidOn(ps));
      SumOfZeros(ts, CountedOn(ps));
    } else {
      var front, p := ps[..|ps| - 1], ps[|ps| - 1];
      PaidSpreads(ts, front);
      var paid := !p.released;
      OneRowMore(ts, PaidOn(front), PaidOn(ps), Day(p.at),
                 if paid then UnitsOfPayment(p) else 0);
      OneRowMore(ts, CountedOn(front), CountedOn(ps), Day(p.at),
                 if paid then 1 else 0);
    }
  }

  lemma {:induction false} RefusalsSpread(ts: seq<Tally>, rs: seq<RefusalRow>)
    requires DistinctDays(ts) && forall i | 0 <= i < |rs| :: Find(ts, Day(rs[i].at)) < |ts|
    ensures SumOf(ts, RefusedOn(rs)) == RefusalCount(rs, AnyDay()) == |rs|
  {
    if rs == [] {
      SumOfZeros(ts, RefusedOn(rs));
    } else {
      RefusalsSpread(ts, rs[..|rs| - 1]);
      OneRowMore(ts, RefusedOn(rs[..|rs| - 1]), RefusedOn(rs), Day(rs[|rs| - 1].at), 1);
    }
  }

  lemma {:induction false} SameSum(ts: seq<Tally>, f: Tally -> nat, g: Tally -> nat)
    requires forall i | 0 <= i < |ts| :: f(ts[i]) == g(ts[i])
    ensures SumOf(ts, f) == SumOf(ts, g)
  {
    if ts != [] {
      SameSum(ts[1..], f, g);
    }
  }

  /** The rows hold every payment and every refusal once. */
  lemma {:induction false} RowsConserve(ts: seq<Tally>, ps: seq<Payment>, rs: seq<RefusalRow>)
    requires Tallied(ts, ps, rs)
    ensures SumOf(ts, SpentOf) == Paid(ps, AnyDay())
    ensures SumOf(ts, PaymentsOf) == PaidCount(ps, AnyDay())
    ensures SumOf(ts, RefusalsOf) == |rs|
  {
    PaidSpreads(ts, ps);
    RefusalsSpread(ts, rs);
    SameSum(ts, SpentOf, PaidOn(ps));
    SameSum(ts, PaymentsOf, CountedOn(ps));
    SameSum(ts, RefusalsOf, RefusedOn(rs));
  }

  function PaidDays(ps: seq<Payment>): set<string> {
    if ps == [] then {}
    else PaidDays(ps[..|ps| - 1]) + if ps[|ps| - 1].released then {} else {Day(ps[|ps| - 1].at)}
  }

  /** The payments listed are worth what the log spent, on the days it was spent. */
  lemma {:induction false} ListedIsSpent(log: seq<Entry>, front: seq<Entry>, month: string, ps: seq<Payment>)
    requires Lists(log, Grants(front, month), ps)
    ensures Paid(ps, AnyDay()) == WorthOf(front, Counts(month, EverReleased(log)))
    ensures PaidDays(ps) == DaysOf(front, Counts(month, EverReleased(log)))
    decreases |front|
  {
    if front != [] {
      var before, e := front[..|front| - 1], front[|front| - 1];
      if GrantedIn(e, month) {
        var gs := Grants(before, month);
        assert Grants(front, month) == gs + [e];
        assert ps[|gs|] == PaymentOf(log, e);
        assert Lists(log, gs, ps[..|gs|]) by {
          assert forall i | 0 <= i < |gs| :: (gs + [e])[i] == gs[i];
        }
        ListedIsSpent(log, before, month, ps[..|gs|]);
      } else {
        assert Grants(before, month) + [] == Grants(before, month);
        ListedIsSpent(log, before, month, ps);
      }
    }
  }

  lemma {:induction false} PaidDaysAre(ps: seq<Payment>, day: string)
    ensures day in PaidDays(ps) <==> PaidCount(ps, OnDay(day)) > 0
    ensures day in PaidDays(ps) ==> exists i | 0 <= i < |ps| :: !ps[i].released && Day(ps[i].at) == day
  {
    if ps != [] {
      var front := ps[..|ps| - 1];
      PaidDaysAre(front, day);
      if day in PaidDays(front) {
        var i :| 0 <= i < |front| && !front[i].released && Day(front[i].at) == day;
        assert ps[i] == front[i];
      }
    }
  }

  lemma {:induction false} ActiveRows(ts: seq<Tally>, days: set<string>)
    requires DistinctDays(ts) && forall i | 0 <= i < |ts| :: ts[i].payments > 0 <==> ts[i].day in days
    requires forall day | day in days :: Find(ts, day) < |ts|
    ensures SumOf(ts, Active) == |days|
  {
    if ts == [] {
      assert days == {};
    } else {
      ActiveRows(ts[1..], days - {ts[0].day});
    }
  }

  /** The table of days is the summary: its spending, its payments and its refusals add up, and its days with payments
      are the active days. */
  lemma {:induction false} TableConserves(log: seq<Entry>, month: string, s: Summary, ts: seq<Tally>)
    requires Summarises(log, month, s) && Tallied(ts, s.payments, s.refusals)
    ensures ToUnits(s.spent) == Ok(SumOf(ts, SpentOf))
    ensures SumOf(ts, PaymentsOf) == PaidCount(s.payments, AnyDay())
    ensures SumOf(ts, RefusalsOf) == |s.refusals|
    ensures SumOf(ts, Active) == s.activeDays
  {
    RowsConserve(ts, s.payments, s.refusals);
    ListedIsSpent(log, log, month, s.payments);
    UnitsRoundTrip(SpentUnits(log, month));
    forall i | 0 <= i < |ts| ensures ts[i].payments > 0 <==> ts[i].day in PaidDays(s.payments) {
      PaidDaysAre(s.payments, ts[i].day);
    }
    forall day | day in PaidDays(s.payments) ensures Find(ts, day) < |ts| {
      PaidDaysAre(s.payments, day);
    }
    ActiveRows(ts, PaidDays(s.payments));
  }

  /** A summary that could be made can always be tabled. */
  lemma {:induction false} SummaryParses(log: seq<Entry>, front: seq<Entry>, month: string, ps: seq<Payment>)
    requires Lists(log, Grants(front, month), ps) && AllParse(front, Counts(month, EverReleased(log)))
    ensures PaymentsParse(ps)
    decreases |front|
  {
    if front != [] {
      var before, e := front[..|front| - 1], front[|front| - 1];
      assert AllParse(before, Counts(month, EverReleased(log)));
      if GrantedIn(e, month) {
        var gs := Grants(before, month);
        assert Grants(front, month) == gs + [e];
        assert ps[|gs|] == PaymentOf(log, e);
        assert Lists(log, gs, ps[..|gs|]) by {
          assert forall i | 0 <= i < |gs| :: (gs + [e])[i] == gs[i];
        }
        SummaryParses(log, before, month, ps[..|gs|]);
        assert ps == ps[..|gs|] + [ps[|gs|]];
      } else {
        assert Grants(before, month) + [] == Grants(before, month);
        SummaryParses(log, before, month, ps);
      }
    }
  }

  lemma {:induction false} BoundedRows(ts: seq<Tally>, perDay: nat)
    requires forall i | 0 <= i < |ts| :: ts[i].spent <= perDay && (ts[i].payments == 0 ==> ts[i].spent == 0)
    ensures SumOf(ts, SpentOf) <= perDay * SumOf(ts, Active)
  {
    if ts != [] {
      BoundedRows(ts[1..], perDay);
      assert perDay * (1 + SumOf(ts[1..], Active)) == perDay + perDay * SumOf(ts[1..], Active);
    }
  }

  lemma {:induction false} NoPaymentNothingPaid(ps: seq<Payment>, on: string -> bool)
    ensures PaidCount(ps, on) == 0 ==> Paid(ps, on) == 0
  {
    if ps != [] {
      NoPaymentNothingPaid(ps[..|ps| - 1], on);
    }
  }

  /** Where no day spends past its budget, the month spends at most that budget for each active day. */
  lemma {:induction false} MonthWithinBudget(log: seq<Entry>, month: string, s: Summary, ts: seq<Tally>, perDay: nat)
    requires Summarises(log, month, s) && Tallied(ts, s.payments, s.refusals)
    requires forall i | 0 <= i < |ts| :: ts[i].spent <= perDay
    ensures ToUnits(s.spent).Ok? && ToUnits(s.spent).value <= perDay * s.activeDays
  {
    TableConserves(log, month, s, ts);
    forall i | 0 <= i < |ts| ensures ts[i].payments == 0 ==> ts[i].spent == 0 {
      NoPaymentNothingPaid(s.payments, OnDay(ts[i].day));
    }
    BoundedRows(ts, perDay);
  }

  // ---------------------------------------------------------------- order, releases, and the vault's own total

  lemma {:induction false} WorthOfSplit(a: seq<Entry>, b: seq<Entry>, counts: Entry -> bool)
    ensures WorthOf(a + b, counts) == WorthOf(a, counts) + WorthOf(b, counts)
    decreases |b|
  {
    if b == [] {
      assert a + b == a;
    } else {
      WorthOfSplit(a, b[..|b| - 1], counts);
      assert a + b == (a + b[..|b| - 1]) + [b[|b| - 1]];
      WorthOfOneMore(a + b[..|b| - 1], b[|b| - 1], counts);
    }
  }

  lemma {:induction false} ReleasedSplit(a: seq<Entry>, b: seq<Entry>)
    ensures EverReleased(a + b) == EverReleased(a) + EverReleased(b)
    decreases |b|
  {
    if b == [] {
      assert a + b == a;
    } else {
      ReleasedSplit(a, b[..|b| - 1]);
      assert (a + b)[..|a + b| - 1] == a + b[..|b| - 1];
    }
  }

  /** The same entries in another order. */
  ghost predicate Rearranged(a: seq<Entry>, b: seq<Entry>) {
    multiset(a) == multiset(b)
  }

  lemma {:induction false} PickedOut(b: seq<Entry>, i: nat)
    requires i < |b|
    ensures b == b[..i] + ([b[i]] + b[i + 1..])
    ensures multiset(b[..i] + b[i + 1..]) == multiset(b) - multiset{b[i]}
  {
    var x, y, e := b[..i], b[i + 1..], b[i];
    assert b == x + ([e] + y);
    assert multiset(x + ([e] + y)) == multiset(x) + multiset([e] + y);
    assert multiset([e] + y) == multiset([e]) + multiset(y);
    assert multiset(x + y) == multiset(x) + multiset(y);
  }

  lemma {:induction false} Displaced(a: seq<Entry>, b: seq<Entry>) returns (i: nat)
    requires Rearranged(a, b) && a != []
    ensures i < |b| && b[i] == a[|a| - 1] && Rearranged(a[..|a| - 1], b[..i] + b[i + 1..])
  {
    var e := a[|a| - 1];
    PickedOut(a, |a| - 1);
    assert a[..|a| - 1] + a[|a|..] == a[..|a| - 1];
    assert e in multiset(a);
    assert e in multiset(b);
    i :| 0 <= i < |b| && b[i] == e;
    PickedOut(b, i);
  }

  lemma {:induction false} RearrangedWorth(a: seq<Entry>, b: seq<Entry>, counts: Entry -> bool)
    requires Rearranged(a, b)
    ensures WorthOf(a, counts) == WorthOf(b, counts) && EverReleased(a) == EverReleased(b)
    decreases |a|
  {
    if a == [] {
      assert |multiset(b)| == 0;
    } else {
      var i := Displaced(a, b);
      var e := b[i];
      RearrangedWorth(a[..|a| - 1], b[..i] + b[i + 1..], counts);
      PickedOut(b, i);
      WorthOfSplit(b[..i], b[i + 1..], counts);
      WorthOfSplit(b[..i], [e] + b[i + 1..], counts);
      WorthOfSplit([e], b[i + 1..], counts);
      ReleasedSplit(b[..i], b[i + 1..]);
      ReleasedSplit(b[..i], [e] + b[i + 1..]);
      ReleasedSplit([e], b[i + 1..]);
      assert [e][..0] == [];
    }
  }

  /** What a month spent does not depend on the order of its records. */
  lemma {:induction false} SpentIgnoresOrder(a: seq<Entry>, b: seq<Entry>, month: string)
    requires Rearranged(a, b)
    ensures SpentUnits(a, month) == SpentUnits(b, month)
  {
    RearrangedWorth(a, b, Counts(month, EverReleased(a)));
  }

  /** A month's grants of one intent. */
  function OfIntent(month: string, intent: string, released: set<string>): Entry -> bool {
    (e: Entry) => GrantedIn(e, month) && e.intent == intent && e.intent !in released
  }

  lemma {:induction false} OneIntentLess(log: seq<Entry>, month: string, intent: string, released: set<string>)
    ensures WorthOf(log, Counts(month, released + {intent}))
         == WorthOf(log, Counts(month, released)) - WorthOf(log, OfIntent(month, intent, released))
  {
    if log != [] {
      OneIntentLess(log[..|log| - 1], month, intent, released);
    }
  }

  /** A release takes off exactly the grants of the intent it names, and nothing the second time. */
  lemma {:induction false} ReleaseSubtracts(log: seq<Entry>, month: string, release: Entry)
    requires release.Released?
    ensures SpentUnits(log + [release], month)
         == SpentUnits(log, month) - WorthOf(log, OfIntent(month, release.intent, EverReleased(log)))
  {
    LogGrows(log, release);
    assert EverReleased(log + [release]) == EverReleased(log) + {release.intent};
    WorthOfOneMore(log, release, Counts(month, EverReleased(log) + {release.intent}));
    OneIntentLess(log, month, release.intent, EverReleased(log));
  }

  function InMonth(month: string): Bucket -> bool {
    (b: Bucket) => Upto(b.day, 7) == month
  }

  /** A month's live grants of intents that had once been released. */
  function RegrantedIn(month: string, released: set<string>): Entry -> bool {
    (e: Entry) => GrantedIn(e, month) && e.intent in released
  }

  lemma {:induction false} UncountedGone(es: seq<Entry>, month: string, intent: string, released: set<string>)
    requires intent in released
    ensures WorthOf(WithoutIntent(es, intent), Counts(month, released)) == WorthOf(es, Counts(month, released))
  {
    if es != [] {
      var front, last := es[..|es| - 1], es[|es| - 1];
      UncountedGone(front, month, intent, released);
      if last.intent != intent {
        WorthOfOneMore(WithoutIntent(front, intent), last, Counts(month, released));
      } else {
        assert WithoutIntent(front, intent) + [] == WithoutIntent(front, intent);
      }
    }
  }

  /** Grants never released are live. */
  lemma {:induction false} CountedAreLive(log: seq<Entry>, month: string, released: set<string>)
    requires EverReleased(log) <= released
    ensures WorthOf(LiveGrants(log), Counts(month, released)) == WorthOf(log, Counts(month, released))
  {
    if log != [] {
      var before, e := log[..|log| - 1], log[|log| - 1];
      assert EverReleased(before) <= EverReleased(log);
      CountedAreLive(before, month, released);
      assert log == before + [e];
      LiveAfter(before, e);
      WorthOfOneMore(before, e, Counts(month, released));
      if e.Granted? {
        WorthOfOneMore(LiveGrants(before), e, Counts(month, released));
      } else if e.Released? {
        UncountedGone(LiveGrants(before), month, e.intent, released);
      }
    }
  }

  lemma {:induction false} DayInMonth(at: string)
    ensures Upto(Day(at), 7) == Month(at)
  {
    if |at| >= 10 {
      assert at[..10][..7] == at[..7];
    }
  }

  lemma {:induction false} LiveSplits(es: seq<Entry>, month: string, released: set<string>)
    ensures WorthOf(es, In(InMonth(month)))
         == WorthOf(es, Counts(month, released)) + WorthOf(es, RegrantedIn(month, released))
  {
    if es != [] {
      LiveSplits(es[..|es| - 1], month, released);
      var e := es[|es| - 1];
      DayInMonth(e.at);
      if e.Granted? {
        assert InMonth(month)(BucketOf(e)) <==> Month(e.at) == month;
        assert In(InMonth(month))(e) <==> GrantedIn(e, month);
      }
      assert GrantedIn(e, month) <==> Counts(month, released)(e) != RegrantedIn(month, released)(e);
    }
  }

  /** The summary falls short of the vault's own total by exactly the month's grants made again after a release, while no
      call records an intent that a reopened file forgot. */
  lemma {:induction false} SummaryAgainstVault(calls: seq<Call>, month: string)
    requires NeverForgets(calls)
    ensures var log := Run(calls).log;
            Net(log, InMonth(month))
            == SpentUnits(log, month) + WorthOf(LiveGrants(log), RegrantedIn(month, EverReleased(log)))
  {
    var log := Run(calls).log;
    SpentIsLiveGrants(calls, InMonth(month));
    LiveSplits(LiveGrants(log), month, EverReleased(log));
    CountedAreLive(log, month, EverReleased(log));
  }

  /** Granted, released and granted again: the vault counts it, the summary does not. */
  lemma {:induction false} RegrantIsMissed(g: Grant, reason: string)
    requires ScaleAmount(g.amount).Ok?
    ensures var again := Record(g.subject, g.intent, g.currency, g.amount, g.at);
            var log := Run([again, Release(g.intent, reason), again]).log;
            && log == [g, ReleaseOf(g, reason), g]
            && Net(log, InMonth(Month(g.at))) == Worth(g)
            && SpentUnits(log, Month(g.at)) == 0
  {
    var again := Record(g.subject, g.intent, g.currency, g.amount, g.at);
    var release := Release(g.intent, reason);
    assert [again, release, again][..2] == [again, release];
    assert [again, release][..1] == [again] && [again][..0] == [];
    var m1, m2, m3 := Run([again]), Run([again, release]), Run([again, release, again]);
    assert Run([]) == EMPTY && m1 == After(EMPTY, again);
    assert m1.log == [] + [g] == [g] && HasRecorded(m1, g.intent);
    assert m2 == After(m1, release) == Forget(m1, g, g.intent, reason);
    assert m2.log == [g] + [ReleaseOf(g, reason)] == [g, ReleaseOf(g, reason)];
    assert m3 == After(m2, again);
    assert m3.log == m2.log + [g] == [g, ReleaseOf(g, reason), g];
    LogOfThree(g, ReleaseOf(g, reason), Month(g.at));
  }

  lemma {:induction false} LogOfThree(g: Grant, release: Entry, month: string)
    requires release.Released? && release.intent == g.intent && BucketOf(release) == BucketOf(g) && Worth(release) == Worth(g)
    requires month == Month(g.at)
    ensures Net([g, release, g], InMonth(month)) == Worth(g)
    ensures SpentUnits([g, release, g], month) == 0
  {
    var log := [g, release, g];
    assert [] + [g] == [g] && [g] + [release] == [g, release] && [g, release] + [g] == log;
    DayInMonth(g.at);
    NetAfter([], g, InMonth(month));
    NetAfter([g], release, InMonth(month));
    NetAfter([g, release], g, InMonth(month));
    LogGrows([g], release);
    LogGrows([g, release], g);
    assert g.intent in EverReleased(log);
    var counts := Counts(month, EverReleased(log));
    WorthOfOneMore([], g, counts);
    WorthOfOneMore([g], release, counts);
    WorthOfOneMore([g, release], g, counts);
  }
}
