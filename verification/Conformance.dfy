/** The conformance kit against a store that may answer anything and settle any authorization it holds, whenever it
    likes. */
module Conformance {
  import opened Results

  datatype Id =
    | P1 | P2 | P3 | P4 | P5 | P6 | P7 | P8
    | R1 | R2 | R3 | R4 | R5 | R6
    | C1 | C2 | C3
    | E1 | E2 | E3 | E4
    | KIT

  datatype Outcome = Pass | Fail | Warn | Skip

  datatype Check = Check(id: Id, outcome: Outcome)

  const PROFILE := [P1, P2, P3, P4, P5, P6, P7, P8]
  const CONFIG := [P3, P4, P5, P6, P7]
  const REQUIREMENTS := [R1, R2, R3, R4, R5, R6]
  const READ := [R1, R2, R3, R4]
  const CHARGE := [C1, C2, C3]
  const RECEIPT := [E1, E2, E3, E4]

  /** What a signed payment depends on. */
  const NEEDED := {P3, P5, P6, R2, R3, R4, R5, R6}

  function Rank(id: Id): nat {
    match id
    case P1 => 1 case P2 => 2 case P3 => 3 case P4 => 4 case P5 => 5 case P6 => 6 case P7 => 7 case P8 => 8
    case R1 => 11 case R2 => 12 case R3 => 13 case R4 => 14 case R5 => 15 case R6 => 16
    case C1 => 21 case C2 => 22 case C3 => 23
    case E1 => 31 case E2 => 32 case E3 => 33 case E4 => 34
    case KIT => 41
  }

  function Ids(results: seq<Check>): (ids: seq<Id>)
    ensures |ids| == |results| && forall i | 0 <= i < |ids| :: ids[i] == results[i].id
  {
    seq(|results|, i requires 0 <= i < |results| => results[i].id)
  }

  predicate Increasing(ids: seq<Id>) {
    forall i, j | 0 <= i < j < |ids| :: Rank(ids[i]) < Rank(ids[j])
  }

  /** The store failed a check a signed payment would depend on. */
  predicate Blocked(results: seq<Check>) {
    exists i | 0 <= i < |results| :: results[i].outcome == Fail && results[i].id in NEEDED
  }

  /** Whether the run goes on, or an error outside the checks' own handlers ends it. */
  datatype Flow = Going | Threw {
    predicate IsFailure() {
      Threw?
    }

    function PropagateFailure(): Flow {
      this
    }
  }

  class Report {
    var results: seq<Check>

    constructor ()
      ensures results == []
    {
      results := [];
    }

    method Add(id: Id, outcome: Outcome)
      modifies this
      ensures results == old(results) + [Check(id, outcome)]
      ensures Ids(results) == old(Ids(results)) + [id]
    {
      results := results + [Check(id, outcome)];
    }

    /** A check; what the run does next may throw. */
    method AddNext(id: Id, outcome: Outcome) returns (flow: Flow)
      modifies this
      ensures results == old(results) + [Check(id, outcome)]
      ensures Ids(results) == old(Ids(results)) + [id]
    {
      Add(id, outcome);
      flow := *;
    }

    /** Every one of these, skipped. */
    method SkipAll(ids: seq<Id>)
      modifies this
      ensures old(results) <= results && Ids(results) == old(Ids(results)) + ids
      ensures forall i | |old(results)| <= i < |results| :: results[i].outcome == Skip
    {
      var i := 0;
      while i < |ids|
        invariant 0 <= i <= |ids| && old(results) <= results && Ids(results) == old(Ids(results)) + ids[..i]
        invariant forall k | |old(results)| <= k < |results| :: results[k].outcome == Skip
      {
        assert ids[..i + 1] == ids[..i] + [ids[i]];
        Add(ids[i], Skip);
        i := i + 1;
      }
      assert ids[..i] == ids;
    }

    method StoreFailed() returns (blocked: bool)
      ensures blocked == Blocked(results)
    {
      blocked := false;
      var i := 0;
      while i < |results|
        invariant 0 <= i <= |results| && blocked == Blocked(results[..i])
      {
        assert results[..i + 1] == results[..i] + [results[i]];
        if results[i].outcome == Fail && results[i].id in NEEDED {
          blocked := true;
        }
        i := i + 1;
      }
      assert results[..i] == results;
    }
  }

  // ---------------------------------------------------------------- the market

  /** A transaction: the payer's signed authorization, which the network settles at most once, or bytes that are none. */
  datatype Tx = Signed(nonce: nat, amount: nat) | Junk

  function AmountOf(tx: Tx): nat {
    if tx.Signed? then tx.amount else 0
  }

  ghost function Outflow(settled: set<Tx>): nat {
    if settled == {} then 0
    else
      var tx :| tx in settled;
      AmountOf(tx) + Outflow(settled - {tx})
  }

  lemma {:induction false} OutflowWithout(settled: set<Tx>, tx: Tx)
    requires tx in settled
    ensures Outflow(settled) == AmountOf(tx) + Outflow(settled - {tx})
    decreases |settled|
  {
    var first :| first in settled && Outflow(settled) == AmountOf(first) + Outflow(settled - {first});
    if first != tx {
      OutflowWithout(settled - {first}, tx);
      OutflowWithout(settled - {tx}, first);
      assert settled - {first} - {tx} == settled - {tx} - {first};
    }
  }

  lemma {:induction false} OutflowWith(settled: set<Tx>, tx: Tx)
    requires tx !in settled
    ensures Outflow(settled + {tx}) == Outflow(settled) + AmountOf(tx)
  {
    OutflowWithout(settled + {tx}, tx);
    assert settled + {tx} - {tx} == settled;
  }

  /** With one signature, whatever the store does and however long it waits, at most its amount leaves. */
  lemma {:induction false} OnePaymentAtMost(settled: set<Tx>, signed: set<Tx>, tx: Tx)
    requires settled <= signed <= {tx}
    ensures Outflow(settled) == if tx in settled then AmountOf(tx) else 0
  {
    if tx in settled {
      OutflowWithout(settled, tx);
      assert settled - {tx} == {};
    } else {
      assert settled == {};
    }
  }

  /** The payer, the store and the network. The store keeps every transaction it is sent; the network settles what the
      payer signed, each once. */
  class Market {
    var balance: int
    var signed: set<Tx>
    var held: set<Tx>
    var settled: set<Tx>
    var sent: seq<Tx>
    var answers: seq<Reply>
    const funds: int

    constructor (funds: int)
      ensures Valid() && this.funds == funds && signed == {} && held == {} && settled == {} && sent == [] && answers == []
    {
      this.funds, balance := funds, funds;
      signed, held, settled, sent, answers := {}, {}, {}, [], [];
    }

    ghost predicate Valid()
      reads this
    {
      && settled <= held * signed
      && balance == funds - Outflow(settled)
      && Junk !in signed
      && |answers| == |sent|
    }

    /** Time passes: the store settles whatever it likes of what it holds. */
    method Wait()
      requires Valid()
      modifies this`settled, this`balance
      ensures Valid() && old(settled) <= settled
    {
      var left := held * signed - settled;
      while left != {}
        invariant Valid() && old(settled) <= settled && left <= held * signed - settled
        decreases |left|
      {
        var tx :| tx in left;
        if * {
          OutflowWith(settled, tx);
          settled := settled + {tx};
          balance := balance - AmountOf(tx);
        }
        left := left - {tx};
      }
    }

    /** The payer's balance as the network has it, or no answer. */
    method ReadBalance() returns (read: Option<int>)
      requires Valid()
      modifies this`settled, this`balance
      ensures Valid() && old(settled) <= settled
      ensures read == None || read == Some(balance)
    {
      Wait();
      if * {
        read := None;
      } else {
        read := Some(balance);
      }
    }

    /** A request to the store with this transaction: it reaches the store or not, and the store answers anything. */
    method Send(tx: Tx) returns (reply: Reply)
      requires Valid()
      modifies this`held, this`settled, this`balance, this`sent, this`answers
      ensures Valid() && sent == old(sent) + [tx] && held == old(held) + {tx} && old(settled) <= settled
      ensures answers == old(answers) + [reply]
    {
      reply := *;
      sent, held, answers := sent + [tx], held + {tx}, answers + [reply];
      Wait();
    }

    /** The payer signs this amount, unless it cannot. */
    method Sign(amount: nat) returns (tx: Option<Tx>)
      requires Valid() && signed == {}
      modifies this`signed
      ensures Valid()
      ensures tx.None? ==> signed == {}
      ensures tx.Some? ==> tx.value.Signed? && tx.value.amount == amount && signed == {tx.value}
    {
      if * {
        tx := None;
      } else {
        var nonce: nat :| true;
        var authorization := Signed(nonce, amount);
        signed := {authorization};
        tx := Some(authorization);
      }
    }
  }

  /** A store's answer, as the kit reads it: completed, perhaps with an order, or refused; `payment_failed` is the refusal
      the spec names. */
  datatype Reply = Unreached | Completed(order: Option<string>) | RefusedAsSaid | RefusedOtherwise

  function RefusalVerdict(reply: Reply): Outcome {
    match reply
    case Completed(_) => Fail
    case RefusedAsSaid => Pass
    case _ => Fail
  }

  // ---------------------------------------------------------------- the charge

  datatype Stage = AfterC1 | AfterC2

  method StopCharge(report: Report, stage: Stage)
    modifies report
    ensures old(report.results) <= report.results
    ensures Ids(report.results) == old(Ids(report.results)) + (if stage == AfterC1 then [C2, C3] else [C3]) + RECEIPT
    ensures forall i | |old(report.results)| <= i < |report.results| :: report.results[i].outcome == Skip
    ensures stage == AfterC2 ==> old(report.results) + [Check(C3, Skip)] <= report.results
  {
    if stage == AfterC1 {
      report.Add(C2, Skip);
    }
    report.Add(C3, Skip);
    report.SkipAll(RECEIPT);
  }

  /** C1 alone, then everything after it skipped. */
  method StopAtC1(report: Report, outcome: Outcome)
    modifies report
    ensures old(report.results) <= report.results
    ensures Ids(report.results) == old(Ids(report.results)) + (CHARGE + RECEIPT)
    ensures report.results[|old(report.results)|] == Check(C1, outcome)
    ensures forall i | |old(report.results)| < i < |report.results| :: report.results[i].outcome == Skip
  {
    report.Add(C1, outcome);
    StopCharge(report, AfterC1);
  }

  /** Between the two logs only this transaction was sent, so many times at most. */
  predicate Sends(was: seq<Tx>, now: seq<Tx>, tx: Tx, most: nat) {
    was <= now && |now| <= |was| + most && forall i | |was| <= i < |now| :: now[i] == tx
  }

  lemma {:induction false} SentInTwo(was: seq<Tx>, now: seq<Tx>, tx: Tx)
    requires Sends(was, now, tx, 1)
    ensures Sends(was, now, tx, 2)
  {
  }

  lemma {:induction false} SendsAgain(was: seq<Tx>, mid: seq<Tx>, now: seq<Tx>, tx: Tx, first: nat, more: nat)
    requires Sends(was, mid, tx, first) && Sends(mid, now, tx, more)
    ensures Sends(was, now, tx, first + more)
  {
  }

  /** `pay` with the one signature in hand: it may refuse before the door, and past it may fail or return an order. */
  method PayWith(market: Market, tx: Tx) returns (paid: Option<string>)
    requires market.Valid()
    modifies market`held, market`settled, market`balance, market`sent, market`answers
    ensures market.Valid() && old(market.settled) <= market.settled
    ensures Sends(old(market.sent), market.sent, tx, 1)
    ensures market.held <= old(market.held) + {tx}
    ensures old(market.answers) <= market.answers
    ensures paid.Some? ==>
              market.answers == old(market.answers) + [Completed(paid)]
  {
    if * {
      return None;
    }
    var reply := market.Send(tx);
    if reply.Completed? {
      if * {
        return reply.order;
      }
    }
    return None;
  }

  /** What the kit saw of its one payment: `asked` when it came to ask for the balance first. */
  datatype Charged = Charged(tx: Option<Tx>, asked: bool, before: Option<int>, probe: Option<int>, after: Option<int>)

  /** C1 passes only for the refusal the spec names, and no fall of the balance seen after it. */
  function Verdict1(answer: Reply, before: int, probe: Option<int>): Outcome {
    if answer == RefusedAsSaid && (probe.None? || probe.value >= before) then Pass else Fail
  }

  /** C3 fails when the store is not reached, on another order, or on a fall above the amount. */
  function Verdict3(answer: Reply, order: string, before: int, after: Option<int>, amount: nat): Outcome {
    var another := answer.Completed? && answer.order.Some? && answer.order.value != order;
    if answer == Unreached || another || (after.Some? && before - after.value > amount) then Fail else Pass
  }

  /** C1: the signed transaction with an altered credential. Stopped when the store may hold a payment, or settled one. */
  method SendAltered(report: Report, market: Market, tx: Tx, before: int) returns (flow: Flow, stopped: bool, probe: Option<int>)
    requires market.Valid()
    modifies report, market`held, market`settled, market`balance, market`sent, market`answers
    ensures market.Valid() && old(market.settled) <= market.settled && market.held == old(market.held) + {tx}
    ensures market.sent == old(market.sent) + [tx]
    ensures old(market.answers) < market.answers && |market.answers| == |old(market.answers)| + 1
    ensures old(report.results) <= report.results && (flow.Going? ==> |old(report.results)| < |report.results|)
    ensures flow.Going? ==>
              report.results[|old(report.results)|] == Check(C1, Verdict1(market.answers[|old(market.answers)|], before, probe))
    ensures flow.Going? ==> (stopped <==> report.results[|old(report.results)|].outcome == Fail)
    ensures flow.Going? && !stopped ==> report.results[|old(report.results)|].outcome == Pass
    ensures stopped ==> forall i | |old(report.results)| < i < |report.results| :: report.results[i].outcome == Skip
    ensures flow.Going? ==> Ids(report.results) == old(Ids(report.results)) + if stopped then CHARGE + RECEIPT else [C1]
    ensures flow.Threw? ==> !stopped && Reports(old(Ids(report.results)), Ids(report.results), [C1], flow)
    ensures probe.Some? && probe.value < before ==> stopped
  {
    stopped, probe := false, None;
    var reply := market.Send(tx);
    if reply == Unreached || reply.Completed? {
      StopAtC1(report, Fail);
      return Going, true, probe;
    }
    flow := *; // waiting for the balance is in no handler
    :- flow;
    probe := market.ReadBalance();
    if (probe.Some? && probe.value < before) || RefusalVerdict(reply) == Fail {
      StopAtC1(report, Fail);
      return Going, true, probe;
    }
    :- report.AddNext(C1, RefusalVerdict(reply));
    return Going, false, probe;
  }

  /** The checks a group reports: all of them, or the first few when an error ends the run. */
  predicate Reports(was: seq<Id>, now: seq<Id>, more: seq<Id>, flow: Flow) {
    if flow.Going? then now == was + more else was <= now <= was + more
  }

  /** A group reported after another. */
  lemma {:induction false} ReportsAfter(was: seq<Id>, first: seq<Id>, now: seq<Id>, more: seq<Id>, flow: Flow)
    requires Reports(was + first, now, more, flow)
    ensures Reports(was, now, first + more, flow)
  {
    assert was + first + more == was + (first + more);
  }

  method ReplayVerdict(report: Report, again: Reply, order: string, before: int, after: Option<int>, amount: nat)
      returns (flow: Flow)
    modifies report
    ensures Ids(report.results) == old(Ids(report.results)) + [C3]
    ensures report.results == old(report.results) + [Check(C3, Verdict3(again, order, before, after, amount))]
  {
    if again == Unreached || (again.Completed? && again.order.Some? && again.order.value != order) {
      flow := report.AddNext(C3, Fail);
    } else {
      flow := report.AddNext(C3, if after.Some? && before - after.value > amount then Fail else Pass);
    }
  }

  /** The receipt's four checks. */
  method ReceiptChecks(report: Report) returns (flow: Flow)
    modifies report
    ensures old(report.results) <= report.results
    ensures Reports(old(Ids(report.results)), Ids(report.results), RECEIPT, flow)
  {
    if * {
      report.SkipAll(RECEIPT);
      return Going;
    }
    if * {
      report.Add(E1, Fail);
      report.SkipAll([E2, E3, E4]);
      return Going;
    }
    :- report.AddNext(E1, Pass);
    var keyPublished: bool, registryTrusted: bool := *, *;
    :- report.AddNext(E2, if keyPublished then Pass else Fail);
    :- report.AddNext(E3, if registryTrusted then Pass else Fail);
    var anchorPending: bool, valid: bool := *, *;
    report.Add(E4, if anchorPending && !valid then Warn else if valid then Pass else Fail);
    flow := Going;
  }

  /** C3 on the replay's answer, then the receipt. */
  method FinishCharge(report: Report, again: Reply, order: string, before: int, after: Option<int>, amount: nat)
      returns (flow: Flow)
    modifies report
    ensures old(report.results) + [Check(C3, Verdict3(again, order, before, after, amount))] <= report.results
    ensures Reports(old(Ids(report.results)), Ids(report.results), [C3] + RECEIPT, flow)
  {
    flow := ReplayVerdict(report, again, order, before, after, amount);
    :- flow;
    flow := ReceiptChecks(report);
    ReportsAfter(old(Ids(report.results)), [C3], Ids(report.results), RECEIPT, flow);
  }

  /** C2 passes only on an order the store gave, and then C3 says what its answer to the same payment and the balance call
      for; otherwise C3 is skipped. */
  predicate Replayed(checks: seq<Check>, answers: seq<Reply>, before: int, after: Option<int>, amount: nat) {
    && |checks| >= 2 && checks[0].id == C2 && checks[1].id == C3
    && if checks[0].outcome == Pass then
         && |answers| == 2 && answers[0].Completed? && answers[0].order.Some?
         && checks[1].outcome == Verdict3(answers[1], answers[0].order.value, before, after, amount)
       else checks[0].outcome == Fail && checks[1].outcome == Skip
  }

  /** C3: the same payment again, and what its answer and the balance call for; then the receipt. */
  method Replay(report: Report, market: Market, tx: Tx, order: string, before: int) returns (flow: Flow, after: Option<int>)
    requires market.Valid() && tx.Signed?
    modifies report, market`held, market`settled, market`balance, market`sent, market`answers
    ensures market.Valid() && old(market.settled) <= market.settled && market.held == old(market.held) + {tx}
    ensures Sends(old(market.sent), market.sent, tx, 1)
    ensures old(market.answers) <= market.answers && |market.answers| == |old(market.answers)| + 1
    ensures old(report.results) + [Check(C3, Verdict3(market.answers[|old(market.answers)|], order, before, after, tx.amount))]
         <= report.results
    ensures Reports(old(Ids(report.results)), Ids(report.results), [C3] + RECEIPT, flow)
  {
    var again := market.Send(tx);
    after := market.ReadBalance();
    flow := FinishCharge(report, again, order, before, after, tx.amount);
  }

  lemma {:induction false} StoppedIsReplayed(was: seq<Check>, now: seq<Check>, answers: seq<Reply>, before: int, after: Option<int>, amount: nat)
    requires was + [Check(C2, Fail)] + [Check(C3, Skip)] <= now
    ensures Replayed(now[|was|..], answers, before, after, amount)
  {
  }

  lemma {:induction false} ReplayedWhen(was: seq<Check>, now: seq<Check>, heard: seq<Reply>, all: seq<Reply>, order: string, before: int, after: Option<int>, amount: nat)
    requires heard <= all && |all| == |heard| + 2 && all[|heard|] == Completed(Some(order))
    requires was + [Check(C2, Pass)] + [Check(C3, Verdict3(all[|heard| + 1], order, before, after, amount))] <= now
    ensures Replayed(now[|was|..], all[|heard|..], before, after, amount)
  {
  }

  /** C2 fails, and everything after it is skipped. */
  method StopAtC2(report: Report)
    modifies report
    ensures old(report.results) + [Check(C2, Fail)] + [Check(C3, Skip)] <= report.results
    ensures Ids(report.results) == old(Ids(report.results)) + ([C2, C3] + RECEIPT)
  {
    report.Add(C2, Fail);
    StopCharge(report, AfterC2);
  }

  /** C2 pays with the same transaction, C3 sends it again, and the receipt is checked. */
  method PayAndReplay(report: Report, market: Market, tx: Tx, before: int) returns (flow: Flow, after: Option<int>)
    requires market.Valid() && tx.Signed?
    modifies report, market`held, market`settled, market`balance, market`sent, market`answers
    ensures market.Valid() && old(market.settled) <= market.settled && market.held <= old(market.held) + {tx}
    ensures old(market.answers) <= market.answers && old(report.results) <= report.results
    ensures flow.Going? ==> Replayed(report.results[|old(report.results)|..], market.answers[|old(market.answers)|..],
                                     before, after, tx.amount)
    ensures Reports(old(Ids(report.results)), Ids(report.results), [C2, C3] + RECEIPT, flow)
    ensures Sends(old(market.sent), market.sent, tx, 2)
  {
    hide Outflow, Verdict3, Increasing, Blocked, Rank, Replayed, Sends;
    ghost var was, heard, sent := report.results, market.answers, market.sent;
    after := None;
    var paid := PayWith(market, tx);
    ghost var again := market.sent;
    SentInTwo(sent, again, tx);
    if paid.None? {
      StopAtC2(report);
      StoppedIsReplayed(was, report.results, market.answers[|heard|..], before, after, tx.amount);
      return Going, after;
    }
    :- report.AddNext(C2, Pass);
    flow, after := Replay(report, market, tx, paid.value, before);
    SendsAgain(sent, again, market.sent, tx, 1, 1);
    ReplayedWhen(was, report.results, heard, market.answers, paid.value, before, after, tx.amount);
    ReportsAfter(old(Ids(report.results)), [C2], Ids(report.results), [C3] + RECEIPT, flow);
    assert [C2] + ([C3] + RECEIPT) == [C2, C3] + RECEIPT;
  }

  /** C1 says what the answer and the balance call for, and the payment goes on exactly when it passes. */
  predicate SignedAs(checks: seq<Check>, answers: seq<Reply>, amount: nat, before: int, c: Charged) {
    && |checks| >= 3 && |answers| >= 1 && checks[0] == Check(C1, Verdict1(answers[0], before, c.probe))
    && if checks[0].outcome == Pass then Replayed(checks[1..], answers[1..], before, c.after, amount)
       else |answers| == 1 && forall i | 1 <= i < |checks| :: checks[i].outcome == Skip
  }

  /** C1 is skipped exactly when the ceiling is none or too low or the balance cannot be read, and fails when nothing was
      signed; then nothing more is checked. */
  predicate ChargedAs(checks: seq<Check>, answers: seq<Reply>, amount: nat, maxAtomic: Option<nat>, c: Charged) {
    var over := maxAtomic.None? || amount > maxAtomic.value;
    var refused := over || c.before.None?;
    && c.asked == !over
    && if refused || c.tx.None? then
         && c.tx.None? && |checks| >= 3 && checks[0] == Check(C1, if refused then Skip else Fail)
         && forall i | 1 <= i < |checks| :: checks[i].outcome == Skip
       else SignedAs(checks, answers, amount, c.before.value, c)
  }

  lemma {:induction false} StoppedIsSigned(was: seq<Check>, now: seq<Check>, heard: seq<Reply>, all: seq<Reply>, amount: nat, before: int, c: Charged)
    requires was <= now && |now| >= |was| + 3 && heard < all && |all| == |heard| + 1
    requires now[|was|] == Check(C1, Fail) == Check(C1, Verdict1(all[|heard|], before, c.probe))
    requires forall i | |was| < i < |now| :: now[i].outcome == Skip
    ensures SignedAs(now[|was|..], all[|heard|..], amount, before, c)
  {
  }

  lemma {:induction false} SignedWhen(was: seq<Check>, checked: seq<Check>, now: seq<Check>, heard: seq<Reply>, answered: seq<Reply>, all: seq<Reply>, amount: nat, before: int, c: Charged)
    requires was < checked <= now && |checked| == |was| + 1 && heard < answered <= all && |answered| == |heard| + 1
    requires now[|was|] == Check(C1, Pass) == Check(C1, Verdict1(all[|heard|], before, c.probe))
    requires Replayed(now[|checked|..], all[|answered|..], before, c.after, amount)
    ensures SignedAs(now[|was|..], all[|heard|..], amount, before, c)
  {
    assert now[|was|..][1..] == now[|checked|..];
    assert all[|heard|..][1..] == all[|answered|..];
  }

  /** C1, then C2 and C3, with the signed authorization. */
  method SendSigned(report: Report, market: Market, tx: Tx, before: int, sofar: Charged) returns (flow: Flow, c: Charged)
    requires market.Valid() && tx.Signed?
    modifies report, market`held, market`settled, market`balance, market`sent, market`answers
    ensures market.Valid() && old(report.results) <= report.results && old(market.answers) <= market.answers
    ensures Reports(old(Ids(report.results)), Ids(report.results), CHARGE + RECEIPT, flow)
    ensures Sends(old(market.sent), market.sent, tx, 3)
    ensures c == sofar.(probe := c.probe, after := c.after)
    ensures c.probe.Some? && c.probe.value < before ==> market.sent == old(market.sent) + [tx]
    ensures flow.Going? ==>
              SignedAs(report.results[|old(report.results)|..], market.answers[|old(market.answers)|..], tx.amount, before, c)
  {
    hide Outflow, Replayed, Verdict1, Verdict3, Increasing, Blocked, Rank, SignedAs;
    ghost var was, heard := report.results, market.answers;
    var sent, stopped, probe := SendAltered(report, market, tx, before);
    c := sofar.(probe := probe, after := None);
    :- sent;
    if stopped {
      StoppedIsSigned(was, report.results, heard, market.answers, tx.amount, before, c);
      return Going, c;
    }
    ghost var checked, answered := report.results, market.answers;
    var after;
    flow, after := PayAndReplay(report, market, tx, before);
    c := c.(after := after);
    ReportsAfter(Ids(was), [C1], Ids(report.results), [C2, C3] + RECEIPT, flow);
    assert [C1] + ([C2, C3] + RECEIPT) == CHARGE + RECEIPT;
    if flow.Going? {
      SignedWhen(was, checked, report.results, heard, answered, market.answers, tx.amount, before, c);
    }
  }

  /** C1, C2 and C3 with one signed authorization, then the receipt. */
  method ChargeOnce(report: Report, market: Market, amount: nat, maxAtomic: Option<nat>) returns (flow: Flow, c: Charged)
    requires market.Valid() && market.signed == {} && market.held <= {Junk}
    modifies report, market
    ensures market.Valid() && old(report.results) <= report.results && old(market.answers) <= market.answers
    ensures Reports(old(Ids(report.results)), Ids(report.results), CHARGE + RECEIPT, flow)
    ensures c.tx.None? ==> market.signed == {} && market.sent == old(market.sent)
    ensures c.tx.Some? ==>
              && market.signed == {c.tx.value} && c.tx.value.Signed?
              && maxAtomic.Some? && c.tx.value.amount == amount <= maxAtomic.value
              && Sends(old(market.sent), market.sent, c.tx.value, 3)
    ensures c.probe.Some? && c.before.Some? && c.probe.value < c.before.value ==>
              c.tx.Some? && market.sent == old(market.sent) + [c.tx.value]
    ensures flow.Going? ==>
              ChargedAs(report.results[|old(report.results)|..], market.answers[|old(market.answers)|..], amount, maxAtomic, c)
  {
    hide Outflow, SignedAs, Sends, Increasing, Blocked, Rank;
    flow, c := Going, Charged(None, false, None, None, None);
    if maxAtomic.None? || amount > maxAtomic.value {
      StopAtC1(report, Skip);
      return;
    }
    var before := market.ReadBalance();
    c := c.(asked := true, before := before);
    if before.None? {
      StopAtC1(report, Skip);
      return;
    }
    var tx := market.Sign(amount);
    c := c.(tx := tx);
    if tx.None? {
      StopAtC1(report, Fail);
      return;
    }
    flow, c := SendSigned(report, market, tx.value, before.value, c);
  }

  // ---------------------------------------------------------------- the run

  /** The charge options: the ceiling as parsed, none when it is not an amount. */
  datatype Options = Options(profileOnly: bool, charge: Option<Option<nat>>)

  /** What the profile group leaves for the rest. */
  datatype ProfileRead = ProfileRead(complete: bool, validators: bool, declared: bool, ownEndpoint: bool)

  /** Whether the profile group ran to its end: it stops at P1 or P2 when there is nothing to read. */
  predicate ProfileIds(ids: seq<Id>, complete: bool) {
    if complete then ids == [P1, P2, P3, P4, P5, P6, P7] || ids == [P1, P2, P3, P4, P5, P6, P7, P8]
    else ids == [P1] || ids == [P1, P2]
  }

  /** P3 to P7, for a profile that declares the handler. */
  method CheckConfig(report: Report) returns (flow: Flow, r: ProfileRead)
    modifies report
    ensures Reports(old(Ids(report.results)), Ids(report.results), CONFIG, flow)
  {
    flow, r := Going, ProfileRead(false, false, false, false);
    var validators: bool, matches: bool := *, *;
    :- report.AddNext(P3, if validators then Pass else Fail);
    :- report.AddNext(P4, if !validators then Skip else if matches then Pass else Fail);
    var declared: bool, usable: bool, usdc: bool, holds: bool := *, *, *, *;
    :- report.AddNext(P5, if !declared || !usable then Fail else if !usdc then Warn else Pass);
    :- report.AddNext(P6, if !declared then Skip else if holds then Pass else Fail);
    var ownEndpoint: bool := *;
    :- report.AddNext(P7, if ownEndpoint then Pass else Fail);
    r := ProfileRead(true, validators, declared, ownEndpoint);
  }

  method CheckProfile(report: Report) returns (flow: Flow, r: ProfileRead)
    requires report.results == []
    modifies report
    ensures flow.Going? ==> ProfileIds(Ids(report.results), r.complete)
    ensures flow.Threw? ==> Ids(report.results) <= PROFILE
  {
    flow, r := Going, ProfileRead(false, false, false, false);
    if * {
      report.Add(P1, Fail);
      return;
    }
    :- report.AddNext(P1, Pass);
    if * {
      report.Add(P2, Fail);
      return;
    }
    :- report.AddNext(P2, Pass);
    assert [P1, P2] + CONFIG + [P8] == PROFILE;
    var read :- CheckConfig(report);
    if * {
      var verified: bool := *;
      :- report.AddNext(P8, if verified then Pass else Fail);
    }
    r := read.(complete := true);
  }

  /** The checkout's requirements, when a charge can be considered for them. */
  datatype Asked = Asked(chargeable: bool, paysDeclared: bool, sameAsset: bool, linesRead: bool, amount: Option<nat>)

  /** R6 is skipped without a positive amount, and passes only for the refusal the spec names. */
  predicate ProbedAs(checks: seq<Check>, amount: Option<nat>, answers: seq<Reply>) {
    && |checks| == 2
    && if amount.Some? then checks[0].outcome != Fail && |answers| == 1
                            && checks[1].outcome == (if answers[0] == RefusedAsSaid then Pass else Fail)
       else checks[0].outcome == Fail && checks[1].outcome == Skip
  }

  /** R5 and R6: a positive amount, and the store's answer to an altered credential around bytes that are no payment. */
  method ProbeAmount(report: Report, market: Market) returns (flow: Flow, amount: Option<nat>)
    requires market.Valid() && market.signed == {} && market.sent == [] && market.held == {}
    modifies report, market
    ensures market.Valid() && market.signed == {} && market.held <= {Junk} && (market.sent == [] || market.sent == [Junk])
    ensures old(report.results) <= report.results
    ensures Reports(old(Ids(report.results)), Ids(report.results), [R5, R6], flow)
    ensures amount.Some? ==> amount.value > 0 && market.sent == [Junk]
    ensures flow.Going? ==> ProbedAs(report.results[|old(report.results)|..], amount, market.answers)
  {
    flow, amount := Going, None;
    var wellFormed: bool, needsRate: bool, stated: nat := *, *, *;
    if !wellFormed || stated == 0 {
      report.Add(R5, Fail);
      report.Add(R6, Skip);
      return;
    }
    :- report.AddNext(R5, if needsRate then Warn else Pass);
    var reply := market.Send(Junk);
    :- report.AddNext(R6, if reply == Unreached then Fail else RefusalVerdict(reply));
    amount := Some(stated);
  }

  /** R1 to R4, of a checkout ready to be paid. */
  method ReadRequirements(report: Report, profile: ProfileRead) returns (flow: Flow, carried: bool, paysDeclared: bool)
    modifies report
    ensures old(report.results) <= report.results
    ensures Reports(old(Ids(report.results)), Ids(report.results), READ, flow)
  {
    flow, carried, paysDeclared := Going, *, false;
    :- report.AddNext(R1, Pass);
    var matches: bool, bound: bool := *, *;
    :- report.AddNext(R2, if !profile.validators then Skip else if matches then Pass else Fail);
    :- report.AddNext(R3, if bound then Pass else Fail);
    if !carried {
      report.Add(R4, Fail);
      return;
    }
    paysDeclared := *;
    :- report.AddNext(R4, if paysDeclared then Pass else Fail);
  }

  method CheckRequirements(report: Report, market: Market, profile: ProfileRead) returns (flow: Flow, asked: Asked)
    requires market.Valid() && market.signed == {} && market.sent == [] && market.held == {}
    modifies report, market
    ensures market.Valid() && market.signed == {} && market.held <= {Junk} && (market.sent == [] || market.sent == [Junk])
    ensures old(report.results) <= report.results
    ensures Reports(old(Ids(report.results)), Ids(report.results), REQUIREMENTS, flow)
    ensures !profile.ownEndpoint || !profile.declared ==>
              flow.Going? && asked.amount.None? && market.sent == []
              && forall i | |old(report.results)| <= i < |report.results| :: report.results[i].outcome == Skip
    ensures asked.amount.Some? ==> asked.amount.value > 0 && market.sent == [Junk]
  {
    flow, asked := Going, Asked(false, false, false, false, None);
    var product: bool, ready: bool := *, *;
    if !profile.ownEndpoint || !profile.declared || !product {
      report.SkipAll(REQUIREMENTS);
      return;
    }
    if !ready {
      report.Add(R1, Fail);
      report.SkipAll([R2, R3, R4, R5, R6]);
      return;
    }
    var carried, paysDeclared :- ReadRequirements(report, profile);
    if !carried {
      report.SkipAll([R5, R6]);
      return;
    }
    var probed, amount := ProbeAmount(report, market);
    ReportsAfter(old(Ids(report.results)), READ, Ids(report.results), [R5, R6], probed);
    assert READ + [R5, R6] == REQUIREMENTS;
    :- probed;
    var sameAsset: bool, linesRead: bool := *, *;
    asked := Asked(true, paysDeclared, sameAsset, linesRead, amount);
  }

  method SkipCharge(report: Report)
    modifies report
    ensures forall i | |old(report.results)| <= i < |report.results| :: report.results[i].outcome == Skip
    ensures old(report.results) <= report.results
    ensures Ids(report.results) == old(Ids(report.results)) + (CHARGE + RECEIPT)
  {
    report.SkipAll(CHARGE);
    report.SkipAll(RECEIPT);
  }

  /** A checkout that pays what the profile declares, a positive amount of the kit's asset for lines it names. */
  predicate MayCharge(asked: Asked) {
    asked.chargeable && asked.paysDeclared && asked.amount.Some? && asked.sameAsset && asked.linesRead
  }

  /** The charge group, only for a store that failed nothing a signed payment depends on. */
  method CheckCharge(report: Report, market: Market, asked: Asked, charge: Option<Option<nat>>)
      returns (flow: Flow, c: Charged)
    requires market.Valid() && market.signed == {} && market.held <= {Junk}
    modifies report, market
    ensures market.Valid() && old(report.results) <= report.results
    ensures Reports(old(Ids(report.results)), Ids(report.results), CHARGE + RECEIPT, flow)
    ensures c.tx.None? ==> market.signed == {} && market.sent == old(market.sent)
    ensures c.tx.Some? ==>
              && market.signed == {c.tx.value} && c.tx.value.Signed?
              && charge.Some? && charge.value.Some? && asked.amount == Some(c.tx.value.amount)
              && c.tx.value.amount <= charge.value.value
              && Sends(old(market.sent), market.sent, c.tx.value, 3)
              && !Blocked(old(report.results))
    ensures c.probe.Some? && c.before.Some? && c.probe.value < c.before.value ==>
              c.tx.Some? && market.sent == old(market.sent) + [c.tx.value]
    ensures old(market.answers) <= market.answers
    ensures flow.Going? && charge.Some? && MayCharge(asked) && !Blocked(old(report.results)) ==>
              ChargedAs(report.results[|old(report.results)|..], market.answers[|old(market.answers)|..],
                        asked.amount.value, charge.value, c)
    ensures flow.Going? && !(charge.Some? && MayCharge(asked) && !Blocked(old(report.results))) ==>
              forall i | |old(report.results)| <= i < |report.results| :: report.results[i].outcome == Skip
  {
    flow, c := Going, Charged(None, false, None, None, None);
    var blocked := report.StoreFailed();
    if charge.None? || blocked || !asked.chargeable || !asked.paysDeclared || asked.amount.None? || !asked.sameAsset || !asked.linesRead {
      SkipCharge(report);
      return;
    }
    flow, c := ChargeOnce(report, market, asked.amount.value, charge.value);
  }

  /** Every check of a whole run, in order; P8 only for a store that charges into an escrow. */
  function Canonical(escrow: bool, profileOnly: bool): seq<Id> {
    (if escrow then PROFILE else PROFILE[..7]) + if profileOnly then [] else REQUIREMENTS + (CHARGE + RECEIPT)
  }

  /** The checks of a run, in order: it stops in the profile, or skips nothing after it; an error ends it after any check,
      and is reported last. */
  predicate RunIds(ids: seq<Id>, profile: seq<Id>, complete: bool, profileOnly: bool, flow: Flow) {
    if flow.Threw? then ids != [] && ids[|ids| - 1] == KIT && exists escrow :: ids[..|ids| - 1] <= Canonical(escrow, profileOnly)
    else
      && ProfileIds(profile, complete)
      && ids == if !complete || profileOnly then profile else profile + (REQUIREMENTS + (CHARGE + RECEIPT))
  }

  predicate Between(ids: seq<Id>, low: nat, high: nat) {
    forall i | 0 <= i < |ids| :: low <= Rank(ids[i]) <= high
  }

  lemma {:induction false} GroupsInOrder(a: seq<Id>, b: seq<Id>, low: nat, middle: nat, high: nat)
    requires Increasing(a) && Increasing(b) && Between(a, low, middle) && Between(b, middle + 1, high) && low <= middle + 1 <= high
    ensures Increasing(a + b) && Between(a + b, low, high)
  {
  }

  lemma {:induction false} ProfileInOrder(profile: seq<Id>, complete: bool)
    requires ProfileIds(profile, complete)
    ensures Increasing(profile) && Between(profile, 1, 10)
  {
  }

  lemma {:induction false} RequirementsInOrder()
    ensures Increasing(REQUIREMENTS) && Between(REQUIREMENTS, 11, 20)
  {
  }

  lemma {:induction false} ChargeInOrder()
    ensures Increasing(CHARGE + RECEIPT) && Between(CHARGE + RECEIPT, 21, 40)
  {
  }

  lemma {:induction false} CanonicalInOrder(profile: seq<Id>)
    requires ProfileIds(profile, true)
    ensures var ids := profile + (REQUIREMENTS + (CHARGE + RECEIPT)); Increasing(ids) && Between(ids, 1, 40)
  {
    ProfileInOrder(profile, true);
    RequirementsInOrder();
    ChargeInOrder();
    GroupsInOrder(REQUIREMENTS, CHARGE + RECEIPT, 11, 20, 40);
    GroupsInOrder(profile, REQUIREMENTS + (CHARGE + RECEIPT), 1, 10, 40);
  }

  /** Whatever the store did, and wherever an error ended the run, the checks come in the canonical order, none twice. */
  lemma {:induction false} ChecksAreInOrder(ids: seq<Id>, profile: seq<Id>, complete: bool, profileOnly: bool, flow: Flow)
    requires RunIds(ids, profile, complete, profileOnly, flow)
    ensures Increasing(ids)
  {
    if flow.Threw? {
      var front := ids[..|ids| - 1];
      var escrow :| front <= Canonical(escrow, profileOnly);
      var full := if escrow then PROFILE else PROFILE[..7];
      CanonicalInOrder(full);
      assert Canonical(escrow, profileOnly) <= full + (REQUIREMENTS + (CHARGE + RECEIPT));
      assert forall i | 0 <= i < |front| :: front[i] == (full + (REQUIREMENTS + (CHARGE + RECEIPT)))[i];
      GroupsInOrder(front, [KIT], 1, 40, 50);
      assert ids == front + [KIT];
    } else if complete && !profileOnly {
      CanonicalInOrder(profile);
    } else {
      ProfileInOrder(profile, complete);
    }
  }

  /** How many times a check was reported. */
  function Times(ids: seq<Id>, id: Id): nat {
    if ids == [] then 0 else Times(ids[..|ids| - 1], id) + if ids[|ids| - 1] == id then 1 else 0
  }

  lemma {:induction false} InOrderIsOnce(ids: seq<Id>, id: Id)
    requires Increasing(ids)
    ensures Times(ids, id) == if id in ids then 1 else 0
  {
    if ids != [] {
      var front := ids[..|ids| - 1];
      assert ids == front + [ids[|ids| - 1]];
      InOrderIsOnce(front, id);
      assert forall i | 0 <= i < |front| :: front[i] == ids[i] && ids[i] != ids[|ids| - 1];
    }
  }

  /** A run that reached the checkouts reports every requirement, charge and receipt check exactly once. */
  lemma {:induction false} EveryCheckOnce(ids: seq<Id>, profile: seq<Id>, id: Id)
    requires RunIds(ids, profile, true, false, Going) && 11 <= Rank(id) <= 34
    ensures Times(ids, id) == 1
  {
    ChecksAreInOrder(ids, profile, true, false, Going);
    InOrderIsOnce(ids, id);
    assert id in REQUIREMENTS + (CHARGE + RECEIPT);
  }

  /** The charge and receipt groups are not what a payment depends on. */
  lemma {:induction false} StillNotBlocked(was: seq<Check>, now: seq<Check>, more: seq<Id>, flow: Flow)
    requires was <= now && Reports(Ids(was), Ids(now), more, flow) && Between(more, 21, 50) && !Blocked(was)
    ensures !Blocked(now)
  {
    assert forall i | |was| <= i < |now| :: now[i].id == Ids(now)[i] == (Ids(was) + more)[i] == more[i - |was|];
    assert forall id | id in NEEDED :: Rank(id) < 21;
  }

  lemma {:induction false} ChargeIsNotNeeded(was: seq<Check>, now: seq<Check>, flow: Flow)
    requires was <= now && Reports(Ids(was), Ids(now), CHARGE + RECEIPT, flow) && !Blocked(was)
    ensures !Blocked(now)
  {
    ChargeInOrder();
    StillNotBlocked(was, now, CHARGE + RECEIPT, flow);
  }

  /** The groups after the profile: requirements, charge and receipt. */
  method CheckStore(report: Report, market: Market, read: ProfileRead, charge: Option<Option<nat>>)
      returns (flow: Flow, c: Charged)
    requires market.Valid() && market.signed == {} && market.held == {} && market.sent == []
    modifies report, market
    ensures market.Valid()
    ensures Reports(old(Ids(report.results)), Ids(report.results), REQUIREMENTS + (CHARGE + RECEIPT), flow)
    ensures c.tx.None? ==> market.signed == {} && (market.sent == [] || market.sent == [Junk])
    ensures c.tx.Some? ==>
              && market.signed == {c.tx.value} && c.tx.value.Signed?
              && charge.Some? && charge.value.Some? && 0 < c.tx.value.amount <= charge.value.value
              && Sends([Junk], market.sent, c.tx.value, 3)
              && !Blocked(report.results)
    ensures c.probe.Some? && c.before.Some? && c.probe.value < c.before.value ==>
              c.tx.Some? && market.sent == [Junk, c.tx.value]
  {
    c := Charged(None, false, None, None, None);
    var asked :- CheckRequirements(report, market, read);
    ghost var was := report.results;
    flow, c := CheckCharge(report, market, asked, charge);
    ReportsAfter(old(Ids(report.results)), REQUIREMENTS, Ids(report.results), CHARGE + RECEIPT, flow);
    if c.tx.Some? {
      ChargeIsNotNeeded(was, report.results, flow);
    }
  }

  lemma {:induction false} KitIsNotNeeded(results: seq<Check>)
    ensures Blocked(results + [Check(KIT, Fail)]) == Blocked(results)
  {
    assert forall i | 0 <= i < |results| :: (results + [Check(KIT, Fail)])[i] == results[i];
  }

  /** Nothing a signed payment depends on failed: the schema, the config and its asset, and every requirement but that the
      checkout is ready, which stops the run. */
  predicate PassedFor(results: seq<Check>) {
    forall i | 0 <= i < |results| :: results[i].id in {P3, P5, P6, R2, R3, R4, R5, R6} ==> results[i].outcome != Fail
  }

  lemma {:induction false} NotBlockedPassed(results: seq<Check>)
    requires !Blocked(results)
    ensures PassedFor(results)
  {
  }

  /** The kit's error is reported after what the run had reported. */
  method ReportError(report: Report, ghost escrow: bool, ghost profileOnly: bool)
    requires Ids(report.results) <= Canonical(escrow, profileOnly)
    modifies report
    ensures RunIds(Ids(report.results), [], false, profileOnly, Threw)
    ensures Blocked(report.results) == old(Blocked(report.results))
  {
    hide Increasing, Rank, Canonical, Blocked;
    ghost var was := report.results;
    report.Add(KIT, Fail);
    KitIsNotNeeded(was);
    assert Ids(report.results)[..|was|] == Ids(was);
  }

  /** The whole kit against any store: checks in canonical order; one signature at most, for what the store asked, within
      the ceiling, and only for a store that failed nothing it depends on; every transaction sent that same one; and
      nothing more than it can ever leave. All of it wherever an error ends the run. */
  method RunConformance(options: Options, market: Market)
      returns (flow: Flow, report: Report, c: Charged, ghost profile: seq<Id>, ghost complete: bool)
    requires market.Valid() && market.signed == {} && market.held == {} && market.sent == []
    modifies market
    ensures fresh(report)
    ensures market.Valid()
    ensures RunIds(Ids(report.results), profile, complete, options.profileOnly, flow)
    ensures Increasing(Ids(report.results))
    ensures c.tx.None? ==> market.signed == {} && market.settled == {} && (market.sent == [] || market.sent == [Junk])
    ensures c.tx.Some? ==>
              && market.signed == {c.tx.value} && c.tx.value.Signed?
              && options.charge.Some? && options.charge.value.Some? && 0 < c.tx.value.amount <= options.charge.value.value
              && Sends([Junk], market.sent, c.tx.value, 3)
              && !Blocked(report.results) && PassedFor(report.results)
              && Outflow(market.settled) == (if c.tx.value in market.settled then c.tx.value.amount else 0)
    ensures c.probe.Some? && c.before.Some? && c.probe.value < c.before.value ==>
              c.tx.Some? && market.sent == [Junk, c.tx.value]
  {
    report := new Report();
    c := Charged(None, false, None, None, None);
    var read;
    flow, read := CheckProfile(report);
    profile, complete := Ids(report.results), read.complete;
    ghost var escrow := flow.Threw? || |profile| == 8;
    if flow.Going? && read.complete && !options.profileOnly {
      flow, c := CheckStore(report, market, read, options.charge);
      assert profile + (REQUIREMENTS + (CHARGE + RECEIPT)) == Canonical(escrow, false);
    }
    if flow.Threw? {
      ReportError(report, escrow, options.profileOnly);
    }
    ChecksAreInOrder(Ids(report.results), profile, complete, options.profileOnly, flow);
    if c.tx.Some? {
      NotBlockedPassed(report.results);
      OnePaymentAtMost(market.settled, market.signed, c.tx.value);
    }
  }
}
