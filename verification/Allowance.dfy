/** Independent processes competing for one daily allowance, with and without a lock around read, decide and write. */
module Allowance {
  import opened Results

  /** Processes, attempts of each, the amount of one attempt and the daily limit. */
  datatype Params = Params(processes: nat, attempts: nat, amount: nat, limit: nat)

  const REFERENCE := Params(4, 3, 30_000_000, 100_000_000)

  datatype Mode = Atomic | Racy

  /** A process between two of its steps: `decision` is what it read and has not yet acted on. */
  datatype Worker = Worker(round: nat, accepted: nat, rejected: nat, decision: Option<bool>)

  /** The vault both sums and counts what was recorded today. */
  datatype State = State(total: nat, records: nat, workers: seq<Worker>)

  function Init(p: Params): State {
    State(0, 0, seq(p.processes, _ => Worker(0, 0, 0, None)))
  }

  predicate Fits(p: Params, s: State) {
    s.total + p.amount <= p.limit
  }

  function Record(p: Params, s: State): State {
    s.(total := s.total + p.amount, records := s.records + 1)
  }

  /** The attempt ends, with its amount recorded or not. */
  function EndAttempt(p: Params, s: State, w: nat, recorded: bool): State
    requires w < |s.workers|
  {
    var before := s.workers[w];
    var after :=
      if recorded then before.(round := before.round + 1, accepted := before.accepted + 1, decision := None)
      else before.(round := before.round + 1, rejected := before.rejected + 1, decision := None);
    (if recorded then Record(p, s) else s).(workers := s.workers[w := after])
  }

  /** What process `w` does next; none when it has no attempt left. Under the lock an attempt is one step; without it,
      reading and writing are two. */
  function Step(mode: Mode, p: Params, s: State, w: nat): Option<State> {
    if w >= |s.workers| || s.workers[w].round >= p.attempts then None
    else if mode.Atomic? then Some(EndAttempt(p, s, w, Fits(p, s)))
    else
      match s.workers[w].decision
      case None => Some(s.(workers := s.workers[w := s.workers[w].(decision := Some(Fits(p, s)))]))
      case Some(recorded) => Some(EndAttempt(p, s, w, recorded))
  }

  /** The state after the processes moved in the order the schedule gives; none when it names one that cannot move. */
  function Run(mode: Mode, p: Params, schedule: seq<nat>): Option<State> {
    if schedule == [] then Some(Init(p))
    else
      match Run(mode, p, schedule[..|schedule| - 1])
      case None => None
      case Some(s) => Step(mode, p, s, schedule[|schedule| - 1])
  }

  predicate Finished(p: Params, s: State) {
    forall w | 0 <= w < |s.workers| :: s.workers[w].round == p.attempts
  }

  // ---------------------------------------------------------------- sums over the processes

  function AcceptedBy(w: Worker): nat { w.accepted }

  function RejectedBy(w: Worker): nat { w.rejected }

  function ApprovedBy(w: Worker): nat { if w.decision == Some(true) then 1 else 0 }

  function Sum(ws: seq<Worker>, f: Worker -> nat): nat {
    if ws == [] then 0 else f(ws[0]) + Sum(ws[1..], f)
  }

  lemma {:induction false} SumUpdate(ws: seq<Worker>, f: Worker -> nat, i: nat, w: Worker)
    requires i < |ws|
    ensures Sum(ws[i := w], f) == Sum(ws, f) - f(ws[i]) + f(w)
  {
    if i == 0 {
      assert ws[0 := w][1..] == ws[1..];
    } else {
      assert ws[i := w][1..] == ws[1..][i - 1 := w];
      SumUpdate(ws[1..], f, i - 1, w);
    }
  }

  lemma {:induction false} SumBound(ws: seq<Worker>, f: Worker -> nat, most: nat)
    requires forall i | 0 <= i < |ws| :: f(ws[i]) <= most
    ensures Sum(ws, f) <= |ws| * most
  {
    if ws != [] {
      SumBound(ws[1..], f, most);
      assert |ws| * most == most + (|ws| - 1) * most;
    }
  }

  lemma {:induction false} SumOfSame(ws: seq<Worker>, f: Worker -> nat, each: nat)
    requires forall i | 0 <= i < |ws| :: f(ws[i]) == each
    ensures Sum(ws, f) == |ws| * each
  {
    if ws != [] {
      SumOfSame(ws[1..], f, each);
      assert |ws| * each == each + (|ws| - 1) * each;
    }
  }

  /** Accepted and rejected attempts together are the attempts made. */
  lemma {:induction false} OutcomesAddUp(ws: seq<Worker>, attempts: nat)
    requires forall i | 0 <= i < |ws| :: ws[i].accepted + ws[i].rejected == attempts
    ensures Sum(ws, AcceptedBy) + Sum(ws, RejectedBy) == |ws| * attempts
  {
    if ws != [] {
      OutcomesAddUp(ws[1..], attempts);
      assert |ws| * attempts == attempts + (|ws| - 1) * attempts;
    }
  }

  // ---------------------------------------------------------------- every run

  /** How many records the vault can hold at the moment the last approved write lands. */
  function Ceiling(mode: Mode, p: Params): nat
    requires p.amount > 0
  {
    if mode.Atomic? then p.limit / p.amount
    else if p.amount > p.limit then 0
    else p.limit / p.amount + p.processes - 1
  }

  predicate Sound(mode: Mode, p: Params, s: State)
    requires p.amount > 0
  {
    && |s.workers| == p.processes
    && s.total == p.amount * s.records
    && Sum(s.workers, AcceptedBy) == s.records
    && s.records + Sum(s.workers, ApprovedBy) <= Ceiling(mode, p)
    && (Sum(s.workers, RejectedBy) > 0 || (exists w | 0 <= w < |s.workers| :: s.workers[w].decision == Some(false))
        ==> !Fits(p, s))
    && (forall w | 0 <= w < |s.workers| ::
          && s.workers[w].accepted + s.workers[w].rejected == s.workers[w].round
          && s.workers[w].round + (if s.workers[w].decision.Some? then 1 else 0) <= p.attempts
          && (mode.Atomic? ==> s.workers[w].decision.None?))
  }

  lemma {:induction false} FitsByCount(p: Params, s: State)
    requires p.amount > 0 && s.total == p.amount * s.records
    ensures Fits(p, s) <==> s.records + 1 <= p.limit / p.amount
  {
    assert s.total + p.amount == p.amount * (s.records + 1);
    Fewer(p.limit, p.amount, s.records + 1);
  }

  lemma {:induction false} Fewer(x: nat, d: nat, k: nat)
    requires d > 0
    ensures d * k <= x <==> k <= x / d
  {
    var q, r := x / d, x % d;
    assert x == d * q + r;
    if k <= q {
      assert d * k <= d * q;
    } else {
      assert d * k >= d * (q + 1);
    }
  }

  /** Reading without the lock: a process that finds the amount fits leaves room for the others' decisions too. */
  lemma {:induction false} ReadIsSound(p: Params, s: State, w: nat)
    requires p.amount > 0 && Sound(Racy, p, s) && w < |s.workers|
    requires s.workers[w].round < p.attempts && s.workers[w].decision.None?
    ensures Sound(Racy, p, Step(Racy, p, s, w).value)
  {
    var t := Step(Racy, p, s, w).value;
    var after := t.workers[w];
    SumUpdate(s.workers, AcceptedBy, w, after);
    SumUpdate(s.workers, RejectedBy, w, after);
    SumUpdate(s.workers, ApprovedBy, w, after);
    FitsByCount(p, s);
    assert forall i | 0 <= i < |t.workers| :: ApprovedBy(t.workers[i]) <= 1;
    SumBound(t.workers, ApprovedBy, 1);
  }

  /** What ending an attempt does to the sums. */
  lemma {:induction false} EndSums(p: Params, s: State, w: nat, recorded: bool)
    requires w < |s.workers| && s.total == p.amount * s.records
    ensures var t, one := EndAttempt(p, s, w, recorded), if recorded then 1 else 0;
            && Sum(t.workers, AcceptedBy) == Sum(s.workers, AcceptedBy) + one
            && Sum(t.workers, RejectedBy) == Sum(s.workers, RejectedBy) + 1 - one
            && Sum(t.workers, ApprovedBy) == Sum(s.workers, ApprovedBy) - ApprovedBy(s.workers[w])
            && t.records == s.records + one && t.total == p.amount * t.records
  {
    var after := EndAttempt(p, s, w, recorded).workers[w];
    SumUpdate(s.workers, AcceptedBy, w, after);
    SumUpdate(s.workers, RejectedBy, w, after);
    SumUpdate(s.workers, ApprovedBy, w, after);
    assert p.amount * (s.records + 1) == p.amount * s.records + p.amount;
  }

  /** Ending an attempt as decided, or under the lock as it stands. */
  lemma {:induction false} EndIsSound(mode: Mode, p: Params, s: State, w: nat, recorded: bool)
    requires p.amount > 0 && Sound(mode, p, s) && w < |s.workers| && s.workers[w].round < p.attempts
    requires mode.Racy? ==> s.workers[w].decision == Some(recorded)
    requires mode.Atomic? ==> recorded == Fits(p, s)
    ensures Sound(mode, p, EndAttempt(p, s, w, recorded))
  {
    var t := EndAttempt(p, s, w, recorded);
    EndSums(p, s, w, recorded);
    if mode.Atomic? {
      FitsByCount(p, s);
      SumOfSame(t.workers, ApprovedBy, 0);
    }
    assert t.total >= s.total;
  }

  lemma {:induction false} StepIsSound(mode: Mode, p: Params, s: State, w: nat)
    requires p.amount > 0 && Sound(mode, p, s) && Step(mode, p, s, w).Some?
    ensures Sound(mode, p, Step(mode, p, s, w).value)
  {
    if mode.Atomic? {
      EndIsSound(mode, p, s, w, Fits(p, s));
    } else if s.workers[w].decision.None? {
      ReadIsSound(p, s, w);
    } else {
      EndIsSound(mode, p, s, w, s.workers[w].decision.value);
    }
  }

  /** Whatever the order the processes move in. */
  lemma {:induction false} RunIsSound(mode: Mode, p: Params, schedule: seq<nat>)
    requires p.amount > 0 && Run(mode, p, schedule).Some?
    ensures Sound(mode, p, Run(mode, p, schedule).value)
  {
    if schedule == [] {
      SumOfSame(Init(p).workers, AcceptedBy, 0);
      SumOfSame(Init(p).workers, RejectedBy, 0);
      SumOfSame(Init(p).workers, ApprovedBy, 0);
    } else {
      var before := schedule[..|schedule| - 1];
      RunIsSound(mode, p, before);
      StepIsSound(mode, p, Run(mode, p, before).value, schedule[|schedule| - 1]);
    }
  }

  function Min(a: int, b: int): int {
    if a <= b then a else b
  }

  // ---------------------------------------------------------------- under the lock

  /** In every order, at every moment, the vault never holds more than the limit. */
  lemma {:induction false} AtomicStaysWithinLimit(p: Params, schedule: seq<nat>)
    requires p.amount > 0 && Run(Atomic, p, schedule).Some?
    ensures var s := Run(Atomic, p, schedule).value; s.total == p.amount * s.records <= p.limit
  {
    RunIsSound(Atomic, p, schedule);
    Fewer(p.limit, p.amount, Run(Atomic, p, schedule).value.records);
  }

  /** A finished run filled the allowance, or accepted everything; nothing was both or neither. */
  lemma {:induction false} AtomicIsExact(p: Params, schedule: seq<nat>)
    requires p.amount > 0 && Run(Atomic, p, schedule).Some? && Finished(p, Run(Atomic, p, schedule).value)
    ensures var s := Run(Atomic, p, schedule).value;
            && Sum(s.workers, AcceptedBy) == s.records == Min(p.processes * p.attempts, p.limit / p.amount)
            && Sum(s.workers, AcceptedBy) + Sum(s.workers, RejectedBy) == p.processes * p.attempts
  {
    RunIsSound(Atomic, p, schedule);
    var s := Run(Atomic, p, schedule).value;
    OutcomesAddUp(s.workers, p.attempts);
    FitsByCount(p, s);
  }

  // ---------------------------------------------------------------- without it, in any order

  /** The most records any order of the unlocked steps can leave. */
  function WorstCase(p: Params): nat
    requires p.amount > 0
  {
    if p.amount > p.limit || p.processes == 0 then 0
    else Min(p.processes * p.attempts, p.limit / p.amount + p.processes - 1)
  }

  lemma {:induction false} RacyIsBounded(p: Params, schedule: seq<nat>)
    requires p.amount > 0 && Run(Racy, p, schedule).Some?
    ensures Run(Racy, p, schedule).value.records <= WorstCase(p)
  {
    RunIsSound(Racy, p, schedule);
    var s := Run(Racy, p, schedule).value;
    SumBound(s.workers, AcceptedBy, p.attempts);
  }

  /** Past the limit by one amount for each other process. */
  function Overshoot(p: Params): int {
    p.limit + (p.processes - 1) * p.amount
  }

  lemma {:induction false} OvershootByCount(p: Params)
    requires p.amount > 0
    ensures p.amount * (p.limit / p.amount + p.processes - 1) == Overshoot(p) - p.limit % p.amount
  {
    var q := p.limit / p.amount;
    assert p.limit == p.amount * q + p.limit % p.amount;
    assert p.amount * (q + (p.processes - 1)) == p.amount * q + p.amount * (p.processes - 1);
  }

  lemma {:induction false} MoreRecords(d: nat, a: nat, b: nat)
    requires a <= b
    ensures d * a <= d * b
  {
  }

  /** No order of the steps takes the total further past the limit. */
  lemma {:induction false} RacyOvershoot(p: Params, schedule: seq<nat>)
    requires p.amount > 0 && p.processes > 0 && Run(Racy, p, schedule).Some?
    ensures Run(Racy, p, schedule).value.total <= Overshoot(p)
  {
    RacyIsBounded(p, schedule);
    RunIsSound(Racy, p, schedule);
    MoreRecords(p.amount, Run(Racy, p, schedule).value.records, WorstCase(p));
    MoreRecords(p.amount, WorstCase(p), p.limit / p.amount + p.processes - 1);
    OvershootByCount(p);
  }

  lemma {:induction false} RunExtends(mode: Mode, p: Params, schedule: seq<nat>, w: nat)
    requires Run(mode, p, schedule).Some?
    ensures Run(mode, p, schedule + [w]) == Step(mode, p, Run(mode, p, schedule).value, w)
  {
    assert (schedule + [w])[..|schedule|] == schedule;
  }

  /** Every process idle, with an attempt to spare, and `k` amounts recorded. */
  predicate Primed(p: Params, s: State, k: nat) {
    && |s.workers| == p.processes && s.records == k && s.total == p.amount * k
    && Sum(s.workers, AcceptedBy) == k
    && forall w | 0 <= w < |s.workers| ::
         s.workers[w].decision.None? && s.workers[w].accepted == s.workers[w].round < p.attempts
  }

  lemma {:induction false} SomeoneHasSpare(p: Params, s: State, k: nat) returns (w: nat)
    requires p.attempts > 0 && Primed(p, s, k) && k < p.processes * (p.attempts - 1)
    ensures w < |s.workers| && s.workers[w].accepted < p.attempts - 1
  {
    if forall i | 0 <= i < |s.workers| :: s.workers[i].accepted >= p.attempts - 1 {
      SumOfSame(s.workers, AcceptedBy, p.attempts - 1);
      assert false;
    }
    w :| 0 <= w < |s.workers| && s.workers[w].accepted < p.attempts - 1;
  }

  function AfterRead(s: State, w: nat): State
    requires w < |s.workers|
  {
    s.(workers := s.workers[w := s.workers[w].(decision := Some(true))])
  }

  /** A read and a write of the same process, with nobody between. */
  lemma {:induction false} AttemptAlone(p: Params, s: State, w: nat, k: nat)
    requires p.amount > 0 && k < p.limit / p.amount
    requires Primed(p, s, k) && w < p.processes && s.workers[w].accepted < p.attempts - 1
    ensures Step(Racy, p, s, w) == Some(AfterRead(s, w))
    ensures Step(Racy, p, AfterRead(s, w), w) == Some(EndAttempt(p, AfterRead(s, w), w, true))
  {
    FitsByCount(p, s);
  }

  lemma {:induction false} AttemptKeepsPrimed(p: Params, s: State, w: nat, k: nat)
    requires Primed(p, s, k) && w < p.processes && s.workers[w].accepted < p.attempts - 1
    ensures Primed(p, EndAttempt(p, AfterRead(s, w), w, true), k + 1)
  {
    var t := EndAttempt(p, AfterRead(s, w), w, true);
    assert t.workers == s.workers[w := t.workers[w]];
    SumUpdate(s.workers, AcceptedBy, w, t.workers[w]);
    assert p.amount * (k + 1) == p.amount * k + p.amount;
  }

  /** One attempt after another, all accepted, no process using its last. */
  lemma {:induction false} Prelude(p: Params, k: nat) returns (schedule: seq<nat>)
    requires p.amount > 0 && p.attempts > 0
    requires k <= p.limit / p.amount && k <= p.processes * (p.attempts - 1)
    ensures Run(Racy, p, schedule).Some? && Primed(p, Run(Racy, p, schedule).value, k)
  {
    if k == 0 {
      schedule := [];
      SumOfSame(Init(p).workers, AcceptedBy, 0);
    } else {
      var before := Prelude(p, k - 1);
      var w := SomeoneHasSpare(p, Run(Racy, p, before).value, k - 1);
      AttemptAlone(p, Run(Racy, p, before).value, w, k - 1);
      AttemptKeepsPrimed(p, Run(Racy, p, before).value, w, k - 1);
      RunExtends(Racy, p, before, w);
      RunExtends(Racy, p, before + [w], w);
      schedule := before + [w] + [w];
    }
  }

  lemma {:induction false} IdleWhenPrimed(p: Params, s: State, k: nat)
    requires Primed(p, s, k)
    ensures |s.workers| == p.processes && s.records == k && s.total == p.amount * k
    ensures forall w | 0 <= w < p.processes :: s.workers[w].round < p.attempts && s.workers[w].decision == None
  {
  }

  /** `j` processes have read, and found the amount would fit. */
  lemma {:induction false} AllRead(p: Params, prelude: seq<nat>, k: nat, j: nat) returns (schedule: seq<nat>)
    requires p.amount > 0 && k < p.limit / p.amount && j <= p.processes
    requires Run(Racy, p, prelude).Some? && Primed(p, Run(Racy, p, prelude).value, k)
    ensures Run(Racy, p, schedule).Some?
    ensures var s := Run(Racy, p, schedule).value;
            && |s.workers| == p.processes && s.records == k && s.total == p.amount * k
            && forall w | 0 <= w < p.processes ::
                 s.workers[w].round < p.attempts && s.workers[w].decision == if w < j then Some(true) else None
  {
    hide Run, Primed, Sum;
    if j == 0 {
      schedule := prelude;
      IdleWhenPrimed(p, Run(Racy, p, prelude).value, k);
    } else {
      var before := AllRead(p, prelude, k, j - 1);
      FitsByCount(p, Run(Racy, p, before).value);
      RunExtends(Racy, p, before, j - 1);
      schedule := before + [j - 1];
    }
  }

  /** `j` of them have written since, none looking again. */
  lemma {:induction false} AllWrite(p: Params, ready: seq<nat>, k: nat, j: nat) returns (schedule: seq<nat>)
    requires Run(Racy, p, ready).Some? && j <= p.processes
    requires var s := Run(Racy, p, ready).value;
             && |s.workers| == p.processes && s.records == k
             && forall w | 0 <= w < p.processes :: s.workers[w].round < p.attempts && s.workers[w].decision == Some(true)
    ensures Run(Racy, p, schedule).Some?
    ensures var s := Run(Racy, p, schedule).value;
            && |s.workers| == p.processes && s.records == k + j
            && forall w | j <= w < p.processes :: s.workers[w].round < p.attempts && s.workers[w].decision == Some(true)
  {
    if j == 0 {
      schedule := ready;
    } else {
      var before := AllWrite(p, ready, k, j - 1);
      RunExtends(Racy, p, before, j - 1);
      schedule := before + [j - 1];
    }
  }

  /** The worst case happens: some order leaves exactly that many records. */
  lemma {:induction false} WorstCaseHappens(p: Params) returns (schedule: seq<nat>)
    requires p.amount > 0
    ensures Run(Racy, p, schedule).Some? && Run(Racy, p, schedule).value.records == WorstCase(p)
  {
    schedule := [];
    if p.amount <= p.limit && p.processes > 0 && p.attempts > 0 {
      Fewer(p.limit, p.amount, 1);
      var spare := p.processes * (p.attempts - 1);
      assert p.processes * p.attempts == spare + p.processes;
      var k := Min(p.limit / p.amount - 1, spare);
      schedule := Prelude(p, k);
      schedule := AllRead(p, schedule, k, p.processes);
      schedule := AllWrite(p, schedule, k, p.processes);
    } else if p.attempts == 0 {
      assert p.processes * p.attempts == 0;
    }
  }

  predicate Overspends(p: Params, schedule: seq<nat>) {
    Run(Racy, p, schedule).Some? && Run(Racy, p, schedule).value.total > p.limit
  }

  lemma {:induction false} NeverOverspends(p: Params, schedule: seq<nat>)
    requires p.amount > 0 && p.processes > 0
    requires p.processes == 1 || p.amount > p.limit || p.processes * p.attempts * p.amount <= p.limit
    ensures !Overspends(p, schedule)
  {
    if Run(Racy, p, schedule).Some? {
      RacyIsBounded(p, schedule);
      RunIsSound(Racy, p, schedule);
      Fewer(p.limit, p.amount, Run(Racy, p, schedule).value.records);
      Fewer(p.limit, p.amount, p.processes * p.attempts);
      assert p.processes * p.attempts * p.amount == p.amount * (p.processes * p.attempts);
    }
  }

  /** The unlocked form is safe in every order only where there is nothing to race for: one process, no attempt that
      fits, or a limit that holds every attempt. */
  lemma {:induction false} RacyIsSafeOnlyWhen(p: Params)
    requires p.amount > 0 && p.processes > 0
    ensures (forall schedule :: !Overspends(p, schedule))
            <==> p.processes == 1 || p.amount > p.limit || p.processes * p.attempts * p.amount <= p.limit
  {
    var all := p.processes * p.attempts;
    if p.processes == 1 || p.amount > p.limit || all * p.amount <= p.limit {
      forall schedule ensures !Overspends(p, schedule) {
        NeverOverspends(p, schedule);
      }
    } else {
      var schedule := WorstCaseHappens(p);
      RunIsSound(Racy, p, schedule);
      Fewer(p.limit, p.amount, all);
      Fewer(p.limit, p.amount, WorstCase(p));
      assert all * p.amount == p.amount * all;
      assert Overspends(p, schedule);
    }
  }

  predicate Reaches(p: Params, schedule: seq<nat>, total: nat) {
    Run(Racy, p, schedule).Some? && Run(Racy, p, schedule).value.total == total
  }

  lemma {:induction false} CountForces(d: nat, records: nat, most: nat, full: int, rest: nat)
    requires d > 0 && records <= most <= full && d * records == d * full + rest
    ensures rest == 0 && most == full
  {
    MoreRecords(d, records, full);
    if records < full {
      MoreRecords(d, records + 1, full);
      assert false;
    }
  }

  /** A run that meets the bound used every place. */
  lemma {:induction false} MeetingNeeds(p: Params, schedule: seq<nat>)
    requires 0 < p.amount <= p.limit && p.processes > 0 && Reaches(p, schedule, Overshoot(p))
    ensures p.limit % p.amount == 0 && p.limit / p.amount + p.processes - 1 <= p.processes * p.attempts
  {
    RacyIsBounded(p, schedule);
    RunIsSound(Racy, p, schedule);
    OvershootByCount(p);
    CountForces(p.amount, Run(Racy, p, schedule).value.records, WorstCase(p), p.limit / p.amount + p.processes - 1,
                p.limit % p.amount);
  }

  lemma {:induction false} MeetingHappens(p: Params) returns (schedule: seq<nat>)
    requires 0 < p.amount <= p.limit && p.processes > 0
    requires p.limit % p.amount == 0 && p.limit / p.amount + p.processes - 1 <= p.processes * p.attempts
    ensures Reaches(p, schedule, Overshoot(p))
  {
    schedule := WorstCaseHappens(p);
    RunIsSound(Racy, p, schedule);
    OvershootByCount(p);
  }

  /** The bound on the overshoot is met exactly when the amount divides the limit and the attempts before the last
      round can fill all but one of the limit's places. */
  lemma {:induction false} OvershootIsMetWhen(p: Params)
    requires 0 < p.amount <= p.limit && p.processes > 0
    ensures (exists schedule :: Reaches(p, schedule, Overshoot(p)))
            <==> p.limit % p.amount == 0 && p.limit / p.amount - 1 <= p.processes * (p.attempts - 1)
  {
    assert p.processes * p.attempts == p.processes * (p.attempts - 1) + p.processes;
    if exists schedule :: Reaches(p, schedule, Overshoot(p)) {
      var schedule :| Reaches(p, schedule, Overshoot(p));
      MeetingNeeds(p, schedule);
    }
    if p.limit % p.amount == 0 && p.limit / p.amount - 1 <= p.processes * (p.attempts - 1) {
      var schedule := MeetingHappens(p);
    }
  }

  // ---------------------------------------------------------------- the coordinator's rounds

  datatype Command = Begin(round: nat) | Commit(round: nat) | Continue(round: nat)

  /** A process waiting for the coordinator: it fails on any command but the one its own decision calls for. */
  function Receive(mode: Mode, p: Params, s: State, w: nat, command: Command): Result<State, string>
    requires w < |s.workers|
  {
    var worker := s.workers[w];
    if worker.decision.None? then
      if command != Begin(worker.round) then Err("unexpected coordinator command")
      else match Step(mode, p, s, w)
           case None => Err("no attempt left")
           case Some(t) => Ok(t)
    else if command != (if worker.decision.value then Commit(worker.round) else Continue(worker.round)) then
      Err("unexpected coordinator action")
    else match Step(mode, p, s, w)
         case None => Err("no attempt left")
         case Some(t) => Ok(t)
  }

  /** A process with an attempt left obeys one command only: to begin its round, and then to do what it decided. */
  lemma {:induction false} ObeysOnly(mode: Mode, p: Params, s: State, w: nat, command: Command)
    requires w < |s.workers|
    ensures var worker := s.workers[w];
            Receive(mode, p, s, w, command).Ok? <==>
              && worker.round < p.attempts
              && match command
                 case Begin(round) => worker.decision == None && round == worker.round
                 case Commit(round) => worker.decision == Some(true) && round == worker.round
                 case Continue(round) => worker.decision == Some(false) && round == worker.round
    ensures Receive(mode, p, s, w, command).Ok? ==>
              Step(mode, p, s, w) == Some(Receive(mode, p, s, w, command).value)
  {
  }

  /** In how many of the coordinator's rounds every process is approved. */
  function ApprovedRounds(p: Params): nat
    requires p.amount > 0 && p.processes > 0
  {
    if p.amount > p.limit then 0
    else
      assert p.processes * p.amount > 0;
      (p.limit - p.amount) / (p.processes * p.amount) + 1
  }

  /** All the processes are at the start of the round and agree. */
  predicate Level(p: Params, s: State, round: nat)
    requires p.amount > 0 && p.processes > 0
  {
    var each := Min(round, ApprovedRounds(p));
    && |s.workers| == p.processes
    && s.records == p.processes * each && s.total == p.amount * s.records
    && forall w | 0 <= w < |s.workers| :: s.workers[w] == Worker(round, each, round - each, None)
  }

  lemma {:induction false} ApprovedWhile(p: Params, s: State, round: nat)
    requires p.amount > 0 && p.processes > 0 && Level(p, s, round)
    ensures Fits(p, s) <==> round < ApprovedRounds(p)
  {
    var each := Min(round, ApprovedRounds(p));
    var d := p.processes * p.amount;
    assert s.total == d * each by {
      assert p.amount * (p.processes * each) == d * each;
    }
    if p.amount <= p.limit {
      Fewer(p.limit - p.amount, d, each);
    }
  }

  function Everyone(n: nat): (r: set<nat>)
    ensures |r| == n && forall w: nat :: w in r <==> w < n
  {
    if n == 0 then {} else Everyone(n - 1) + {n - 1}
  }

  /** A process in a round: not yet read, or holding the decision they all share. */
  function Reading(round: nat, each: nat, decided: Option<bool>): Worker
    requires each <= round
  {
    Worker(round, each, round - each, decided)
  }

  /** The same process once it has acted. */
  function Acted(round: nat, each: nat, approved: bool): Worker
    requires each <= round
  {
    if approved then Worker(round + 1, each + 1, round - each, None) else Worker(round + 1, each, round + 1 - each, None)
  }

  /** First half of a round: every process reads before any writes, in any order. */
  method AllDecide(p: Params, s: State, round: nat, ghost each: nat) returns (r: Result<State, string>)
    requires round < p.attempts && each <= round && |s.workers| == p.processes
    requires forall w: nat | w < p.processes :: s.workers[w] == Reading(round, each, None)
    ensures r.Ok? && r.value.records == s.records && r.value.total == s.total && |r.value.workers| == p.processes
    ensures forall w: nat | w < p.processes :: r.value.workers[w] == Reading(round, each, Some(Fits(p, s)))
  {
    var now := s;
    var waiting := Everyone(p.processes);
    while waiting != {}
      invariant |now.workers| == p.processes && now.records == s.records && now.total == s.total
      invariant forall w: nat | w in waiting :: w < p.processes && now.workers[w] == Reading(round, each, None)
      invariant forall w: nat | w < p.processes && w !in waiting ::
                  now.workers[w] == Reading(round, each, Some(Fits(p, s)))
      decreases |waiting|
    {
      var w :| w in waiting;
      var next := Receive(Racy, p, now, w, Begin(round));
      if next.Err? {
        return next;
      }
      now := next.value;
      waiting := waiting - {w};
    }
    r := Ok(now);
  }

  lemma {:induction false} OneMore(amount: nat, k: nat)
    ensures amount * (k + 1) == amount * k + amount
  {
  }

  /** What a process does on the command its decision calls for. */
  lemma {:induction false} Acts(p: Params, s: State, w: nat, round: nat, each: nat, approved: bool)
    requires w < |s.workers| && round < p.attempts && each <= round && s.workers[w] == Reading(round, each, Some(approved))
    ensures var one, command := if approved then 1 else 0, if approved then Commit(round) else Continue(round);
            Receive(Racy, p, s, w, command)
            == Ok(State(s.total + p.amount * one, s.records + one, s.workers[w := Acted(round, each, approved)]))
  {
  }

  /** Second half: every process is told to act on its own decision, and all have before the next round. */
  method AllAct(p: Params, s: State, round: nat, ghost each: nat, ghost approved: bool)
      returns (r: Result<State, string>)
    requires round < p.attempts && each <= round && |s.workers| == p.processes
    requires forall w: nat | w < p.processes :: s.workers[w] == Reading(round, each, Some(approved))
    ensures r.Ok? && |r.value.workers| == p.processes
    ensures r.value.records == s.records + if approved then p.processes else 0
    ensures r.value.total == s.total + if approved then p.amount * p.processes else 0
    ensures forall w: nat | w < p.processes :: r.value.workers[w] == Acted(round, each, approved)
  {
    hide Receive, Acted, Fits;
    var now := s;
    var waiting := Everyone(p.processes);
    ghost var acted := 0;
    while waiting != {}
      invariant |now.workers| == p.processes && acted + |waiting| == p.processes
      invariant now.records == s.records + if approved then acted else 0
      invariant now.total == s.total + if approved then p.amount * acted else 0
      invariant forall w: nat | w in waiting :: w < p.processes && now.workers[w] == Reading(round, each, Some(approved))
      invariant forall w: nat | w < p.processes && w !in waiting :: now.workers[w] == Acted(round, each, approved)
      decreases |waiting|
    {
      var w :| w in waiting;
      var command := if now.workers[w].decision == Some(true) then Commit(round) else Continue(round);
      Acts(p, now, w, round, each, approved);
      var next := Receive(Racy, p, now, w, command);
      if next.Err? {
        return next;
      }
      now := next.value;
      waiting := waiting - {w};
      OneMore(p.amount, acted);
      acted := acted + 1;
    }
    r := Ok(now);
  }

  lemma {:induction false} OneMoreEach(n: nat, each: nat, amount: nat, records: nat)
    ensures n * (each + 1) == n * each + n
    ensures amount * (records + n) == amount * records + amount * n
  {
  }

  /** One round without the lock leaves the processes level again. */
  method RacyRound(p: Params, s: State, round: nat) returns (r: Result<State, string>)
    requires p.amount > 0 && p.processes > 0 && round < p.attempts && Level(p, s, round)
    ensures r.Ok? && Level(p, r.value, round + 1)
  {
    ApprovedWhile(p, s, round);
    ghost var each := Min(round, ApprovedRounds(p));
    r := AllDecide(p, s, round, each);
    if r.Ok? {
      r := AllAct(p, r.value, round, each, Fits(p, s));
    }
    OneMoreEach(p.processes, each, p.amount, s.records);
  }

  /** One round under the lock: the processes come in any order, each reading, deciding and writing in one step. */
  method AtomicRound(p: Params, s: State, round: nat, ghost schedule: seq<nat>)
      returns (r: Result<State, string>, ghost longer: seq<nat>)
    requires p.amount > 0 && round < p.attempts
    requires Run(Atomic, p, schedule) == Some(s)
    requires |s.workers| == p.processes
    requires forall w | 0 <= w < p.processes :: s.workers[w].round == round && s.workers[w].decision.None?
    ensures r.Ok? && Run(Atomic, p, longer) == Some(r.value) && |r.value.workers| == p.processes
    ensures forall w | 0 <= w < p.processes :: r.value.workers[w].round == round + 1 && r.value.workers[w].decision.None?
  {
    hide Run;
    var now := s;
    longer := schedule;
    var waiting := Everyone(p.processes);
    while waiting != {}
      invariant Run(Atomic, p, longer) == Some(now) && |now.workers| == p.processes
      invariant forall w: nat | w in waiting :: w < p.processes
      invariant forall w: nat | w < p.processes ::
        now.workers[w].decision.None? && now.workers[w].round == if w in waiting then round else round + 1
      decreases |waiting|
    {
      var w :| w in waiting;
      var next := Receive(Atomic, p, now, w, Begin(round));
      if next.Err? {
        return next, longer;
      }
      RunExtends(Atomic, p, longer, w);
      longer := longer + [w];
      now := next.value;
      waiting := waiting - {w};
    }
    r := Ok(now);
  }

  /** What the coordinator reports. */
  datatype Summary = Summary(accepted: nat, rejected: nat, records: nat, total: nat, exitCode: int)

  function Summarised(p: Params, s: State, chainIntact: bool): Summary {
    var accepted := Sum(s.workers, AcceptedBy);
    var consistent := accepted == s.records;
    Summary(accepted, Sum(s.workers, RejectedBy), s.records, s.total,
            if s.total <= p.limit && chainIntact && consistent then 0 else 1)
  }

  /** The whole run. Under the lock it fills the allowance exactly; without it, the rounds decide the total. */
  method CoordinatorMain(mode: Mode, p: Params, chainIntact: bool) returns (r: Result<Summary, string>)
    requires p.amount > 0 && p.processes > 0
    ensures r.Ok? && r.value.accepted == r.value.records && r.value.total == p.amount * r.value.records
    ensures r.value.accepted + r.value.rejected == p.processes * p.attempts
    ensures mode.Atomic? ==> r.value.records == Min(p.processes * p.attempts, p.limit / p.amount)
    ensures mode.Racy? ==> r.value.records == p.processes * Min(p.attempts, ApprovedRounds(p))
    ensures mode.Atomic? ==> (r.value.exitCode == 0 <==> chainIntact)
    ensures mode.Racy? ==> (r.value.exitCode == 0
                            <==> chainIntact
                                 && p.processes * p.amount * Min(p.attempts, ApprovedRounds(p)) <= p.limit)
  {
    var s := Init(p);
    ghost var schedule: seq<nat> := [];
    var round := 0;
    while round < p.attempts
      invariant round <= p.attempts
      invariant mode.Racy? ==> Level(p, s, round)
      invariant mode.Atomic? ==> Run(Atomic, p, schedule) == Some(s)
      invariant |s.workers| == p.processes
      invariant forall w | 0 <= w < p.processes :: s.workers[w].round == round && s.workers[w].decision.None?
    {
      var next;
      if mode.Atomic? {
        next, schedule := AtomicRound(p, s, round, schedule);
      } else {
        next := RacyRound(p, s, round);
      }
      if next.Err? {
        return Err("a worker stopped");
      }
      s := next.value;
      round := round + 1;
    }
    if mode.Atomic? {
      AtomicStaysWithinLimit(p, schedule);
      AtomicIsExact(p, schedule);
    } else {
      var each := Min(p.attempts, ApprovedRounds(p));
      SumOfSame(s.workers, AcceptedBy, each);
      OutcomesAddUp(s.workers, p.attempts);
      assert p.amount * (p.processes * each) == p.processes * p.amount * each;
    }
    r := Ok(Summarised(p, s, chainIntact));
  }

  /** The file's own numbers: four processes, three attempts of 3.0 each against 10.0. In rounds the race always records
      12.0; in the worst order 18.0; under the lock 9.0. */
  lemma {:induction false} ReferenceRun()
    ensures REFERENCE.processes * REFERENCE.amount * Min(REFERENCE.attempts, ApprovedRounds(REFERENCE)) == 120_000_000
    ensures 120_000_000 > REFERENCE.limit
    ensures REFERENCE.amount * WorstCase(REFERENCE) == 180_000_000
    ensures REFERENCE.amount * Min(REFERENCE.processes * REFERENCE.attempts, REFERENCE.limit / REFERENCE.amount) == 90_000_000
  {
  }
}
