/** From an open dispute to a paid verdict: the arbiter's folder, the person's confirmation and the escrow, interleaved. */
module VerdictProtocol {
  import opened Results
  import opened Escrow
  import opened DisputeVenue
  import opened VerdictFolder
  import opened Decimal

  datatype Outcome = Rejected | RefundFull | RefundPartial

  datatype Bounded = Bounded(outcome: Outcome, refund: int, adjusted: bool)

  /** A proposal made consistent, and capped at what is disputed. */
  function BoundProposal(outcome: Outcome, proposed: int, disputed: nat): (b: Bounded)
    ensures 0 <= b.refund <= disputed
    ensures b.outcome.Rejected? ==> b.refund == 0
    ensures b.outcome.RefundFull? ==> b.refund == disputed
    ensures b.outcome.RefundPartial? ==> 0 < b.refund < disputed
    ensures b.adjusted <==> b.outcome != outcome || b.refund != proposed
    ensures outcome.Rejected? || outcome.RefundFull? ==> b.outcome == outcome
    ensures outcome.RefundPartial? ==> b.refund == if proposed <= 0 then 0 else if proposed < disputed then proposed else disputed
  {
    var clamped := if proposed < 0 then 0 else if proposed > disputed then disputed else proposed;
    match outcome
    case Rejected => Bounded(Rejected, 0, proposed != 0)
    case RefundFull => Bounded(RefundFull, disputed, proposed != disputed)
    case RefundPartial =>
      if clamped == 0 then Bounded(Rejected, 0, true)
      else if clamped == disputed then Bounded(RefundFull, disputed, true)
      else Bounded(RefundPartial, clamped, clamped != proposed)
  }

  /** A verdict; `rest` is everything else its hash covers. */
  datatype Verdict = Verdict(
    receiptHash: Hash, claimHash: Hash, responseHash: Option<Hash>, outcome: Outcome, refund: nat, disputed: nat,
    proposed: nat, adjusted: bool, rest: string)

  /** One dispute: its order in the escrow, its receipt and claim, and the hash verdicts are named by. */
  datatype Case = Case(order: Order, receipt: Hash, claim: Hash, hashOf: Verdict -> Hash)

  /** Where `decide` is: it reads the escrow, finds the window open, asks, archives, then publishes, and may stop after
      any of them. */
  datatype Deciding =
    | Idle | Reading(view: View) | InTime(view: View) | Asked(verdict: Verdict) | Archived(verdict: Verdict)

  /** Where an `execute` is. It loads `verdict.json`, lists the folder when `seen` verdicts are archived or cannot read it,
      reads `view` off the escrow at `readAt`, reads the clock again and sends; then the escrow answers. */
  datatype Stage =
    | Loaded
    | Listed(seen: Option<nat>)
    | Viewed(seen: Option<nat>, view: View, readAt: nat)
    | Submitted(seen: Option<nat>, view: View, readAt: nat)
    | Finished(seen: Option<nat>, view: View, readAt: nat)

  datatype Execution = Execution(verdict: Verdict, hash: Hash, stage: Stage)

  /** `current` is `verdict.json`. Any number of `execute` may be under way; `paid` is the one whose call the escrow took.
      One clock, in milliseconds, for the scripts and the ledger. */
  datatype World = World(
    clock: nat, chain: State, archive: seq<Verdict>, current: Option<Verdict>, deciding: Deciding,
    executions: seq<Execution>, paid: Option<nat>)

  datatype Event =
    | Tick(clock: nat)
    | Ledger(signers: set<Address>, receivers: set<Address>, call: Call)
    | ReadDispute | CheckWindow
    | Ask(outcome: Outcome, proposed: int, claimed: nat, response: Option<Hash>, rest: string)
    | Archive | Publish | Tear | Crash
    | Load(confirm: Hash) | List(i: nat, read: bool) | Look(i: nat) | Confirm(i: nat)
    | Land(i: nat, signers: set<Address>, receivers: set<Address>)

  function HashesOf(c: Case, archive: seq<Verdict>): seq<Hash> {
    seq(|archive|, i requires 0 <= i < |archive| => c.hashOf(archive[i]))
  }

  function EnvAt(clock: nat, signers: set<Address>, receivers: set<Address>): Env
    requires SecondsAt(clock) <= U64_MAX
  {
    Env(SecondsAt(clock), signers, receivers)
  }

  /** The ledger holds the purchase, and counts its seconds. */
  predicate Alive(c: Case, w: World) {
    c.order in w.chain.purchases && SecondsAt(w.clock) <= U64_MAX
  }

  function ViewOf(c: Case, w: World): View
    requires Alive(c, w)
  {
    FromEscrow(w.chain.purchases[c.order])
  }

  predicate InWindow(w: World, view: View) {
    AssertArbiterWindowOpen(InEscrow, view, Some(WindowsOf(w.chain.config)), w.clock).Pass?
  }

  /** What `decide` checks last before it asks, on the view it read before. */
  predicate MayAsk(w: World, view: View, response: Option<Hash>) {
    && AssertResponseMatches(view, response).Pass?
    && AssertMayDecide(OrZero(view.openedAt), response.Some?, w.chain.config.responseWindow, w.clock).Pass?
  }

  /** What `execute` asks of the escrow's view. */
  predicate MayPay(view: View, verdict: Verdict) {
    AssertOpenFor(Some(view), verdict.claimHash).Pass? && AssertVerdictHeardResponse(view, verdict.responseHash).Pass?
  }

  /** What `execute` asks of the clock, on the view it read before. */
  predicate MaySend(w: World, view: View) {
    AssertMayExecute(InEscrow, view, Some(WindowsOf(w.chain.config)), w.clock).Pass?
  }

  /** The names `execute` lists: a folder it cannot read counts as one with none. */
  function Listing(c: Case, w: World, read: bool): set<string> {
    if read then Names(HashesOf(c, w.archive)) else {}
  }

  function Staged(w: World, i: nat, stage: Stage): World
    requires i < |w.executions|
  {
    w.(executions := w.executions[i := w.executions[i].(stage := stage)])
  }

  /** The world once the escrow has answered an `execute`. */
  function AfterLanding(w: World, i: nat, answer: Result<State, Error>): World
    requires i < |w.executions| && w.executions[i].stage.Submitted?
  {
    var stage := w.executions[i].stage;
    var v := Staged(w, i, Finished(stage.seen, stage.view, stage.readAt));
    match answer
    case Err(_) => v
    case Ok(chain) => v.(chain := chain, paid := Some(i))
  }

  /** The next step of the `i`-th `execute`; none when a check refuses it. */
  ghost function Advance(c: Case, w: World, i: nat, e: Event): Option<World>
    requires Alive(c, w) && i < |w.executions|
  {
    var x := w.executions[i];
    match e
    case List(_, read) =>
      if !x.stage.Loaded? || !LatestCarries(Listing(c, w, read), x.hash) then None
      else Some(Staged(w, i, Listed(if read then Some(|w.archive|) else None)))
    case Look(_) =>
      if !x.stage.Listed? || !MayPay(ViewOf(c, w), x.verdict) then None
      else Some(Staged(w, i, Viewed(x.stage.seen, ViewOf(c, w), w.clock)))
    case Confirm(_) =>
      if !x.stage.Viewed? || !MaySend(w, x.stage.view) then None
      else Some(Staged(w, i, Submitted(x.stage.seen, x.stage.view, x.stage.readAt)))
    case Land(_, signers, receivers) =>
      if !x.stage.Submitted? then None
      else
        var call := Resolve(c.order, x.hash, x.verdict.refund);
        Some(AfterLanding(w, i, Apply(w.chain, EnvAt(w.clock, signers, receivers), call)))
    case _ => None
  }

  /** The next step of `decide`. */
  function Decide(c: Case, w: World, e: Event): Option<World>
    requires Alive(c, w)
  {
    match e
    case ReadDispute =>
      if !w.deciding.Idle? || !AssertOpenFor(Some(ViewOf(c, w)), c.claim).Pass? then None
      else Some(w.(deciding := Reading(ViewOf(c, w))))
    case CheckWindow =>
      if !w.deciding.Reading? || !InWindow(w, w.deciding.view) then None
      else Some(w.(deciding := InTime(w.deciding.view)))
    case Ask(outcome, proposed, claimed, response, rest) =>
      if !w.deciding.InTime? || w.deciding.view.amount < 0 || !MayAsk(w, w.deciding.view, response) then None
      else
        var disputed := if claimed < w.deciding.view.amount then claimed else w.deciding.view.amount;
        var b := BoundProposal(outcome, proposed, disputed);
        var kept := if proposed < 0 then 0 else proposed;
        Some(w.(deciding :=
          Asked(Verdict(c.receipt, c.claim, response, b.outcome, b.refund, disputed, kept, b.adjusted, rest))))
    case Archive =>
      if !w.deciding.Asked? then None
      else Some(w.(archive := w.archive + [w.deciding.verdict], deciding := Archived(w.deciding.verdict)))
    case Publish =>
      if !w.deciding.Archived? then None else Some(w.(current := Some(w.deciding.verdict), deciding := Idle))
    case Tear => // stopped while it writes `verdict.json`, which then holds no verdict
      if !w.deciding.Archived? then None else Some(w.(current := None, deciding := Idle))
    case Crash => Some(w.(deciding := Idle))
    case _ => None
  }

  /** One step of the whole; none when it cannot happen. The arbiter's key resolves this order only through `execute`. An
      `execute` that stops takes no more steps. */
  ghost function Next(c: Case, w: World, e: Event): Option<World>
    requires Alive(c, w)
  {
    match e
    case Tick(clock) =>
      if w.clock <= clock && SecondsAt(clock) <= U64_MAX then Some(w.(clock := clock)) else None
    case Ledger(signers, receivers, call) =>
      if call.Resolve? && call.order == c.order then None
      else Some(w.(chain := After(w.chain, EnvAt(w.clock, signers, receivers), call)))
    case Load(confirm) =>
      if w.current.None? || w.current.value.receiptHash != c.receipt || confirm != c.hashOf(w.current.value) then None
      else Some(w.(executions := w.executions + [Execution(w.current.value, confirm, Loaded)]))
    case List(i, _) => if i < |w.executions| then Advance(c, w, i, e) else None
    case Look(i) => if i < |w.executions| then Advance(c, w, i, e) else None
    case Confirm(i) => if i < |w.executions| then Advance(c, w, i, e) else None
    case Land(i, _, _) => if i < |w.executions| then Advance(c, w, i, e) else None
    case _ => Decide(c, w, e)
  }

  /** Where a list of steps leads; none when one of them cannot happen. */
  ghost function Follow(c: Case, w: World, es: seq<Event>): Option<World>
    decreases |es|
  {
    if es == [] then Some(w)
    else if !Alive(c, w) || Next(c, w, es[0]).None? then None
    else Follow(c, Next(c, w, es[0]).value, es[1..])
  }

  /** The verdict is of the answer on chain, if there is one. */
  predicate Heard(p: Purchase, verdict: Verdict) {
    p.responseHash.None? || verdict.responseHash == p.responseHash
  }

  function VerdictMatches(view: View, verdict: Verdict, localHash: Hash): bool {
    var heard := view.responseHash.None? || verdict.responseHash == view.responseHash;
    heard && view.verdictHash == Some(localHash) && verdict.refund == view.refund && Some(verdict.claimHash) == view.claimHash
  }

  // ---------------------------------------------------------------- when a step can happen

  /** The purchase is in a dispute over this claim. */
  predicate DisputedOver(p: Purchase, claim: Hash) {
    InDispute(p) && p.openedAt > 0 && p.claimHash == Some(claim)
  }

  /** Milliseconds of a deadline so many seconds after the opening that was read. */
  function Deadline(view: View, seconds: nat): nat {
    (OrZero(view.openedAt) + seconds) * 1000
  }

  /** When each step of `decide` goes through: the dispute is over this claim; the arbiter's window is open; and there is
      the answer on chain in hand, or one at all, or the store's deadline has come. */
  lemma {:induction false} DecidePossibleWhen(
      c: Case, w: World, outcome: Outcome, proposed: int, claimed: nat, response: Option<Hash>, rest: string)
    requires Alive(c, w)
    ensures Next(c, w, ReadDispute).Some? <==> w.deciding.Idle? && DisputedOver(w.chain.purchases[c.order], c.claim)
    ensures Next(c, w, CheckWindow).Some?
      <==> && w.deciding.Reading?
           && w.clock < Deadline(w.deciding.view, w.chain.config.responseWindow + w.chain.config.resolveWindow)
    ensures Next(c, w, Ask(outcome, proposed, claimed, response, rest)).Some?
      <==> && w.deciding.InTime? && w.deciding.view.amount >= 0
           && (w.deciding.view.responseHash.Some? ==> response == w.deciding.view.responseHash)
           && (response.Some? || w.clock >= Deadline(w.deciding.view, w.chain.config.responseWindow))
    ensures Next(c, w, Archive).Some? <==> w.deciding.Asked?
    ensures Next(c, w, Publish).Some? <==> w.deciding.Archived?
  {
  }

  /** When each step of an `execute` goes through: the published verdict is this receipt's and the one confirmed; the
      dispute is over its claim and its answer is the one on chain; and the store's deadline has passed without an answer,
      or there is one, before the arbiter's last second. */
  lemma {:induction false} ExecutePossibleWhen(c: Case, w: World, confirm: Hash, i: nat)
    requires Alive(c, w)
    ensures Next(c, w, Load(confirm)).Some?
      <==> && w.current.Some? && w.current.value.receiptHash == c.receipt && confirm == c.hashOf(w.current.value)
    ensures Next(c, w, Look(i)).Some?
      <==> && i < |w.executions| && w.executions[i].stage.Listed?
           && DisputedOver(w.chain.purchases[c.order], w.executions[i].verdict.claimHash)
           && Heard(w.chain.purchases[c.order], w.executions[i].verdict)
    ensures Next(c, w, Confirm(i)).Some?
      <==> && i < |w.executions| && w.executions[i].stage.Viewed?
           && var view, config := w.executions[i].stage.view, w.chain.config;
              && (view.responseHash.Some? || w.clock >= Deadline(view, config.responseWindow + 1))
              && w.clock < Deadline(view, config.responseWindow + config.resolveWindow)
  {
  }

  /** The archive only grows, by the verdict asked for; `verdict.json` changes when it is published, and when `decide`
      stops while it writes it, which leaves no verdict there. */
  lemma {:induction false} OnlyDecideWrites(c: Case, w: World, e: Event, v: World)
    requires Alive(c, w) && Next(c, w, e) == Some(v)
    ensures e.Archive? ==> w.deciding.Asked? && v.archive == w.archive + [w.deciding.verdict] && v.deciding == Archived(w.deciding.verdict)
    ensures !e.Archive? ==> v.archive == w.archive
    ensures e.Publish? ==> w.deciding.Archived? && v.current == Some(w.deciding.verdict)
    ensures e.Tear? ==> w.deciding.Archived? && v.current == None
    ensures !e.Publish? && !e.Tear? ==> v.current == w.current
    ensures e.Publish? || e.Tear? || e.Crash? ==> v.deciding == Idle
  {
  }

  /** `verify` passes on what it read of the escrow exactly when all of it is the archived verdict's. */
  lemma {:induction false} VerifyComparesAll(p: Purchase, verdict: Verdict, localHash: Hash)
    ensures VerdictMatches(FromEscrow(p), verdict, localHash)
      <==> && Heard(p, verdict)
           && (p.claimHash, p.verdictHash, p.refund) == (Some(verdict.claimHash), Some(localHash), verdict.refund)
  {
  }

  // ---------------------------------------------------------------- what every step keeps

  predicate NoCollisions(c: Case, archive: seq<Verdict>) {
    forall i, j | 0 <= i < |archive| && 0 <= j < |archive| ::
      c.hashOf(archive[i]) == c.hashOf(archive[j]) ==> archive[i] == archive[j]
  }

  predicate FromArchive(c: Case, w: World, x: Execution) {
    x.verdict in w.archive && x.hash == c.hashOf(x.verdict)
  }

  /** The verdict's name sorted last when the folder was listed, if it could be. */
  predicate WasLast(c: Case, w: World, x: Execution) {
    !x.stage.Loaded? && x.stage.seen.Some? ==>
      && 0 < x.stage.seen.value <= |w.archive|
      && (NoCollisions(c, w.archive) ==> x.verdict == w.archive[LastNumber(x.stage.seen.value) - 1])
  }

  predicate HasView(x: Execution) {
    x.stage.Viewed? || x.stage.Submitted? || x.stage.Finished?
  }

  /** The second can come after the store's deadline and before the arbiter's last. */
  predicate LeavesTime(config: Config, p: Purchase) {
    config.resolveWindow >= 2 && p.openedAt + config.responseWindow < U64_MAX
  }

  /** Of what was read of the escrow: the claim stays, an answer stays and was heard, and none read past the store's
      deadline means none ever. */
  predicate ViewStands(c: Case, w: World, x: Execution)
    requires c.order in w.chain.purchases
  {
    var p := w.chain.purchases[c.order];
    HasView(x) ==>
      var view := x.stage.view;
      && x.stage.readAt <= w.clock
      && p.claimHash == Some(x.verdict.claimHash) && OrZero(view.openedAt) == p.openedAt
      && (view.responseHash.Some? ==> p.responseHash == view.responseHash == x.verdict.responseHash)
      && (view.responseHash.None? && SecondsAt(x.stage.readAt) > AnswerBy(w.chain.config, p) ==> p.responseHash.None?)
      && (view.responseHash.None? && !x.stage.Viewed? ==>
            SecondsAt(w.clock) > AnswerBy(w.chain.config, p) && LeavesTime(w.chain.config, p))
  }

  predicate Good(c: Case, w: World, x: Execution)
    requires c.order in w.chain.purchases
  {
    FromArchive(c, w, x) && WasLast(c, w, x) && ViewStands(c, w, x)
  }

  /** A paid verdict is the one the purchase was closed with, in its window. */
  predicate Settled(c: Case, w: World, x: Execution)
    requires c.order in w.chain.purchases
  {
    var p := w.chain.purchases[c.order];
    && x.stage.Finished? && p.status == Resolved && p.verdictHash == Some(x.hash) && p.refund == x.verdict.refund
    && (p.responseHash.None? ==> p.closedAt > AnswerBy(w.chain.config, p))
    && p.closedAt <= ResolveDeadline(w.chain.config, p)
  }

  predicate Archivable(c: Case, w: World, verdict: Verdict)
    requires c.order in w.chain.purchases
  {
    verdict.receiptHash == c.receipt && verdict.claimHash == c.claim && verdict.refund <= w.chain.purchases[c.order].amount
  }

  predicate DecidingStands(c: Case, w: World)
    requires c.order in w.chain.purchases
  {
    match w.deciding
    case Idle => true
    case Reading(view) => view.amount == w.chain.purchases[c.order].amount
    case InTime(view) => view.amount == w.chain.purchases[c.order].amount
    case Asked(verdict) => Archivable(c, w, verdict)
    case Archived(verdict) => w.archive != [] && w.archive[|w.archive| - 1] == verdict
  }

  ghost predicate Invariant(c: Case, w: World) {
    && (forall verdict :: |c.hashOf(verdict)| == HASH_LENGTH)
    && Sound(w.chain) && Alive(c, w)
    && (forall i | 0 <= i < |w.archive| :: Archivable(c, w, w.archive[i]))
    && (w.current.Some? ==> w.current.value in w.archive)
    && DecidingStands(c, w)
    && (forall i | 0 <= i < |w.executions| :: Good(c, w, w.executions[i]))
    && (w.paid.Some? ==> w.paid.value < |w.executions| && Settled(c, w, w.executions[w.paid.value]))
    && (w.chain.purchases[c.order].status == Resolved ==> w.paid.Some?)
  }

  /** No call but the arbiter's own resolves a purchase. */
  lemma {:induction false} OthersDoNotResolve(s: State, env: Env, call: Call, order: Order)
    requires Sound(s) && order in s.purchases && s.purchases[order].status != Resolved
    requires !(call.Resolve? && call.order == order)
    ensures order in After(s, env, call).purchases && After(s, env, call).purchases[order].status != Resolved
  {
    hide Close;
    StepMoves(s, env, call, order);
    if Apply(s, env, call).Ok? && (call.Release? || call.Expire? || call.Resolve?) {
      assert Filed(s, call.order);
      AllocationCovers(s, call.order);
      var p := s.purchases[call.order];
      match call {
        case Release(_) => CloseEffect(s, env, p, Released, 0);
        case Expire(_) => CloseEffect(s, env, p, Expired, p.amount);
        case Resolve(_, verdict, refund) => CloseEffect(s, env, p.(verdictHash := Some(verdict)), Resolved, refund);
      }
    } else if Apply(s, env, call).Ok? && !call.Deposit? && !call.Hold? {
      assert Filed(s, call.order);
    }
  }

  /** A purchase gains an answer only while its window is open. */
  lemma {:induction false} AnswersComeInTime(s: State, env: Env, call: Call, order: Order)
    requires Sound(s) && order in s.purchases && s.purchases[order].claimHash.Some?
    requires s.purchases[order].responseHash.None? && env.now > AnswerBy(s.config, s.purchases[order])
    ensures var t := After(s, env, call);
            order in t.purchases && t.purchases[order].responseHash.None?
            && AnswerBy(t.config, t.purchases[order]) == AnswerBy(s.config, s.purchases[order])
  {
    hide Close;
    StepMoves(s, env, call, order);
    ConfigStays(s, env, call);
    assert Filed(s, order);
    if Apply(s, env, call).Ok? && (call.Release? || call.Expire? || call.Resolve?) {
      assert Filed(s, call.order);
      AllocationCovers(s, call.order);
      var p := s.purchases[call.order];
      match call {
        case Release(_) => CloseEffect(s, env, p, Released, 0);
        case Expire(_) => CloseEffect(s, env, p, Expired, p.amount);
        case Resolve(_, verdict, refund) => CloseEffect(s, env, p.(verdictHash := Some(verdict)), Resolved, refund);
      }
    } else if Apply(s, env, call).Ok? && !call.Deposit? && !call.Hold? {
      assert Filed(s, call.order);
    }
  }

  /** Any call on the ledger, the arbiter's included, leaves what every `execute` knows true. */
  lemma {:induction false} CallKeepsGood(c: Case, w: World, env: Env, call: Call, x: Execution)
    requires Sound(w.chain) && Alive(c, w) && env.now == SecondsAt(w.clock) && Good(c, w, x)
    ensures c.order in After(w.chain, env, call).purchases && Good(c, w.(chain := After(w.chain, env, call)), x)
  {
    StepMoves(w.chain, env, call, c.order);
    ConfigStays(w.chain, env, call);
    var p := w.chain.purchases[c.order];
    if HasView(x) && p.responseHash.None? && env.now > AnswerBy(w.chain.config, p) {
      AnswersComeInTime(w.chain, env, call, c.order);
    }
  }

  lemma {:induction false} LedgerKeeps(c: Case, w: World, env: Env, call: Call)
    requires Invariant(c, w) && env.now == SecondsAt(w.clock) && !(call.Resolve? && call.order == c.order)
    ensures Invariant(c, w.(chain := After(w.chain, env, call)))
  {
    var s := w.chain;
    var v := w.(chain := After(s, env, call));
    StepIsSound(s, env, call);
    StepMoves(s, env, call, c.order);
    ConfigStays(s, env, call);
    assert Filed(s, c.order);
    if s.purchases[c.order].status != Resolved {
      OthersDoNotResolve(s, env, call, c.order);
    }
    forall i | 0 <= i < |v.executions| ensures Good(c, v, v.executions[i]) {
      CallKeepsGood(c, w, env, call, w.executions[i]);
    }
  }

  lemma {:induction false} TickKeeps(c: Case, w: World, clock: nat)
    requires Invariant(c, w) && w.clock <= clock && SecondsAt(clock) <= U64_MAX
    ensures Invariant(c, w.(clock := clock))
  {
    var v := w.(clock := clock);
    forall i | 0 <= i < |v.executions| ensures Good(c, v, v.executions[i]) {
      assert Good(c, w, w.executions[i]);
    }
  }

  lemma {:induction false} HashesHaveLength(c: Case, archive: seq<Verdict>)
    requires forall verdict :: |c.hashOf(verdict)| == HASH_LENGTH
    ensures forall i | 0 <= i < |archive| :: |HashesOf(c, archive)[i]| == HASH_LENGTH
  {
  }

  /** What passes the folder's test is the verdict whose name sorts last, or anything when the folder cannot be read. */
  lemma {:induction false} ListedIsLast(c: Case, w: World, x: Execution, read: bool)
    requires Invariant(c, w) && FromArchive(c, w, x)
    ensures LatestCarries(Listing(c, w, read), x.hash)
      <==> !read || x.hash == c.hashOf(w.archive[LastNumber(|w.archive|) - 1])
    ensures LatestCarries(Listing(c, w, read), x.hash) ==>
              WasLast(c, w, x.(stage := Listed(if read then Some(|w.archive|) else None)))
  {
    HashesHaveLength(c, w.archive);
    var i :| 0 <= i < |w.archive| && w.archive[i] == x.verdict;
    LatestCarriesWhen(HashesOf(c, w.archive), x.hash);
    var k := LastNumber(|w.archive|) - 1;
    assert HashesOf(c, w.archive)[k] == c.hashOf(w.archive[k]);
  }

  /** Moving one `execute` on keeps the invariant when what it now knows is true. */
  lemma {:induction false} StagedKeeps(c: Case, w: World, i: nat, stage: Stage)
    requires Invariant(c, w) && i < |w.executions| && !w.executions[i].stage.Finished?
    requires Good(c, w, w.executions[i].(stage := stage))
    ensures Invariant(c, Staged(w, i, stage))
  {
    var v := Staged(w, i, stage);
    forall j | 0 <= j < |v.executions| ensures Good(c, v, v.executions[j]) {
      assert Good(c, w, w.executions[j]);
    }
  }

  lemma {:induction false} ListKeeps(c: Case, w: World, i: nat, e: Event)
    requires Invariant(c, w) && i < |w.executions| && e.List? && Advance(c, w, i, e).Some?
    ensures Invariant(c, Advance(c, w, i, e).value)
  {
    assert Good(c, w, w.executions[i]);
    ListedIsLast(c, w, w.executions[i], e.read);
    StagedKeeps(c, w, i, Listed(if e.read then Some(|w.archive|) else None));
  }

  lemma {:induction false} LookKeeps(c: Case, w: World, i: nat, e: Event)
    requires Invariant(c, w) && i < |w.executions| && e.Look? && Advance(c, w, i, e).Some?
    ensures Invariant(c, Advance(c, w, i, e).value)
  {
    assert Good(c, w, w.executions[i]);
    StagedKeeps(c, w, i, Viewed(w.executions[i].stage.seen, ViewOf(c, w), w.clock));
  }

  lemma {:induction false} ConfirmKeeps(c: Case, w: World, i: nat, e: Event)
    requires Invariant(c, w) && i < |w.executions| && e.Confirm? && Advance(c, w, i, e).Some?
    ensures Invariant(c, Advance(c, w, i, e).value)
  {
    var stage := w.executions[i].stage;
    assert Good(c, w, w.executions[i]);
    StagedKeeps(c, w, i, Submitted(stage.seen, stage.view, stage.readAt));
  }

  /** What landing does: the purchase closes with exactly the confirmed verdict. */
  lemma {:induction false} LandCloses(s: State, env: Env, order: Order, hash: Hash, refund: int)
    requires Sound(s) && order in s.purchases && DoResolve(s, env, order, hash, refund).Ok?
    ensures var t, p := DoResolve(s, env, order, hash, refund).value, s.purchases[order];
            && order in t.purchases && t.config == s.config
            && t.purchases[order] == ClosedAs(p.(verdictHash := Some(hash)), env, Resolved, refund)
            && (p.responseHash.None? ==> env.now > AnswerBy(s.config, p)) && env.now <= ResolveDeadline(s.config, p)
            && InDispute(p)
  {
    hide Close;
    assert Filed(s, order);
    AllocationCovers(s, order);
    var p := s.purchases[order];
    ResolveSucceedsWhen(s, env, order, hash, refund);
    CloseEffect(s, env, p.(verdictHash := Some(hash)), Resolved, refund);
  }

  /** The escrow takes an `execute`: the purchase is settled by it, and every other one still knows what is true. */
  lemma {:induction false} TakenKeeps(c: Case, w: World, i: nat, env: Env)
    requires Invariant(c, w) && i < |w.executions| && w.executions[i].stage.Finished? && env.now == SecondsAt(w.clock)
    requires w.paid.None?
    requires DoResolve(w.chain, env, c.order, w.executions[i].hash, w.executions[i].verdict.refund).Ok?
    ensures var chain := DoResolve(w.chain, env, c.order, w.executions[i].hash, w.executions[i].verdict.refund).value;
            Invariant(c, w.(chain := chain, paid := Some(i)))
  {
    var x := w.executions[i];
    var call := Resolve(c.order, x.hash, x.verdict.refund);
    var chain := DoResolve(w.chain, env, c.order, x.hash, x.verdict.refund).value;
    assert Apply(w.chain, env, call) == DoResolve(w.chain, env, c.order, x.hash, x.verdict.refund);
    assert After(w.chain, env, call) == chain;
    StepIsSound(w.chain, env, call);
    LandCloses(w.chain, env, c.order, x.hash, x.verdict.refund);
    var v := w.(chain := chain, paid := Some(i));
    forall j | 0 <= j < |v.executions| ensures Good(c, v, v.executions[j]) {
      CallKeepsGood(c, w, env, call, w.executions[j]);
      assert Good(c, w.(chain := chain), w.executions[j]);
    }
    assert Settled(c, v, x);
    assert forall verdict :: Archivable(c, w, verdict) ==> Archivable(c, v, verdict);
  }

  /** The escrow takes one verdict only. */
  lemma {:induction false} TakenIsFirst(c: Case, w: World, env: Env, hash: Hash, refund: int)
    requires Invariant(c, w) && DoResolve(w.chain, env, c.order, hash, refund).Ok?
    ensures w.paid.None?
  {
    LandCloses(w.chain, env, c.order, hash, refund);
  }

  lemma {:induction false} FinishKeeps(c: Case, w: World, i: nat)
    requires Invariant(c, w) && i < |w.executions| && w.executions[i].stage.Submitted?
    ensures var stage := w.executions[i].stage; Invariant(c, Staged(w, i, Finished(stage.seen, stage.view, stage.readAt)))
  {
    var stage := w.executions[i].stage;
    assert Good(c, w, w.executions[i]);
    StagedKeeps(c, w, i, Finished(stage.seen, stage.view, stage.readAt));
  }

  lemma {:induction false} AnswerKeeps(c: Case, w: World, i: nat, env: Env, answer: Result<State, Error>)
    requires Invariant(c, w) && i < |w.executions| && w.executions[i].stage.Submitted? && env.now == SecondsAt(w.clock)
    requires answer == DoResolve(w.chain, env, c.order, w.executions[i].hash, w.executions[i].verdict.refund)
    ensures Invariant(c, AfterLanding(w, i, answer))
  {
    FinishKeeps(c, w, i);
    if answer.Ok? {
      TakenIsFirst(c, w, env, w.executions[i].hash, w.executions[i].verdict.refund);
      TakenKeeps(c, AfterLanding(w, i, Err(Unauthorised)), i, env);
    }
  }

  lemma {:induction false} LandKeeps(c: Case, w: World, i: nat, signers: set<Address>, receivers: set<Address>)
    requires Invariant(c, w) && i < |w.executions| && w.executions[i].stage.Submitted?
    ensures Invariant(c, Advance(c, w, i, Land(i, signers, receivers)).value)
  {
    var x, env := w.executions[i], EnvAt(w.clock, signers, receivers);
    AnswerKeeps(c, w, i, env, Apply(w.chain, env, Resolve(c.order, x.hash, x.verdict.refund)));
  }

  lemma {:induction false} ArchiveKeeps(c: Case, w: World)
    requires Invariant(c, w) && w.deciding.Asked?
    ensures Invariant(c, Decide(c, w, Archive).value)
  {
    var v := Decide(c, w, Archive).value;
    assert forall i | 0 <= i < |w.archive| :: v.archive[i] == w.archive[i];
    if NoCollisions(c, v.archive) {
      forall i, j | 0 <= i < |w.archive| && 0 <= j < |w.archive|
        ensures c.hashOf(w.archive[i]) == c.hashOf(w.archive[j]) ==> w.archive[i] == w.archive[j]
      {
        assert v.archive[i] == w.archive[i] && v.archive[j] == w.archive[j];
      }
    }
    forall i | 0 <= i < |v.executions| ensures Good(c, v, v.executions[i]) {
      assert Good(c, w, w.executions[i]);
    }
  }

  lemma {:induction false} LoadKeeps(c: Case, w: World, confirm: Hash)
    requires Invariant(c, w) && Next(c, w, Load(confirm)).Some?
    ensures Invariant(c, Next(c, w, Load(confirm)).value)
  {
    var v := Next(c, w, Load(confirm)).value;
    forall i | 0 <= i < |v.executions| ensures Good(c, v, v.executions[i]) {
      if i < |w.executions| {
        assert Good(c, w, w.executions[i]);
      }
    }
  }

  /** Every step of `decide` keeps the invariant. */
  lemma {:induction false} DecideKeeps(c: Case, w: World, e: Event)
    requires Invariant(c, w) && Decide(c, w, e).Some?
    ensures Invariant(c, Decide(c, w, e).value)
  {
    if e.Archive? {
      ArchiveKeeps(c, w);
    } else {
      var v := Decide(c, w, e).value;
      forall i | 0 <= i < |v.executions| ensures Good(c, v, v.executions[i]) {
        assert Good(c, w, w.executions[i]);
      }
    }
  }

  /** Every step of the whole keeps the invariant. */
  lemma {:induction false} StepKeeps(c: Case, w: World, e: Event, v: World)
    requires Invariant(c, w) && Next(c, w, e) == Some(v)
    ensures Invariant(c, v)
  {
    match e {
      case Tick(clock) => TickKeeps(c, w, clock);
      case Ledger(signers, receivers, call) => LedgerKeeps(c, w, EnvAt(w.clock, signers, receivers), call);
      case Load(confirm) => LoadKeeps(c, w, confirm);
      case List(i, _) => ListKeeps(c, w, i, e);
      case Look(i) => LookKeeps(c, w, i, e);
      case Confirm(i) => ConfirmKeeps(c, w, i, e);
      case Land(i, signers, receivers) => LandKeeps(c, w, i, signers, receivers);
      case _ => DecideKeeps(c, w, e);
    }
  }

  // ---------------------------------------------------------------- every interleaving

  /** Nothing decided yet, over any reachable escrow that has not resolved this order. */
  ghost predicate Start(c: Case, w: World) {
    && (forall verdict :: |c.hashOf(verdict)| == HASH_LENGTH)
    && Sound(w.chain) && Alive(c, w) && w.chain.purchases[c.order].status != Resolved
    && w.archive == [] && w.current.None? && w.deciding.Idle? && w.executions == [] && w.paid.None?
  }

  lemma {:induction false} FollowKeeps(c: Case, w: World, es: seq<Event>)
    requires Invariant(c, w) && Follow(c, w, es).Some?
    ensures Invariant(c, Follow(c, w, es).value)
    decreases |es|
  {
    if es != [] {
      var v := Next(c, w, es[0]).value;
      StepKeeps(c, w, es[0], v);
      FollowKeeps(c, v, es[1..]);
    }
  }

  /** In every interleaving. */
  lemma {:induction false} RunKeeps(c: Case, w: World, es: seq<Event>)
    requires Start(c, w) && Follow(c, w, es).Some?
    ensures Invariant(c, Follow(c, w, es).value)
  {
    FollowKeeps(c, w, es);
  }

  // ---------------------------------------------------------------- where a verdict comes from

  /** The lesser of what was claimed and what was paid. */
  predicate IsLesser(most: nat, claimed: nat, amount: int) {
    (most == claimed || most == amount) && most <= claimed && most <= amount
  }

  /** A verdict says what was proposed, bounded by the lesser of the claim and the purchase, and whether that changed it. */
  predicate FollowsProposal(verdict: Verdict, outcome: Outcome, proposed: int, claimed: nat, amount: int) {
    && IsLesser(verdict.disputed, claimed, amount)
    && (outcome.Rejected? ==> verdict.outcome.Rejected? && verdict.refund == 0)
    && (outcome.RefundFull? ==> verdict.outcome.RefundFull? && verdict.refund == verdict.disputed)
    && (outcome.RefundPartial? && proposed <= 0 ==> verdict.outcome.Rejected? && verdict.refund == 0)
    && (outcome.RefundPartial? && 0 < proposed < verdict.disputed ==>
          verdict.outcome.RefundPartial? && verdict.refund == proposed)
    && (outcome.RefundPartial? && 0 < proposed && verdict.disputed <= proposed ==> verdict.refund == verdict.disputed)
    && (verdict.proposed == proposed || (proposed < 0 && verdict.proposed == 0))
    && (verdict.adjusted <==> verdict.outcome != outcome || verdict.refund != proposed)
  }

  ghost function WorldAt(c: Case, start: World, es: seq<Event>, n: nat): Option<World>
    requires n <= |es|
  {
    Follow(c, start, es[..n])
  }

  ghost predicate AliveAt(c: Case, start: World, es: seq<Event>, n: nat) {
    n < |es| && WorldAt(c, start, es, n).Some? && Alive(c, WorldAt(c, start, es, n).value)
  }

  /** The dispute was read at step `i`, open for this claim. */
  ghost predicate ReadAt(c: Case, start: World, es: seq<Event>, i: nat, view: View) {
    && AliveAt(c, start, es, i) && es[i] == ReadDispute
    && view == ViewOf(c, WorldAt(c, start, es, i).value) && AssertOpenFor(Some(view), c.claim).Pass?
  }

  /** Then the window was found open at step `k`. */
  ghost predicate CheckedAt(c: Case, start: World, es: seq<Event>, i: nat, k: nat, view: View) {
    ReadAt(c, start, es, i, view) && i < k && AliveAt(c, start, es, k) && es[k] == CheckWindow
    && InWindow(WorldAt(c, start, es, k).value, view)
  }

  /** The verdict was asked for at step `j`, of the dispute read at `i` and found in its window at `k`: it says what was
      proposed, of the answer the chain showed at `i`, or of none only once the answer was due. */
  ghost predicate AskedAt(c: Case, start: World, es: seq<Event>, i: nat, k: nat, j: nat, verdict: Verdict) {
    && i < k < j && AliveAt(c, start, es, i) && AliveAt(c, start, es, k) && AliveAt(c, start, es, j)
    && es[i] == ReadDispute && es[k] == CheckWindow && es[j].Ask?
    && var seen := WorldAt(c, start, es, i).value.chain;
       var p, e, due := seen.purchases[c.order], es[j], seen.purchases[c.order].openedAt + seen.config.responseWindow;
       && InDispute(p) && p.claimHash == Some(c.claim)
       && WorldAt(c, start, es, k).value.clock < (due + seen.config.resolveWindow) * 1000
       && verdict.receiptHash == c.receipt && verdict.claimHash == c.claim
       && FollowsProposal(verdict, e.outcome, e.proposed, e.claimed, p.amount)
       && verdict.responseHash == e.response && verdict.rest == e.rest
       && (p.responseHash.Some? ==> verdict.responseHash == p.responseHash)
       && (verdict.responseHash.None? ==> WorldAt(c, start, es, j).value.clock >= due * 1000)
  }

  ghost predicate WasAsked(c: Case, start: World, es: seq<Event>, verdict: Verdict) {
    exists i, k, j :: AskedAt(c, start, es, i, k, j, verdict)
  }

  lemma {:induction false} SameWorldAt(c: Case, start: World, es: seq<Event>, e: Event, n: nat)
    requires n <= |es|
    ensures WorldAt(c, start, es + [e], n) == WorldAt(c, start, es, n)
  {
    assert (es + [e])[..n] == es[..n];
  }

  lemma {:induction false} StillChecked(c: Case, start: World, es: seq<Event>, e: Event, i: nat, k: nat, view: View)
    ensures ReadAt(c, start, es, i, view) ==> ReadAt(c, start, es + [e], i, view)
    ensures CheckedAt(c, start, es, i, k, view) ==> CheckedAt(c, start, es + [e], i, k, view)
  {
    if i < |es| {
      SameWorldAt(c, start, es, e, i);
    }
    if k < |es| {
      SameWorldAt(c, start, es, e, k);
    }
  }

  lemma {:induction false} StillAsked(c: Case, start: World, es: seq<Event>, e: Event, verdict: Verdict)
    requires WasAsked(c, start, es, verdict)
    ensures WasAsked(c, start, es + [e], verdict)
  {
    var i, k, j :| AskedAt(c, start, es, i, k, j, verdict);
    SameWorldAt(c, start, es, e, i);
    SameWorldAt(c, start, es, e, k);
    SameWorldAt(c, start, es, e, j);
    assert AskedAt(c, start, es + [e], i, k, j, verdict);
  }

  /** What `decide` has in hand comes from the run. */
  ghost predicate DecidingIsOf(c: Case, start: World, es: seq<Event>, deciding: Deciding) {
    match deciding
    case Idle => true
    case Reading(view) => exists i :: ReadAt(c, start, es, i, view)
    case InTime(view) => exists i, k :: CheckedAt(c, start, es, i, k, view)
    case Asked(verdict) => WasAsked(c, start, es, verdict)
    case Archived(_) => true
  }

  lemma {:induction false} SameConfigAt(c: Case, start: World, es: seq<Event>, n: nat)
    requires Start(c, start) && n <= |es| && WorldAt(c, start, es, n).Some?
    ensures WorldAt(c, start, es, n).value.chain.config == start.chain.config
  {
    StartKeepsConfig(c, start, es[..n]);
  }

  lemma {:induction false} StartKeepsConfig(c: Case, w: World, es: seq<Event>)
    requires Invariant(c, w) && Follow(c, w, es).Some?
    ensures Follow(c, w, es).value.chain.config == w.chain.config
    decreases |es|
  {
    if es != [] {
      var e, v := es[0], Next(c, w, es[0]).value;
      StepKeeps(c, w, e, v);
      ChainMoves(c, w, e, v);
      if e.Ledger? {
        ConfigStays(w.chain, EnvAt(w.clock, e.signers, e.receivers), e.call);
      } else if e.Land? {
        var x := w.executions[e.i];
        ConfigStays(w.chain, EnvAt(w.clock, e.signers, e.receivers), Resolve(c.order, x.hash, x.verdict.refund));
      }
      StartKeepsConfig(c, v, es[1..]);
    }
  }

  /** Asking, of a dispute read and checked before. */
  lemma {:induction false} AskIsGenuine(c: Case, start: World, es: seq<Event>, e: Event, i: nat, k: nat)
    requires Start(c, start) && Follow(c, start, es).Some? && e.Ask?
    requires var w := Follow(c, start, es).value;
             && Alive(c, w) && w.deciding.InTime? && CheckedAt(c, start, es, i, k, w.deciding.view)
             && Decide(c, w, e).Some?
    ensures var v := Decide(c, Follow(c, start, es).value, e).value;
            v.deciding.Asked? && AskedAt(c, start, es + [e], i, k, |es|, v.deciding.verdict)
  {
    var more, w := es + [e], Follow(c, start, es).value;
    SameWorldAt(c, start, es, e, i);
    SameWorldAt(c, start, es, e, k);
    SameConfigAt(c, start, es, i);
    SameConfigAt(c, start, es, k);
    assert more[..|es|] == es;
    SameConfigAt(c, start, more, |es|);
    assert more[i] == es[i] && more[k] == es[k];
  }

  lemma {:induction false} DecideIsOf(c: Case, start: World, es: seq<Event>, e: Event)
    requires Start(c, start) && Follow(c, start, es).Some?
    requires var w := Follow(c, start, es).value;
             Alive(c, w) && DecidingIsOf(c, start, es, w.deciding) && Decide(c, w, e).Some?
    ensures DecidingIsOf(c, start, es + [e], Decide(c, Follow(c, start, es).value, e).value.deciding)
  {
    var w, more := Follow(c, start, es).value, es + [e];
    assert more[..|es|] == es && more[|es|] == e;
    match e {
      case ReadDispute => assert ReadAt(c, start, more, |es|, ViewOf(c, w));
      case CheckWindow =>
        var i :| ReadAt(c, start, es, i, w.deciding.view);
        StillChecked(c, start, es, e, i, 0, w.deciding.view);
        assert CheckedAt(c, start, more, i, |es|, w.deciding.view);
      case Ask(_, _, _, _, _) =>
        var i, k :| CheckedAt(c, start, es, i, k, w.deciding.view);
        AskIsGenuine(c, start, es, e, i, k);
      case _ =>
    }
  }

  lemma {:induction false} OthersLeaveDeciding(c: Case, start: World, es: seq<Event>, e: Event, deciding: Deciding)
    requires DecidingIsOf(c, start, es, deciding)
    ensures DecidingIsOf(c, start, es + [e], deciding)
  {
    match deciding {
      case Reading(view) =>
        var i :| ReadAt(c, start, es, i, view);
        StillChecked(c, start, es, e, i, 0, view);
      case InTime(view) =>
        var i, k :| CheckedAt(c, start, es, i, k, view);
        StillChecked(c, start, es, e, i, k, view);
      case Asked(verdict) => StillAsked(c, start, es, e, verdict);
      case _ =>
    }
  }

  predicate IsDeciding(e: Event) {
    e.ReadDispute? || e.CheckWindow? || e.Ask? || e.Archive? || e.Publish? || e.Tear? || e.Crash?
  }

  lemma {:induction false} OnlyDecidingDecides(c: Case, w: World, e: Event)
    requires Alive(c, w) && Next(c, w, e).Some?
    ensures var v := Next(c, w, e).value;
            && (IsDeciding(e) ==> Next(c, w, e) == Decide(c, w, e))
            && (!IsDeciding(e) ==> v.deciding == w.deciding)
            && (!e.Archive? ==> v.archive == w.archive)
            && (e.Archive? ==> w.deciding.Asked? && v.archive == w.archive + [w.deciding.verdict])
  {
  }

  lemma {:induction false} LastWorld(c: Case, start: World, es: seq<Event>)
    requires Start(c, start) && es != [] && Follow(c, start, es).Some?
    ensures var before, last := es[..|es| - 1], es[|es| - 1];
            && Follow(c, start, before).Some? && Invariant(c, Follow(c, start, before).value)
            && Follow(c, start, es) == Next(c, Follow(c, start, before).value, last)
    decreases |es|
  {
    var before, last := es[..|es| - 1], es[|es| - 1];
    assert es == before + [last];
    FollowPart(c, start, before, [last]);
    FollowOn(c, start, before, [last]);
    RunKeeps(c, start, before);
    assert [last][1..] == [];
  }

  lemma {:induction false} FollowPart(c: Case, w: World, es: seq<Event>, more: seq<Event>)
    requires Follow(c, w, es + more).Some?
    ensures Follow(c, w, es).Some?
    decreases |es|
  {
    if es != [] {
      assert (es + more)[1..] == es[1..] + more;
      FollowPart(c, Next(c, w, es[0]).value, es[1..], more);
    }
  }

  /** Every verdict archived in a run was asked for in it. */
  lemma {:induction false} ArchivedWereAsked(c: Case, start: World, es: seq<Event>)
    requires Start(c, start) && Follow(c, start, es).Some?
    ensures var w := Follow(c, start, es).value;
            && DecidingIsOf(c, start, es, w.deciding)
            && forall n | 0 <= n < |w.archive| :: WasAsked(c, start, es, w.archive[n])
    decreases |es|
  {
    if es != [] {
      var before, last := es[..|es| - 1], es[|es| - 1];
      LastWorld(c, start, es);
      ArchivedWereAsked(c, start, before);
      var w, v := Follow(c, start, before).value, Follow(c, start, es).value;
      assert es == before + [last];
      OnlyDecidingDecides(c, w, last);
      if IsDeciding(last) {
        DecideIsOf(c, start, before, last);
      } else {
        OthersLeaveDeciding(c, start, before, last, w.deciding);
      }
      forall n | 0 <= n < |v.archive| ensures WasAsked(c, start, es, v.archive[n]) {
        StillAsked(c, start, before, last, v.archive[n]);
      }
    }
  }

  /** The escrow was read without an answer while one could still come. */
  predicate ReadTooEarly(config: Config, p: Purchase, stage: Stage)
    requires !stage.Loaded? && !stage.Listed?
  {
    stage.view.responseHash.None? && SecondsAt(stage.readAt) <= AnswerBy(config, p)
  }

  /** In every interleaving, whatever was paid is a confirmed verdict's refund, for this receipt and this claim, inside
      the arbiter's window. If the folder could be read, it was the verdict whose name sorted last then. It had heard the
      answer on chain unless the escrow was read too early, and the chain matches it exactly if it had. It was asked for in
      the run, and refunds what was proposed then, bounded by the lesser of the claim and the purchase. */
  lemma {:induction false} ExecutionIsSafe(c: Case, start: World, es: seq<Event>)
    requires Start(c, start) && Follow(c, start, es).Some?
    requires var w := Follow(c, start, es).value; w.paid.Some? && NoCollisions(c, w.archive)
    ensures var w := Follow(c, start, es).value;
            && Alive(c, w) && w.paid.value < |w.executions|
            && var p, x := w.chain.purchases[c.order], w.executions[w.paid.value];
               && x.stage.Finished? && x.verdict in w.archive
               && (x.stage.seen.Some? ==>
                     var seen := x.stage.seen.value;
                     && 0 < seen <= |w.archive| && x.verdict == w.archive[LastNumber(seen) - 1]
                     && (SortsLast(seen) ==> x.verdict == w.archive[seen - 1]))
               && x.verdict.receiptHash == c.receipt && x.verdict.claimHash == c.claim
               && WasAsked(c, start, es, x.verdict)
               && p.refund == x.verdict.refund <= p.amount
               && p.claimHash == Some(c.claim) && p.verdictHash == Some(c.hashOf(x.verdict))
               && (p.responseHash.None? ==> p.closedAt > AnswerBy(w.chain.config, p))
               && p.closedAt <= ResolveDeadline(w.chain.config, p)
               && (Heard(p, x.verdict) || ReadTooEarly(w.chain.config, p, x.stage))
               && (VerdictMatches(FromEscrow(p), x.verdict, c.hashOf(x.verdict)) <==> Heard(p, x.verdict))
  {
    hide Follow, WasAsked, IsLast, LatestCarries;
    RunKeeps(c, start, es);
    ArchivedWereAsked(c, start, es);
    var w := Follow(c, start, es).value;
    assert Good(c, w, w.executions[w.paid.value]);
    var n :| 0 <= n < |w.archive| && w.archive[n] == w.executions[w.paid.value].verdict;
  }

  /** Only a confirmed verdict resolves the dispute. */
  lemma {:induction false} OnlyExecuteResolves(c: Case, start: World, es: seq<Event>)
    requires Start(c, start) && Follow(c, start, es).Some?
    ensures var w := Follow(c, start, es).value;
            Alive(c, w) && (w.chain.purchases[c.order].status == Resolved <==> w.paid.Some?)
  {
    RunKeeps(c, start, es);
  }

  // ---------------------------------------------------------------- an answer that comes between the reads

  /** There is an answer, or none can come any more. */
  predicate AnswerIsFixed(c: Case, w: World)
    requires c.order in w.chain.purchases
  {
    var p := w.chain.purchases[c.order];
    p.claimHash.Some? && (p.responseHash.Some? || SecondsAt(w.clock) > AnswerBy(w.chain.config, p))
  }

  lemma {:induction false} CallKeepsAnswer(c: Case, w: World, env: Env, call: Call)
    requires Sound(w.chain) && Alive(c, w) && env.now == SecondsAt(w.clock) && AnswerIsFixed(c, w)
    ensures var s := After(w.chain, env, call);
            && c.order in s.purchases && AnswerIsFixed(c, w.(chain := s))
            && s.purchases[c.order].responseHash == w.chain.purchases[c.order].responseHash
  {
    StepMoves(w.chain, env, call, c.order);
    if w.chain.purchases[c.order].responseHash.None? {
      AnswersComeInTime(w.chain, env, call, c.order);
    }
  }

  /** The chain moves only by a call on the ledger, someone's or a landing's. */
  lemma {:induction false} ChainMoves(c: Case, w: World, e: Event, v: World)
    requires Alive(c, w) && Next(c, w, e) == Some(v)
    ensures !e.Ledger? && !e.Land? ==> v.chain == w.chain && w.clock <= v.clock
    ensures e.Ledger? ==>
              v.chain == After(w.chain, EnvAt(w.clock, e.signers, e.receivers), e.call) && v.clock == w.clock
    ensures e.Land? ==>
              && e.i < |w.executions| && v.clock == w.clock
              && var x := w.executions[e.i];
                 v.chain == After(w.chain, EnvAt(w.clock, e.signers, e.receivers), Resolve(c.order, x.hash, x.verdict.refund))
  {
  }

  lemma {:induction false} StepKeepsAnswer(c: Case, w: World, e: Event, v: World)
    requires Sound(w.chain) && Alive(c, w) && AnswerIsFixed(c, w) && Next(c, w, e) == Some(v)
    ensures c.order in v.chain.purchases && AnswerIsFixed(c, v)
    ensures v.chain.purchases[c.order].responseHash == w.chain.purchases[c.order].responseHash
  {
    ChainMoves(c, w, e, v);
    if e.Ledger? {
      CallKeepsAnswer(c, w, EnvAt(w.clock, e.signers, e.receivers), e.call);
    } else if e.Land? {
      var x := w.executions[e.i];
      CallKeepsAnswer(c, w, EnvAt(w.clock, e.signers, e.receivers), Resolve(c.order, x.hash, x.verdict.refund));
    }
  }

  /** Once there is an answer, or none can come, no continuation changes what the chain says of it. */
  lemma {:induction false} FixedAnswerStays(c: Case, w: World, es: seq<Event>)
    requires Invariant(c, w) && AnswerIsFixed(c, w) && Follow(c, w, es).Some?
    ensures var v := Follow(c, w, es).value;
            Alive(c, v) && v.chain.purchases[c.order].responseHash == w.chain.purchases[c.order].responseHash
    decreases |es|
  {
    if es != [] {
      var v := Next(c, w, es[0]).value;
      StepKeeps(c, w, es[0], v);
      StepKeepsAnswer(c, w, es[0], v);
      FixedAnswerStays(c, v, es[1..]);
    }
  }

  /** From the moment an `execute` has read the clock and sends, the answer on chain does not change, whatever happens. */
  lemma {:induction false} NoAnswerOnceSent(c: Case, w: World, i: nat, es: seq<Event>)
    requires Invariant(c, w) && i < |w.executions| && w.executions[i].stage.Submitted? && Follow(c, w, es).Some?
    ensures var v := Follow(c, w, es).value;
            Alive(c, v) && v.chain.purchases[c.order].responseHash == w.chain.purchases[c.order].responseHash
  {
    assert Good(c, w, w.executions[i]);
    FixedAnswerStays(c, w, es);
  }

  /** The `i`-th `execute` was paid for a verdict that had not heard the answer on chain. */
  predicate PaidUnheard(c: Case, w: World, i: nat) {
    w.paid == Some(i) && Alive(c, w) && i < |w.executions| && !Heard(w.chain.purchases[c.order], w.executions[i].verdict)
  }

  /** Whatever happens next, the `i`-th `execute` is not paid for a verdict that has not heard the answer. */
  ghost predicate SureToHear(c: Case, w: World, i: nat) {
    forall es :: Follow(c, w, es).Some? ==> !PaidUnheard(c, Follow(c, w, es).value, i)
  }

  /** What an `execute` has read stays what it was. */
  lemma {:induction false} ReadingStays(c: Case, w: World, es: seq<Event>, i: nat)
    requires Invariant(c, w) && i < |w.executions| && HasView(w.executions[i]) && Follow(c, w, es).Some?
    ensures var v := Follow(c, w, es).value;
            && i < |v.executions| && HasView(v.executions[i])
            && v.executions[i].stage.view == w.executions[i].stage.view
            && v.executions[i].stage.readAt == w.executions[i].stage.readAt
            && Alive(c, v) && v.chain.config == w.chain.config
            && v.chain.purchases[c.order].openedAt == w.chain.purchases[c.order].openedAt
    decreases |es|
  {
    if es != [] {
      var v := Next(c, w, es[0]).value;
      StepKeeps(c, w, es[0], v);
      assert Good(c, w, w.executions[i]);
      StepKeepsReading(c, w, es[0], v, i);
      ReadingStays(c, v, es[1..], i);
    }
  }

  lemma {:induction false} CallKeepsOpening(s: State, env: Env, call: Call, order: Order)
    requires Sound(s) && order in s.purchases && s.purchases[order].claimHash.Some?
    ensures var t := After(s, env, call);
            t.config == s.config && order in t.purchases && t.purchases[order].openedAt == s.purchases[order].openedAt
  {
    StepMoves(s, env, call, order);
    ConfigStays(s, env, call);
  }

  lemma {:induction false} StageKeepsReading(c: Case, w: World, e: Event, v: World, i: nat)
    requires Alive(c, w) && i < |w.executions| && HasView(w.executions[i]) && Next(c, w, e) == Some(v)
    ensures i < |v.executions| && HasView(v.executions[i])
    ensures v.executions[i].stage.view == w.executions[i].stage.view
    ensures v.executions[i].stage.readAt == w.executions[i].stage.readAt
  {
  }

  lemma {:induction false} StepKeepsReading(c: Case, w: World, e: Event, v: World, i: nat)
    requires Sound(w.chain) && Alive(c, w) && w.chain.purchases[c.order].claimHash.Some?
    requires i < |w.executions| && HasView(w.executions[i]) && Next(c, w, e) == Some(v)
    ensures i < |v.executions| && HasView(v.executions[i])
    ensures v.executions[i].stage.view == w.executions[i].stage.view
    ensures v.executions[i].stage.readAt == w.executions[i].stage.readAt
    ensures v.chain.config == w.chain.config && c.order in v.chain.purchases
    ensures v.chain.purchases[c.order].openedAt == w.chain.purchases[c.order].openedAt
  {
    StageKeepsReading(c, w, e, v, i);
    ChainMoves(c, w, e, v);
    if e.Ledger? {
      CallKeepsOpening(w.chain, EnvAt(w.clock, e.signers, e.receivers), e.call, c.order);
    } else if e.Land? {
      var x := w.executions[e.i];
      var call := Resolve(c.order, x.hash, x.verdict.refund);
      CallKeepsOpening(w.chain, EnvAt(w.clock, e.signers, e.receivers), call, c.order);
    }
  }

  lemma {:induction false} FollowStep(c: Case, w: World, e: Event, v: World, es: seq<Event>)
    requires Alive(c, w) && Next(c, w, e) == Some(v)
    ensures Follow(c, w, [e] + es) == Follow(c, v, es)
  {
    assert ([e] + es)[1..] == es;
  }

  lemma {:induction false} FollowOn(c: Case, w: World, es: seq<Event>, more: seq<Event>)
    requires Follow(c, w, es).Some?
    ensures Follow(c, w, es + more) == Follow(c, Follow(c, w, es).value, more)
    decreases |es|
  {
    if es == [] {
      assert es + more == more;
    } else {
      assert (es + more)[1..] == es[1..] + more;
      FollowOn(c, Next(c, w, es[0]).value, es[1..], more);
    }
  }

  /** An answer other than the one heard. */
  function OtherAnswer(heard: Option<Hash>): (r: Hash)
    ensures |r| == HASH_LENGTH && Some(r) != heard
  {
    var zeros, ones := seq(HASH_LENGTH, i => '0'), seq(HASH_LENGTH, i => '1');
    assert zeros[0] != ones[0];
    if heard == Some(zeros) then ones else zeros
  }

  /** The store's answer lands at the second the escrow was read. */
  lemma {:induction false} AnswerLands(c: Case, w: World, i: nat, response: Hash)
    requires Invariant(c, w) && i < |w.executions| && w.executions[i].stage.Viewed?
    requires var p := w.chain.purchases[c.order]; p.status == Disputed && SecondsAt(w.clock) <= AnswerBy(w.chain.config, p)
    ensures var e := Ledger({w.chain.config.payee}, {}, Respond(c.order, response));
            && Next(c, w, e).Some?
            && var v, p := Next(c, w, e).value, w.chain.purchases[c.order];
               && v == w.(chain := v.chain) && v.chain.config == w.chain.config && c.order in v.chain.purchases
               && v.chain.purchases[c.order] == p.(status := Responded, responseHash := Some(response))
  {
    assert Filed(w.chain, c.order);
  }

  /** An `execute` that read no answer confirms one second after the store's deadline. */
  lemma {:induction false} LateClockPasses(c: Case, w: World, i: nat)
    requires Invariant(c, w) && i < |w.executions| && w.executions[i].stage.Viewed?
    requires LeavesTime(w.chain.config, w.chain.purchases[c.order])
    requires SecondsAt(w.clock) == w.chain.purchases[c.order].openedAt + w.chain.config.responseWindow + 1
    ensures var stage := w.executions[i].stage;
            Next(c, w, Confirm(i)) == Some(Staged(w, i, Submitted(stage.seen, stage.view, stage.readAt)))
  {
    assert Good(c, w, w.executions[i]);
  }

  /** A confirmed verdict lands if the dispute is still open, its window has not closed and the store can be paid: its
      refund is always within the purchase. */
  lemma {:induction false} LandingSucceedsWhen(c: Case, w: World, i: nat, signers: set<Address>, receivers: set<Address>)
    requires Invariant(c, w) && i < |w.executions| && w.executions[i].stage.Submitted? && w.paid.None?
    ensures Next(c, w, Land(i, signers, receivers)).Some?
    ensures Next(c, w, Land(i, signers, receivers)).value.paid == Some(i)
      <==> var p := w.chain.purchases[c.order];
           && InDispute(p) && SecondsAt(w.clock) <= ResolveDeadline(w.chain.config, p)
           && w.chain.config.arbiter in signers
           && (w.executions[i].verdict.refund == p.amount || w.chain.config.payee in receivers)
    ensures Next(c, w, Land(i, signers, receivers)).value.paid == Some(i)
      || Next(c, w, Land(i, signers, receivers)).value.paid.None?
  {
    var x := w.executions[i];
    assert Good(c, w, x);
    var k :| 0 <= k < |w.archive| && w.archive[k] == x.verdict;
    assert Filed(w.chain, c.order);
    ResolveSucceedsWhen(w.chain, EnvAt(w.clock, signers, receivers), c.order, x.hash, x.verdict.refund);
  }

  /** The `execute` lands with everyone willing. */
  lemma {:induction false} Lands(c: Case, w: World, i: nat)
    requires Invariant(c, w) && i < |w.executions| && w.executions[i].stage.Submitted? && w.paid.None?
    requires var p := w.chain.purchases[c.order]; InDispute(p) && SecondsAt(w.clock) <= ResolveDeadline(w.chain.config, p)
    ensures var e := Land(i, {w.chain.config.arbiter}, {w.chain.config.payee});
            && Next(c, w, e).Some? && var v := Next(c, w, e).value;
               && v.paid == Some(i) && Alive(c, v) && |v.executions| == |w.executions| && v.archive == w.archive
               && v.executions[i].verdict == w.executions[i].verdict
               && v.chain.purchases[c.order].responseHash == w.chain.purchases[c.order].responseHash
  {
    var signers, receivers := {w.chain.config.arbiter}, {w.chain.config.payee};
    LandingSucceedsWhen(c, w, i, signers, receivers);
    var x := w.executions[i];
    LandCloses(w.chain, EnvAt(w.clock, signers, receivers), c.order, x.hash, x.verdict.refund);
  }

  /** The store's answer lands as the escrow is read, the clock passes its deadline, and the verdict is paid unheard. */
  lemma {:induction false} UnheardRun(c: Case, v: World, i: nat) returns (es: seq<Event>)
    requires Invariant(c, v) && i < |v.executions| && v.executions[i].stage.Viewed? && v.paid.None?
    requires var p := v.chain.purchases[c.order];
             p.status == Disputed && SecondsAt(v.clock) <= AnswerBy(v.chain.config, p) && LeavesTime(v.chain.config, p)
    requires v.executions[i].stage.view.responseHash.None?
    ensures Follow(c, v, es).Some? && PaidUnheard(c, Follow(c, v, es).value, i)
  {
    var p, config := v.chain.purchases[c.order], v.chain.config;
    var answer := OtherAnswer(v.executions[i].verdict.responseHash);
    var respond := Ledger({config.payee}, {}, Respond(c.order, answer));
    AnswerLands(c, v, i, answer);
    var v1 := Next(c, v, respond).value;
    StepKeeps(c, v, respond, v1);
    var late := (p.openedAt + config.responseWindow + 1) * 1000;
    var v2 := v1.(clock := late);
    assert Next(c, v1, Tick(late)) == Some(v2);
    StepKeeps(c, v1, Tick(late), v2);
    LateClockPasses(c, v2, i);
    var v3 := Next(c, v2, Confirm(i)).value;
    StepKeeps(c, v2, Confirm(i), v3);
    Lands(c, v3, i);
    var land := Land(i, {config.arbiter}, {config.payee});
    es := [respond] + ([Tick(late)] + ([Confirm(i)] + ([land] + [])));
    FollowStep(c, v3, land, Next(c, v3, land).value, []);
    FollowStep(c, v2, Confirm(i), v3, [land] + []);
    FollowStep(c, v1, Tick(late), v2, [Confirm(i)] + ([land] + []));
    FollowStep(c, v, respond, v1, [Tick(late)] + ([Confirm(i)] + ([land] + [])));
  }

  /** Read with the answer, too late for one, or with no second left to go on without it: paid only if heard. */
  lemma {:induction false} HearsWhenReadInTime(c: Case, v: World, i: nat, es: seq<Event>)
    requires Invariant(c, v) && i < |v.executions| && HasView(v.executions[i]) && Follow(c, v, es).Some?
    requires var p := v.chain.purchases[c.order];
             !ReadTooEarly(v.chain.config, p, v.executions[i].stage) || !LeavesTime(v.chain.config, p)
    ensures !PaidUnheard(c, Follow(c, v, es).value, i)
  {
    FollowKeeps(c, v, es);
    ReadingStays(c, v, es, i);
    var u := Follow(c, v, es).value;
    assert Good(c, u, u.executions[i]);
  }

  /** What an `execute` pays is sure to have heard the answer exactly when it read one, or read none past the store's
      deadline, or the windows leave it no second to go on with none. Otherwise an answer can land between its reading of
      the escrow and its reading of the clock, and it pays a verdict that did not hear it. */
  lemma {:induction false} SureToHearWhen(c: Case, w: World, i: nat, v: World)
    requires Invariant(c, w) && Next(c, w, Look(i)) == Some(v)
    ensures SureToHear(c, v, i)
      <==> var p, config := w.chain.purchases[c.order], w.chain.config;
           || p.responseHash.Some? || SecondsAt(w.clock) > AnswerBy(config, p)
           || config.resolveWindow == 1 || p.openedAt + config.responseWindow >= U64_MAX
  {
    StepKeeps(c, w, Look(i), v);
    assert Filed(w.chain, c.order);
    var p, config := w.chain.purchases[c.order], w.chain.config;
    if ReadTooEarly(config, p, v.executions[i].stage) && LeavesTime(config, p) {
      var es := UnheardRun(c, v, i);
    } else {
      forall es | Follow(c, v, es).Some? ensures !PaidUnheard(c, Follow(c, v, es).value, i) {
        HearsWhenReadInTime(c, v, i, es);
      }
    }
  }

  // ---------------------------------------------------------------- whole runs, built

  /** What can be decided now: the dispute is open for this claim, and the clock lets it. */
  predicate MayDecide(c: Case, w: World, response: Option<Hash>)
    requires Alive(c, w)
  {
    var view := ViewOf(c, w);
    && AssertOpenFor(Some(view), c.claim).Pass? && InWindow(w, view) && MayAsk(w, view, response) && view.amount >= 0
  }

  function AskSteps(response: Option<Hash>, rest: string): seq<Event> {
    [ReadDispute] + ([CheckWindow] + ([Ask(Rejected, 0, 0, response, rest)] + []))
  }

  function Refusing(c: Case, response: Option<Hash>, rest: string): Verdict {
    Verdict(c.receipt, c.claim, response, Rejected, 0, 0, 0, false, rest)
  }

  lemma {:induction false} Asks(c: Case, w: World, response: Option<Hash>, rest: string)
    requires Alive(c, w) && MayDecide(c, w, response) && w.deciding.Idle?
    ensures Follow(c, w, AskSteps(response, rest)) == Some(w.(deciding := Asked(Refusing(c, response, rest))))
  {
    var view, ask := ViewOf(c, w), Ask(Rejected, 0, 0, response, rest);
    var w1, w2 := w.(deciding := Reading(view)), w.(deciding := InTime(view));
    var w3 := w.(deciding := Asked(Refusing(c, response, rest)));
    FollowStep(c, w2, ask, w3, []);
    FollowStep(c, w1, CheckWindow, w2, [ask] + []);
    FollowStep(c, w, ReadDispute, w1, [CheckWindow] + ([ask] + []));
  }

  function DecisionSteps(response: Option<Hash>, rest: string): seq<Event> {
    AskSteps(response, rest) + ([Archive] + ([Publish] + []))
  }

  function Decided(w: World, verdict: Verdict): World {
    w.(archive := w.archive + [verdict], current := Some(verdict))
  }

  lemma {:induction false} Decides(c: Case, w: World, response: Option<Hash>, rest: string)
    requires Alive(c, w) && MayDecide(c, w, response) && w.deciding.Idle?
    ensures Follow(c, w, DecisionSteps(response, rest)) == Some(Decided(w, Refusing(c, response, rest)))
  {
    var verdict := Refusing(c, response, rest);
    Asks(c, w, response, rest);
    var asked := w.(deciding := Asked(verdict));
    var archived := w.(archive := w.archive + [verdict], deciding := Archived(verdict));
    FollowStep(c, archived, Publish, Decided(w, verdict), []);
    FollowStep(c, asked, Archive, archived, [Publish] + []);
    FollowOn(c, w, AskSteps(response, rest), [Archive] + ([Publish] + []));
  }

  lemma {:induction false} LoadsCurrent(c: Case, w: World) returns (w1: World)
    requires Invariant(c, w) && w.current.Some?
    ensures var verdict := w.current.value;
            && w1 == w.(executions := w.executions + [Execution(verdict, c.hashOf(verdict), Loaded)])
            && Next(c, w, Load(c.hashOf(verdict))) == Some(w1) && Invariant(c, w1)
  {
    var verdict := w.current.value;
    var i :| 0 <= i < |w.archive| && w.archive[i] == verdict;
    assert Archivable(c, w, w.archive[i]);
    w1 := w.(executions := w.executions + [Execution(verdict, c.hashOf(verdict), Loaded)]);
    assert Next(c, w, Load(c.hashOf(verdict))) == Some(w1);
    StepKeeps(c, w, Load(c.hashOf(verdict)), w1);
  }

  /** `verdict.json` is loaded and the folder listed, unless its last name is another's. */
  lemma {:induction false} ListsCurrent(c: Case, w: World, read: bool) returns (w2: World)
    requires Invariant(c, w) && w.current.Some?
    requires read ==> w.archive != [] && w.current.value == w.archive[LastNumber(|w.archive|) - 1]
    ensures var k, verdict := |w.executions|, w.current.value;
            && w2 == w.(executions := w.executions + [Execution(verdict, c.hashOf(verdict),
                          Listed(if read then Some(|w.archive|) else None))])
            && Follow(c, w, [Load(c.hashOf(verdict))] + ([List(k, read)] + [])) == Some(w2) && Invariant(c, w2)
  {
    var k, verdict := |w.executions|, w.current.value;
    var load, list := Load(c.hashOf(verdict)), List(k, read);
    var w1 := LoadsCurrent(c, w);
    ListedIsLast(c, w1, w1.executions[k], read);
    w2 := Staged(w1, k, Listed(if read then Some(|w.archive|) else None));
    assert Next(c, w1, list) == Some(w2);
    StepKeeps(c, w1, list, w2);
    FollowStep(c, w1, list, w2, []);
    FollowStep(c, w, load, w1, [list] + []);
  }

  /** Past the folder's test, a verdict the escrow's view is open for is read. */
  lemma {:induction false} LooksListed(c: Case, w: World, i: nat) returns (v: World)
    requires Invariant(c, w) && i < |w.executions| && w.executions[i].stage.Listed?
    requires MayPay(ViewOf(c, w), w.executions[i].verdict)
    ensures v == Staged(w, i, Viewed(w.executions[i].stage.seen, ViewOf(c, w), w.clock))
    ensures Next(c, w, Look(i)) == Some(v) && Invariant(c, v)
  {
    v := Staged(w, i, Viewed(w.executions[i].stage.seen, ViewOf(c, w), w.clock));
    assert Next(c, w, Look(i)) == Some(v);
    StepKeeps(c, w, Look(i), v);
  }

  /** Past the folder's test, a verdict that may be paid and sent now can be paid. */
  lemma {:induction false} PaysListed(c: Case, w: World, i: nat) returns (es: seq<Event>)
    requires Invariant(c, w) && i < |w.executions| && w.executions[i].stage.Listed? && w.paid.None?
    requires MayPay(ViewOf(c, w), w.executions[i].verdict) && MaySend(w, ViewOf(c, w))
    ensures Follow(c, w, es).Some?
    ensures var v := Follow(c, w, es).value;
            v.paid == Some(i) && i < |v.executions| && v.executions[i].verdict == w.executions[i].verdict
            && v.archive == w.archive
  {
    assert Filed(w.chain, c.order);
    var looked := LooksListed(c, w, i);
    var sent := Next(c, looked, Confirm(i)).value;
    StepKeeps(c, looked, Confirm(i), sent);
    Lands(c, sent, i);
    var land := Land(i, {w.chain.config.arbiter}, {w.chain.config.payee});
    es := [Look(i)] + ([Confirm(i)] + ([land] + []));
    FollowStep(c, sent, land, Next(c, sent, land).value, []);
    FollowStep(c, looked, Confirm(i), sent, [land] + []);
    FollowStep(c, w, Look(i), looked, [Confirm(i)] + ([land] + []));
  }

  /** The verdict in `verdict.json` can be paid when its name sorts last, newest or not, or when the folder cannot be
      read. */
  lemma {:induction false} CurrentIsPaid(c: Case, w: World, read: bool) returns (es: seq<Event>)
    requires Invariant(c, w) && w.paid.None? && w.current.Some?
    requires read ==> w.archive != [] && w.current.value == w.archive[LastNumber(|w.archive|) - 1]
    requires MayPay(ViewOf(c, w), w.current.value) && MaySend(w, ViewOf(c, w))
    ensures Follow(c, w, es).Some?
    ensures var v, k := Follow(c, w, es).value, |w.executions|;
            v.paid == Some(k) && k < |v.executions| && v.executions[k].verdict == w.current.value && v.archive == w.archive
  {
    var k := |w.executions|;
    var opening := [Load(c.hashOf(w.current.value))] + ([List(k, read)] + []);
    var listed := ListsCurrent(c, w, read);
    var ending := PaysListed(c, listed, k);
    es := opening + ending;
    FollowOn(c, w, opening, ending);
  }

  /** The dispute is open for this claim and unanswered, at the second its answer is due. */
  predicate OpenAtDeadline(c: Case, w: World)
    requires Alive(c, w)
  {
    var p, config := w.chain.purchases[c.order], w.chain.config;
    && p.status == Disputed && p.claimHash == Some(c.claim) && p.openedAt > 0 && LeavesTime(config, p)
    && w.clock == (p.openedAt + config.responseWindow) * 1000
  }

  /** At the very second of the store's deadline, without an answer yet, a one-sided decision may be asked for. */
  lemma {:induction false} DecidesAtDeadline(c: Case, w: World)
    requires Sound(w.chain) && Alive(c, w) && OpenAtDeadline(c, w)
    ensures MayDecide(c, w, None)
  {
    assert Filed(w.chain, c.order);
  }

  /** From nothing decided: a verdict decided and read at the second the answer is due can be paid without having heard
      the answer that lands at that second. */
  lemma {:induction false} AnswerCanGoUnheard(c: Case, w: World) returns (es: seq<Event>)
    requires Start(c, w) && OpenAtDeadline(c, w)
    ensures Follow(c, w, es).Some? && PaidUnheard(c, Follow(c, w, es).value, 0)
  {
    var opening := DecisionSteps(None, "");
    DecidesAtDeadline(c, w);
    Decides(c, w, None, "");
    var decided := Decided(w, Refusing(c, None, ""));
    FollowKeeps(c, w, opening);
    assert Filed(w.chain, c.order);
    assert LastNumber(1) == 1;
    var middle := [Load(c.hashOf(decided.current.value))] + ([List(0, true)] + []);
    var listed := ListsCurrent(c, decided, true);
    var looked := LooksListed(c, listed, 0);
    var ending := UnheardRun(c, looked, 0);
    FollowStep(c, listed, Look(0), looked, ending);
    FollowOn(c, decided, middle, [Look(0)] + ending);
    FollowOn(c, w, opening, middle + ([Look(0)] + ending));
    es := opening + (middle + ([Look(0)] + ending));
  }

  // ---------------------------------------------------------------- archived since, sorted before

  /** A verdict archived after an `execute` listed the folder is not seen: the landing still pays the one confirmed. */
  lemma {:induction false} ArchiveBetweenIsNotSeen(c: Case, w: World, i: nat, signers: set<Address>, receivers: set<Address>)
    requires Invariant(c, w) && i < |w.executions| && w.executions[i].stage.Submitted?
    requires w.deciding.Asked? && w.paid.None?
    requires Next(c, w, Land(i, signers, receivers)).value.paid == Some(i)
    ensures var landed := Follow(c, w, [Archive, Land(i, signers, receivers)]);
            && landed.Some? && landed.value.paid == Some(i) && i < |landed.value.executions|
            && landed.value.executions[i].stage.Finished? && landed.value.archive != []
            && landed.value.executions[i].verdict == w.executions[i].verdict
            && landed.value.archive[|landed.value.archive| - 1] == w.deciding.verdict
            && (w.executions[i].stage.seen.Some? ==> w.executions[i].stage.seen.value < |landed.value.archive|)
  {
    assert Good(c, w, w.executions[i]);
    var archived := Next(c, w, Archive).value;
    var land := Land(i, signers, receivers);
    FollowStep(c, archived, land, Next(c, archived, land).value, []);
    FollowStep(c, w, Archive, archived, [land] + []);
    assert [Archive, land] == [Archive] + ([land] + []);
  }

  /** `verify` compares the chain with `verdict.json`: it agrees exactly when that is still the verdict paid, and it had
      heard the answer. */
  lemma {:induction false} VerifyAgreesWhen(c: Case, start: World, es: seq<Event>)
    requires Start(c, start) && Follow(c, start, es).Some?
    requires var w := Follow(c, start, es).value; w.paid.Some? && w.current.Some? && NoCollisions(c, w.archive)
    ensures var w := Follow(c, start, es).value;
            && Alive(c, w) && w.paid.value < |w.executions|
            && var p, x := w.chain.purchases[c.order], w.executions[w.paid.value];
               VerdictMatches(FromEscrow(p), w.current.value, c.hashOf(w.current.value))
               <==> w.current.value == x.verdict && Heard(p, x.verdict)
  {
    RunKeeps(c, start, es);
    var w := Follow(c, start, es).value;
    assert Good(c, w, w.executions[w.paid.value]);
    var i :| 0 <= i < |w.archive| && w.archive[i] == w.current.value;
    var j :| 0 <= j < |w.archive| && w.archive[j] == w.executions[w.paid.value].verdict;
  }

  /** Past the numbers that sort last, an older verdict passes for the latest: with 999 archived and published, a decision
      that archives the 1000th and stops before publishing it leaves the 999th to be confirmed and paid. */
  lemma {:induction false} StaleVerdictIsPaid(c: Case, w: World) returns (es: seq<Event>)
    requires Invariant(c, w) && w.paid.None? && |w.archive| == 999 && w.current == Some(w.archive[998])
    requires w.deciding.Asked?
    requires MayPay(ViewOf(c, w), w.archive[998]) && MaySend(w, ViewOf(c, w))
    ensures Follow(c, w, es).Some?
    ensures var v, k := Follow(c, w, es).value, |w.executions|;
            && v.archive == w.archive + [w.deciding.verdict]
            && v.paid == Some(k) && k < |v.executions| && v.executions[k].verdict == v.archive[998]
  {
    ThousandIsHidden();
    var stopped := StopsBeforePublishing(c, w);
    var ending := CurrentIsPaid(c, stopped, true);
    es := [Archive] + ([Crash] + []) + ending;
    FollowOn(c, w, [Archive] + ([Crash] + []), ending);
  }

  lemma {:induction false} StopsBeforePublishing(c: Case, w: World) returns (v: World)
    requires Invariant(c, w) && w.deciding.Asked?
    ensures v == w.(archive := w.archive + [w.deciding.verdict], deciding := Idle)
    ensures Follow(c, w, [Archive] + ([Crash] + [])) == Some(v) && Invariant(c, v)
  {
    var archived := Next(c, w, Archive).value;
    StepKeeps(c, w, Archive, archived);
    v := archived.(deciding := Idle);
    assert Next(c, archived, Crash) == Some(v);
    StepKeeps(c, archived, Crash, v);
    FollowStep(c, archived, Crash, v, []);
    FollowStep(c, w, Archive, archived, [Crash] + []);
  }

  /** The dispute is open for this claim, and the script would execute now. */
  predicate Executable(c: Case, w: World)
    requires Alive(c, w)
  {
    var p := w.chain.purchases[c.order];
    InDispute(p) && p.claimHash == Some(c.claim) && p.openedAt > 0 && MaySend(w, ViewOf(c, w))
  }

  /** What may be executed may be decided, on the answer there is, and then paid. */
  lemma {:induction false} ExecutableMayDecide(c: Case, w: World, rest: string)
    requires Sound(w.chain) && Alive(c, w) && Executable(c, w)
    ensures MayDecide(c, w, ViewOf(c, w).responseHash)
    ensures MayPay(ViewOf(c, w), Refusing(c, ViewOf(c, w).responseHash, rest))
  {
    assert Filed(w.chain, c.order);
    ExecutableIsDecidable(InEscrow, ViewOf(c, w), Some(WindowsOf(w.chain.config)), w.clock);
  }

  /** As many verdicts, no two alike. */
  function Series(c: Case, response: Option<Hash>, n: nat): (s: seq<Verdict>)
    ensures |s| == n && forall i | 0 <= i < n :: s[i] == Refusing(c, response, Repeat('r', i))
  {
    if n == 0 then [] else Series(c, response, n - 1) + [Refusing(c, response, Repeat('r', n - 1))]
  }

  function AfterSeries(c: Case, w: World, n: nat): World
    requires Alive(c, w)
  {
    var s := Series(c, ViewOf(c, w).responseHash, n);
    w.(archive := s, current := if n == 0 then w.current else Some(s[n - 1]))
  }

  /** Any number of verdicts can be decided, one after another. */
  lemma {:induction false} DecidesMany(c: Case, w: World, n: nat) returns (es: seq<Event>)
    requires Start(c, w) && Executable(c, w)
    ensures Follow(c, w, es) == Some(AfterSeries(c, w, n)) && Invariant(c, AfterSeries(c, w, n))
  {
    if n == 0 {
      es := [];
      assert AfterSeries(c, w, 0) == w;
    } else {
      var before := DecidesMany(c, w, n - 1);
      var u, response, rest := AfterSeries(c, w, n - 1), ViewOf(c, w).responseHash, Repeat('r', n - 1);
      ExecutableMayDecide(c, u, rest);
      Decides(c, u, response, rest);
      assert Decided(u, Refusing(c, response, rest)) == AfterSeries(c, w, n);
      es := before + DecisionSteps(response, rest);
      FollowOn(c, w, before, DecisionSteps(response, rest));
      FollowKeeps(c, u, DecisionSteps(response, rest));
    }
  }

  /** Any number of verdicts decided and published, one more archived, and deciding stopped. */
  lemma {:induction false} DecidesAllButLast(c: Case, w: World, n: nat) returns (es: seq<Event>, v: World)
    requires Start(c, w) && Executable(c, w) && n > 0
    ensures var s := Series(c, ViewOf(c, w).responseHash, n + 1);
            v == w.(archive := s, current := Some(s[n - 1])) && Follow(c, w, es) == Some(v) && Invariant(c, v)
  {
    var before := DecidesMany(c, w, n);
    var u, response, rest := AfterSeries(c, w, n), ViewOf(c, w).responseHash, Repeat('r', n);
    ExecutableMayDecide(c, u, rest);
    Asks(c, u, response, rest);
    FollowKeeps(c, u, AskSteps(response, rest));
    var asked := u.(deciding := Asked(Refusing(c, response, rest)));
    v := StopsBeforePublishing(c, asked);
    var stop := [Archive] + ([Crash] + []);
    FollowOn(c, u, AskSteps(response, rest), stop);
    FollowOn(c, w, before, AskSteps(response, rest) + stop);
    es := before + (AskSteps(response, rest) + stop);
  }

  /** From nothing decided: the 999th of 1000 archived verdicts, no two alike, is paid as the latest. */
  lemma {:induction false} StaleVerdictCanBePaid(c: Case, w: World) returns (es: seq<Event>)
    requires Start(c, w) && Executable(c, w)
    ensures Follow(c, w, es).Some?
    ensures var v := Follow(c, w, es).value;
            && v.paid == Some(0) && |v.executions| > 0 && |v.archive| == 1000
            && v.executions[0].verdict == v.archive[998] != v.archive[999]
  {
    var response := ViewOf(c, w).responseHash;
    var before := DecidesMany(c, w, 999);
    var u := AfterSeries(c, w, 999);
    ExecutableMayDecide(c, u, Repeat('r', 998));
    Asks(c, u, response, Repeat('r', 999));
    var middle := AskSteps(response, Repeat('r', 999));
    FollowKeeps(c, u, middle);
    var asked := u.(deciding := Asked(Refusing(c, response, Repeat('r', 999))));
    var ending := StaleVerdictIsPaid(c, asked);
    es := before + (middle + ending);
    FollowOn(c, u, middle, ending);
    FollowOn(c, w, before, middle + ending);
    assert Refusing(c, response, Repeat('r', 998)).rest != Repeat('r', 999);
  }

  /** From nothing decided: with two verdicts archived and the second not published, a folder that cannot be read lets the
      first be paid, although the second's name sorts last. */
  lemma {:induction false} UnreadFolderPaysOlder(c: Case, w: World) returns (es: seq<Event>)
    requires Start(c, w) && Executable(c, w)
    ensures Follow(c, w, es).Some?
    ensures var v := Follow(c, w, es).value;
            && v.paid == Some(0) && |v.executions| > 0 && |v.archive| == 2
            && v.executions[0].verdict == v.archive[0] != v.archive[1] == v.archive[LastNumber(2) - 1]
  {
    var opening, stopped := DecidesAllButLast(c, w, 1);
    ExecutableMayDecide(c, w, Repeat('r', 0));
    var ending := CurrentIsPaid(c, stopped, false);
    es := opening + ending;
    FollowOn(c, w, opening, ending);
    assert |Repeat('r', 0)| != |Repeat('r', 1)|;
  }

  /** The folder's test, for a loaded verdict: passed when the folder cannot be read, and otherwise exactly by the verdict
      whose name sorts last. */
  lemma {:induction false} ListingPassesWhen(c: Case, w: World, i: nat, read: bool)
    requires Invariant(c, w) && i < |w.executions| && w.executions[i].stage.Loaded? && NoCollisions(c, w.archive)
    ensures w.archive != []
    ensures Next(c, w, List(i, read)).Some? <==> !read || w.executions[i].verdict == w.archive[LastNumber(|w.archive|) - 1]
  {
    assert Good(c, w, w.executions[i]);
    ListedIsLast(c, w, w.executions[i], read);
    var j :| 0 <= j < |w.archive| && w.archive[j] == w.executions[i].verdict;
  }

  lemma {:induction false} VerdictStays(c: Case, w: World, es: seq<Event>, i: nat)
    requires i < |w.executions| && Follow(c, w, es).Some?
    ensures var v := Follow(c, w, es).value; i < |v.executions| && v.executions[i].verdict == w.executions[i].verdict
    decreases |es|
  {
    if es != [] {
      StepKeepsVerdict(c, w, es[0], i);
      VerdictStays(c, Next(c, w, es[0]).value, es[1..], i);
    }
  }

  lemma {:induction false} StepKeepsVerdict(c: Case, w: World, e: Event, i: nat)
    requires Alive(c, w) && i < |w.executions| && Next(c, w, e).Some?
    ensures var v := Next(c, w, e).value; i < |v.executions| && v.executions[i].verdict == w.executions[i].verdict
  {
  }

  /** Whatever happens next, the `i`-th `execute` is paid for no other verdict. */
  ghost predicate SureToPay(c: Case, w: World, i: nat, verdict: Verdict) {
    forall es :: Follow(c, w, es).Some? ==> !PaidForAnother(Follow(c, w, es).value, i, verdict)
  }

  predicate PaidForAnother(w: World, i: nat, verdict: Verdict) {
    w.paid == Some(i) && i < |w.executions| && w.executions[i].verdict != verdict
  }

  /** Past the folder's test, an `execute` is sure to pay the verdict whose name sorts last if it read the folder, or holds
      that verdict anyway; and, when its own could be paid now, only then. */
  lemma {:induction false} SureToPayLastWhen(c: Case, w: World, i: nat, read: bool, v: World)
    requires Invariant(c, w) && i < |w.executions| && NoCollisions(c, w.archive) && Next(c, w, List(i, read)) == Some(v)
    ensures w.archive != []
    ensures var x, last := w.executions[i], w.archive[LastNumber(|w.archive|) - 1];
            && (read || x.verdict == last ==> SureToPay(c, v, i, last))
            && (w.paid.None? && MayPay(ViewOf(c, w), x.verdict) && MaySend(w, ViewOf(c, w)) ==>
                  (SureToPay(c, v, i, last) <==> read || x.verdict == last))
  {
    var x := w.executions[i];
    ListingPassesWhen(c, w, i, read);
    StepKeeps(c, w, List(i, read), v);
    var last := w.archive[LastNumber(|w.archive|) - 1];
    if x.verdict == last {
      forall es | Follow(c, v, es).Some? ensures !PaidForAnother(Follow(c, v, es).value, i, last) {
        VerdictStays(c, v, es, i);
      }
    } else if w.paid.None? && MayPay(ViewOf(c, w), x.verdict) && MaySend(w, ViewOf(c, w)) {
      var es := PaysListed(c, v, i);
      assert PaidForAnother(Follow(c, v, es).value, i, last);
    }
  }

  /** No verdict is archived twice. */
  predicate AllDiffer(archive: seq<Verdict>) {
    forall i, j | 0 <= i < j < |archive| :: archive[i] != archive[j]
  }

  /** In every run that read the folder, the verdict paid is the newest archived by now exactly when the listed folder's
      last name carries the newest one's hash; where no two are alike, exactly when nothing was archived since, and the
      newest number sorts last. */
  lemma {:induction false} NewestIsPaidWhen(c: Case, start: World, es: seq<Event>)
    requires Start(c, start) && Follow(c, start, es).Some?
    requires var w := Follow(c, start, es).value;
             && w.paid.Some? && NoCollisions(c, w.archive) && w.paid.value < |w.executions|
             && w.executions[w.paid.value].stage.Finished? && w.executions[w.paid.value].stage.seen.Some?
    ensures var w := Follow(c, start, es).value;
            var x, n := w.executions[w.paid.value], |w.archive|;
            && 0 < x.stage.seen.value <= n
            && (x.verdict == w.archive[n - 1]
                <==> c.hashOf(w.archive[LastNumber(x.stage.seen.value) - 1]) == c.hashOf(w.archive[n - 1]))
            && (AllDiffer(w.archive) ==>
                  (x.verdict == w.archive[n - 1] <==> x.stage.seen.value == n && SortsLast(n)))
  {
    ExecutionIsSafe(c, start, es);
    var w := Follow(c, start, es).value;
    var seen, n := w.executions[w.paid.value].stage.seen.value, |w.archive|;
    if !SortsLast(seen) {
      NinesWidth(seen);
    }
  }

  lemma {:induction false} ThousandIsHidden()
    ensures LastNumber(1000) == 999
  {
    WidthOfNumber(1000);
    PowersOfTen();
    LengthOfNumber(1000, 4);
  }

  lemma {:induction false} PowersOfTen()
    ensures Pow10(3) == 1000 && Pow10(4) == 10000
  {
  }
}
