/** What the scripts and the chat read of an escrow, and the guards they put before each call to it. */
module DisputeVenue {
  import opened Results
  import opened Escrow

  datatype Refusal =
    | ConfigError | NetworkError(uncertain: bool) | EscrowUnverified | ReceiptInvalid | ClaimantNotPayer
    | DisputeExists | ClaimWindowPast | ResponseInvalid | ResponsePending | WindowClosed | ConfirmationMismatch

  /** A guard passes, or refuses for a reason. */
  datatype Guard = Pass | Refuse(reason: Refusal)

  datatype Venue = AgentResolve | InEscrow

  datatype ViewStatus = NoDispute | OpenDispute | ResolvedDispute | ClosedDispute

  /** Either contract's dispute, in one shape. */
  datatype View = View(
    status: ViewStatus, claimHash: Option<Hash>, payer: Address, amount: int, openedAt: Option<nat>,
    responseHash: Option<Hash>, verdictHash: Option<Hash>, refund: int, refundOwed: int)

  datatype Windows = Windows(responseWindow: nat, resolveWindow: nat)

  function WindowsOf(config: Config): Windows {
    Windows(config.responseWindow, config.resolveWindow)
  }

  /** The escrow keeps 0 for a time that has not come. */
  function OrNull(t: nat): Option<nat> {
    if t == 0 then None else Some(t)
  }

  function OrZero(t: Option<nat>): nat {
    if t.Some? then t.value else 0
  }

  function FromEscrow(p: Purchase): View {
    var status :=
      match p.status
      case Disputed => OpenDispute
      case Responded => OpenDispute
      case Resolved => ResolvedDispute
      case Held => NoDispute
      case Shipped => NoDispute
      case _ => ClosedDispute;
    View(status, p.claimHash, p.payer, p.amount, OrNull(p.openedAt), p.responseHash, p.verdictHash, p.refund, p.refundOwed)
  }

  /** The view keeps what the escrow holds; its one status for each of the contract's says only whether there is a
      dispute, and how it ended. */
  lemma {:induction false} ViewTells(p: Purchase)
    ensures var v := FromEscrow(p);
            && (v.claimHash, v.payer, v.amount, v.responseHash) == (p.claimHash, p.payer, p.amount, p.responseHash)
            && (v.verdictHash, v.refund, v.refundOwed) == (p.verdictHash, p.refund, p.refundOwed)
            && (v.openedAt.None? <==> p.openedAt == 0) && (v.openedAt.Some? ==> v.openedAt.value == p.openedAt)
            && (v.status == NoDispute <==> p.status in {Held, Shipped}) && (v.status == OpenDispute <==> InDispute(p))
            && (v.status == ResolvedDispute <==> p.status == Resolved)
            && (v.status == ClosedDispute <==> p.status in {Released, Expired})
  {
  }

  // ---------------------------------------------------------------- the arbiter's guards

  /** Whole seconds of a clock read in milliseconds. */
  function SecondsAt(millis: int): int {
    millis / 1000
  }

  function AssertOpenFor(view: Option<View>, claimHash: Hash): Guard {
    if view.None? || view.value.status != OpenDispute || view.value.claimHash != Some(claimHash)
       || view.value.openedAt.None?
    then Refuse(ReceiptInvalid)
    else Pass
  }

  function AssertResponseMatches(view: View, fileHash: Option<Hash>): Guard {
    if view.responseHash.None? then Pass
    else if fileHash.None? then Refuse(ResponseInvalid)
    else if fileHash != view.responseHash then Refuse(ResponseInvalid)
    else Pass
  }

  function AssertArbiterWindowOpen(venue: Venue, view: View, escrow: Option<Windows>, millis: int): Guard {
    if venue.AgentResolve? then Pass
    else if escrow.None? then Refuse(ConfigError)
    else
      var resolveBy := OrZero(view.openedAt) + escrow.value.responseWindow + escrow.value.resolveWindow;
      if SecondsAt(millis) >= resolveBy then Refuse(WindowClosed) else Pass
  }

  function AssertMayExecute(venue: Venue, view: View, escrow: Option<Windows>, millis: int): Guard {
    if venue.AgentResolve? then Pass
    else if escrow.None? then Refuse(ConfigError)
    else
      var seconds := SecondsAt(millis);
      var answerBy := OrZero(view.openedAt) + escrow.value.responseWindow;
      var resolveBy := answerBy + escrow.value.resolveWindow;
      if view.responseHash.None? && seconds <= answerBy then Refuse(ResponsePending)
      else if seconds >= resolveBy then Refuse(WindowClosed)
      else Pass
  }

  function AssertVerdictHeardResponse(view: View, heard: Option<Hash>): Guard {
    if view.responseHash.None? then Pass
    else if heard != view.responseHash then Refuse(ConfirmationMismatch)
    else Pass
  }

  /** A one-sided decision waits for the store's deadline; it is compared in milliseconds. */
  function AssertMayDecide(openedAt: nat, hasResponse: bool, windowSeconds: nat, millis: int): Guard {
    if hasResponse then Pass
    else if millis < (openedAt + windowSeconds) * 1000 then Refuse(ResponsePending)
    else Pass
  }

  /** Why each guard refuses. */
  lemma {:induction false} GuardsSayWhy(view: View, claim: Hash, heard: Option<Hash>, window: nat, millis: int)
    ensures AssertOpenFor(Some(view), claim) in {Pass, Refuse(ReceiptInvalid)}
    ensures AssertResponseMatches(view, heard)
         == if view.responseHash.Some? && heard != view.responseHash then Refuse(ResponseInvalid) else Pass
    ensures AssertVerdictHeardResponse(view, heard)
         == if view.responseHash.Some? && heard != view.responseHash then Refuse(ConfirmationMismatch) else Pass
    ensures AssertMayDecide(OrZero(view.openedAt), heard.Some?, window, millis)
         == if heard == None && millis < (OrZero(view.openedAt) + window) * 1000 then Refuse(ResponsePending) else Pass
  {
  }

  /** Why an `execute` is refused: too soon to be sure there is no answer, or too late for the contract. */
  lemma {:induction false} TooSoonOrTooLate(view: View, w: Windows, millis: int)
    ensures var answered, late := (OrZero(view.openedAt) + w.responseWindow + 1) * 1000,
                                  (OrZero(view.openedAt) + w.responseWindow + w.resolveWindow) * 1000;
            AssertMayExecute(InEscrow, view, Some(w), millis)
            == if view.responseHash.None? && millis < answered then Refuse(ResponsePending)
               else if millis >= late then Refuse(WindowClosed)
               else Pass
  {
  }

  /** What may be executed may be decided. */
  lemma {:induction false} ExecutableIsDecidable(venue: Venue, view: View, escrow: Option<Windows>, millis: int)
    ensures AssertMayExecute(venue, view, escrow, millis).Pass? ==>
              && AssertArbiterWindowOpen(venue, view, escrow, millis).Pass?
              && (venue.InEscrow? ==>
                    AssertMayDecide(OrZero(view.openedAt), view.responseHash.Some?, escrow.value.responseWindow, millis).Pass?)
  {
  }

  // ---------------------------------------------------------------- the guards beside the contract

  /** The dispute's last second, unless the ledger's clock cannot reach it. */
  function LastSecond(config: Config, p: Purchase): nat {
    p.openedAt + config.responseWindow + config.resolveWindow
  }

  ghost predicate ResolvePossible(s: State, now: Seconds, order: Order, hash: Hash)
    requires order in s.purchases
  {
    Possible(s, now, Resolve(order, hash, s.purchases[order].amount))
  }

  /** When the contract would take a verdict. */
  lemma {:induction false} ResolveWindow(s: State, now: Seconds, order: Order, hash: Hash)
    requires Sound(s) && order in s.purchases && InDispute(s.purchases[order])
    ensures ResolvePossible(s, now, order, hash)
      <==> var p := s.purchases[order];
           (p.status == Responded || now > AnswerBy(s.config, p)) && now <= ResolveDeadline(s.config, p)
  {
    assert Filed(s, order);
    var p := s.purchases[order];
    var call := Resolve(order, hash, p.amount);
    var env := Willing(s, order, now);
    ResolveSucceedsWhen(s, env, order, hash, p.amount);
    assert Apply(s, env, call) == DoResolve(s, env, order, hash, p.amount);
    forall e: Env | e.now == now && Apply(s, e, call).Ok? ensures DoResolve(s, env, order, hash, p.amount).Ok? {
      ResolveSucceedsWhen(s, e, order, hash, p.amount);
    }
  }

  lemma {:induction false} ExpireWindow(s: State, now: Seconds, order: Order)
    requires Sound(s) && order in s.purchases && InDispute(s.purchases[order])
    ensures Possible(s, now, Expire(order)) <==> now > ResolveDeadline(s.config, s.purchases[order])
  {
    var env := Willing(s, order, now);
    ExpireSucceedsWhen(s, env, order);
    assert Apply(s, env, Expire(order)) == DoExpire(s, env, order);
    forall e: Env | e.now == now && Apply(s, e, Expire(order)).Ok? ensures DoExpire(s, env, order).Ok? {
      ExpireSucceedsWhen(s, e, order);
    }
  }

  /** The script lets a verdict through exactly at the seconds the contract would take it, but for the very last. */
  lemma {:induction false} ExecuteGuardAgrees(s: State, millis: nat, order: Order, hash: Hash)
    requires Sound(s) && order in s.purchases && InDispute(s.purchases[order]) && s.purchases[order].openedAt > 0
    requires SecondsAt(millis) <= U64_MAX
    ensures AssertMayExecute(InEscrow, FromEscrow(s.purchases[order]), Some(WindowsOf(s.config)), millis).Pass?
      <==> && ResolvePossible(s, SecondsAt(millis), order, hash)
           && SecondsAt(millis) != LastSecond(s.config, s.purchases[order])
  {
    ResolveWindow(s, SecondsAt(millis), order, hash);
    assert Filed(s, order);
  }

  /** When the guard says that only `expire` is valid now, that is so at every second but the last of the window: there
      the contract would still take the verdict, and refuses to expire. */
  lemma {:induction false} OnlyExpireIsValidExceptAtLastSecond(s: State, millis: nat, order: Order, hash: Hash)
    requires Sound(s) && order in s.purchases && InDispute(s.purchases[order]) && s.purchases[order].openedAt > 0
    requires SecondsAt(millis) <= U64_MAX
    requires AssertMayExecute(InEscrow, FromEscrow(s.purchases[order]), Some(WindowsOf(s.config)), millis)
          == Refuse(WindowClosed)
    ensures Possible(s, SecondsAt(millis), Expire(order)) <==> SecondsAt(millis) != LastSecond(s.config, s.purchases[order])
    ensures ResolvePossible(s, SecondsAt(millis), order, hash) <==> SecondsAt(millis) == LastSecond(s.config, s.purchases[order])
  {
    ResolveWindow(s, SecondsAt(millis), order, hash);
    ExpireWindow(s, SecondsAt(millis), order);
    assert Filed(s, order);
  }

  /** The seconds from the opening on at which the script would execute. */
  function UsableSeconds(view: View, w: Windows): set<nat> {
    set t: nat | t < OrZero(view.openedAt) + w.responseWindow + w.resolveWindow
                 && OrZero(view.openedAt) <= t && AssertMayExecute(InEscrow, view, Some(w), t * 1000).Pass?
  }

  function Range(low: nat, high: nat): (r: set<nat>)
    requires low <= high
    ensures |r| == high - low && forall t: nat :: t in r <==> low <= t < high
    decreases high - low
  {
    if low == high then {} else Range(low, high - 1) + {high - 1}
  }

  function FirstUsable(view: View, w: Windows): nat {
    OrZero(view.openedAt) + if view.responseHash.None? then w.responseWindow + 1 else 0
  }

  lemma {:induction false} UsableWhen(view: View, w: Windows, t: nat)
    ensures t in UsableSeconds(view, w)
      <==> FirstUsable(view, w) <= t < OrZero(view.openedAt) + w.responseWindow + w.resolveWindow
  {
    assert SecondsAt(t * 1000) == t;
  }

  /** Without an answer the arbiter has one second less than its window; with one, all of both windows. */
  lemma {:induction false} UsableSecondsCount(view: View, w: Windows)
    requires w.responseWindow > 0 && w.resolveWindow > 0
    ensures |UsableSeconds(view, w)| == if view.responseHash.None? then w.resolveWindow - 1
                                        else w.responseWindow + w.resolveWindow
  {
    var range := Range(FirstUsable(view, w), OrZero(view.openedAt) + w.responseWindow + w.resolveWindow);
    forall t: nat ensures t in UsableSeconds(view, w) <==> t in range {
      UsableWhen(view, w, t);
    }
    assert UsableSeconds(view, w) == range;
  }

  // ---------------------------------------------------------------- opening from the chat

  /** Everything `checkClaimableEscrow` is given or reads. */
  datatype ClaimInput = ClaimInput(
    reachable: bool, read: Option<(Option<Purchase>, Config, bool)>, acceptsArbiter: bool,
    order: Order, receiptHash: Hash, txHash: Hash, amount: int, payer: Address, millis: int)

  function CheckClaimableEscrow(i: ClaimInput): Guard {
    if !i.reachable then Refuse(ConfigError)
    else if i.read.None? then Refuse(NetworkError(false))
    else
      var (purchase, config, knownCode) := i.read.value;
      if !knownCode then Refuse(EscrowUnverified)
      else if !i.acceptsArbiter then Refuse(EscrowUnverified)
      else if purchase.None? then Refuse(ReceiptInvalid)
      else
        var p := purchase.value;
        if p.orderRef != i.order || p.receiptHash != i.receiptHash || p.txHash != i.txHash || p.amount != i.amount then
          Refuse(ReceiptInvalid)
        else if p.payer != i.payer then Refuse(ClaimantNotPayer)
        else
          match p.status
          case Held => Pass
          case Shipped =>
            if SecondsAt(i.millis) >= OrZero(OrNull(p.shippedAt)) + config.releaseWindow then Refuse(ClaimWindowPast)
            else Pass
          case Released => Refuse(ClaimWindowPast)
          case _ => Refuse(DisputeExists)
  }

  /** The escrow could be read, runs the known code and names an arbiter the agent accepts. */
  predicate Trusted(i: ClaimInput) {
    i.reachable && i.acceptsArbiter && i.read.Some? && i.read.value.2
  }

  /** The escrow holds the very purchase the signed receipt tells of. */
  predicate Tells(i: ClaimInput, held: Option<Purchase>) {
    && held.Some?
    && (held.value.orderRef, held.value.receiptHash, held.value.txHash, held.value.amount)
       == (i.order, i.receiptHash, i.txHash, i.amount)
  }

  /** Each refusal is given for its own mismatch and no other; what passes is the payer's own purchase, not yet claimed
      and not past its window. */
  lemma {:induction false} RefusedExactlyFor(i: ClaimInput)
    ensures CheckClaimableEscrow(i) == Refuse(ConfigError) <==> !i.reachable
    ensures CheckClaimableEscrow(i) == Refuse(NetworkError(false)) <==> i.reachable && i.read.None?
    ensures CheckClaimableEscrow(i) == Refuse(EscrowUnverified) <==> i.reachable && i.read.Some? && !Trusted(i)
    ensures CheckClaimableEscrow(i) == Refuse(ReceiptInvalid) <==> Trusted(i) && !Tells(i, i.read.value.0)
    ensures !CheckClaimableEscrow(i).Pass? ==>
              CheckClaimableEscrow(i).reason in {ConfigError, NetworkError(false), EscrowUnverified, ReceiptInvalid,
                                                 ClaimantNotPayer, ClaimWindowPast, DisputeExists}
    ensures Trusted(i) && Tells(i, i.read.value.0) ==>
              var p, config := i.read.value.0.value, i.read.value.1;
              var closed := p.status == Released || (p.status == Shipped && i.millis >= (p.shippedAt + config.releaseWindow) * 1000);
              && (CheckClaimableEscrow(i) == Refuse(ClaimantNotPayer) <==> p.payer != i.payer)
              && (CheckClaimableEscrow(i) == Refuse(ClaimWindowPast) <==> p.payer == i.payer && closed)
              && (CheckClaimableEscrow(i) == Refuse(DisputeExists)
                  <==> p.payer == i.payer && p.status in {Disputed, Responded, Resolved, Expired})
  {
  }

  /** The purchase was read from this state, and the claim is about it. */
  predicate ReadFrom(i: ClaimInput, s: State, order: Order) {
    && order in s.purchases && i.order == order && i.reachable && i.acceptsArbiter
    && i.read == Some((Some(s.purchases[order]), s.config, true))
    && i.receiptHash == s.purchases[order].receiptHash && i.txHash == s.purchases[order].txHash
    && i.amount == s.purchases[order].amount && i.payer == s.purchases[order].payer
    && 0 <= SecondsAt(i.millis) <= U64_MAX
  }

  /** The release window ends where the ledger's clock does not. */
  predicate WindowInReach(s: State, order: Order)
    requires order in s.purchases
  {
    s.purchases[order].shippedAt + s.config.releaseWindow <= U64_MAX
  }

  /** The chat lets a claim through exactly at the seconds the contract would open it. */
  lemma {:induction false} ClaimGuardAgrees(i: ClaimInput, s: State, order: Order, claim: Hash)
    requires Sound(s) && ReadFrom(i, s, order) && !i.payer.Unknown? && WindowInReach(s, order)
    ensures CheckClaimableEscrow(i).Pass? <==> Possible(s, SecondsAt(i.millis), Open(order, claim, Some(true)))
  {
    assert Filed(s, order);
    OpenPossible(s, SecondsAt(i.millis), order, claim);
  }

  /** What the chat says when the contract, or its host, refuses an `open`. */
  function RefusalOf(error: Error): Refusal {
    match error
    case SignatureRefused => ClaimantNotPayer
    case PurchaseNotFound => ReceiptInvalid
    case WrongStatus => DisputeExists
    case ClaimWindowClosed => ClaimWindowPast
    case MissingSignature => ClaimantNotPayer
    case UnsupportedPayer => ClaimantNotPayer
    case _ => NetworkError(false)
  }

  /** Any refused `open` is told for what it was, with whatever signature it came. */
  lemma {:induction false} RefusedOpenIsTold(s: State, env: Env, order: Order, claim: Hash, signature: Option<bool>)
    requires DoOpen(s, env, order, claim, signature).Err?
    ensures var told := RefusalOf(DoOpen(s, env, order, claim, signature).error);
            if order !in s.purchases then told == ReceiptInvalid
            else
              var p := s.purchases[order];
              if p.status == Shipped && env.now >= ReleaseAt(s.config, p) then told == ClaimWindowPast
              else if p.status !in {Held, Shipped} then told == DisputeExists
              else if p.payer.Account? then told == NetworkError(false) && p.payer !in env.signers
              else told == ClaimantNotPayer && (p.payer.Contract? ==> signature != Some(true))
  {
  }

  /** What becomes of a submission: it is answered, certainly not taken, or not confirmed, and then it may have landed. */
  datatype Fate = Answer | NotTaken | Unconfirmed(landed: bool)

  /** What the chat says of an `open` it sent; none when it says that the dispute is open. */
  function SaidOf(s: State, env: Env, call: Call, fate: Fate): Option<Refusal> {
    match fate
    case NotTaken => Some(NetworkError(false))
    case Unconfirmed(_) => Some(NetworkError(true))
    case Answer =>
      match Apply(s, env, call)
      case Ok(_) => None
      case Err(error) => Some(RefusalOf(error))
  }

  function ChainOf(s: State, env: Env, call: Call, fate: Fate): State {
    if fate == Answer || fate == Unconfirmed(true) then After(s, env, call) else s
  }

  /** A rail's owner signs the message; a classic account signs the transaction. */
  function OpenCall(p: Purchase, claim: Hash, verifies: bool): Call {
    Open(p.orderRef, claim, if p.payer.Contract? then Some(verifies) else None)
  }

  lemma {:induction false} PurchaseSurvives(s: State, steps: seq<Step>, order: Order)
    requires Sound(s) && order in s.purchases
    ensures var t := Run(s, steps);
            Sound(t) && order in t.purchases && SameIdentity(s.purchases[order], t.purchases[order])
            && Rank(s.purchases[order].status) <= Rank(t.purchases[order].status)
  {
    if steps != [] {
      var before, last := steps[..|steps| - 1], steps[|steps| - 1];
      PurchaseSurvives(s, before, order);
      StepIsSound(Run(s, before), last.env, last.call);
      StepMoves(Run(s, before), last.env, last.call, order);
    }
  }

  predicate OpenFor(s: State, order: Order, claim: Hash) {
    order in s.purchases && FromEscrow(s.purchases[order]).status == OpenDispute && s.purchases[order].claimHash == Some(claim)
  }

  /** Once the guard has passed, whatever happens before the claim is sent and to the submission: an opening said is an
      opening; a refusal said for certain left the escrow as it was, because the purchase moved on, its window closed, the
      consent does not hold or the network did not take it, never because of the order; and the chat says it does not know
      exactly when the submission was not confirmed. */
  lemma {:induction false} CheckedClaimLands(
      i: ClaimInput, s: State, order: Order, steps: seq<Step>, env: Env, claim: Hash, verifies: bool, fate: Fate)
    requires Sound(s) && ReadFrom(i, s, order) && CheckClaimableEscrow(i).Pass?
    ensures var t, call := Run(s, steps), OpenCall(s.purchases[order], claim, verifies);
            var said, u := SaidOf(t, env, call, fate), ChainOf(t, env, call, fate);
            && (said.None? ==> OpenFor(u, order, claim) && u.purchases[order].amount == i.amount)
            && (said == Some(NetworkError(true)) <==> fate.Unconfirmed?)
            && (said.Some? && !fate.Unconfirmed? ==> u == t)
            && (fate.Unconfirmed? ==> u == t || OpenFor(u, order, claim))
            && (said.Some? ==> said.value in {DisputeExists, ClaimWindowPast, ClaimantNotPayer, NetworkError(false), NetworkError(true)})
            && (said == Some(DisputeExists) ==> Rank(s.purchases[order].status) < Rank(t.purchases[order].status))
            && (said == Some(ClaimantNotPayer) ==> i.payer.Unknown? || (i.payer.Contract? && !verifies))
            && (said == Some(NetworkError(false)) && fate == Answer ==> i.payer.Account? && i.payer !in env.signers)
  {
    assert Filed(s, order);
    PurchaseSurvives(s, steps, order);
  }

  // ---------------------------------------------------------------- what the person is told

  /** The sentence `escrowMeaning` picks. */
  datatype Meaning =
    | PaymentHeld | ClaimOpensUntil(releaseAfter: nat) | StoreCanCollect(since: nat) | StoreCollected
    | StoreAnswersUntil(respondBy: nat) | NoAnswer(resolveBy: nat) | Answered(resolveBy: nat)
    | DecidedForStore | DecidedForPayer | DecidedInPart | RefundedForDelay

  function EscrowMeaning(p: Purchase, config: Config, millis: int): Meaning {
    var now := SecondsAt(millis);
    match p.status
    case Held => PaymentHeld
    case Shipped =>
      var releaseAfter := OrZero(OrNull(p.shippedAt)) + config.releaseWindow;
      if now < releaseAfter then ClaimOpensUntil(releaseAfter) else StoreCanCollect(releaseAfter)
    case Released => StoreCollected
    case Disputed =>
      var respondBy := OrZero(OrNull(p.openedAt)) + config.responseWindow;
      if now <= respondBy then StoreAnswersUntil(respondBy) else NoAnswer(respondBy + config.resolveWindow)
    case Responded => Answered(OrZero(OrNull(p.openedAt)) + config.responseWindow + config.resolveWindow)
    case Resolved =>
      if p.refund == 0 then DecidedForStore else if p.refund >= p.amount then DecidedForPayer else DecidedInPart
    case Expired => RefundedForDelay
  }

  predicate InvitesClaim(m: Meaning) {
    m.PaymentHeld? || m.ClaimOpensUntil?
  }

  /** The clock stays below every deadline the escrow's arithmetic could round down. */
  predicate TimesInReach(s: State, order: Order)
    requires order in s.purchases
  {
    WindowInReach(s, order) && LastSecond(s.config, s.purchases[order]) <= U64_MAX
  }

  /** Which sentence is said of a purchase that is not closed, and the date in it, before any rounding. */
  lemma {:induction false} DatesSaid(p: Purchase, config: Config, millis: int)
    ensures var m := EscrowMeaning(p, config, millis);
            var released, respond := p.shippedAt + config.releaseWindow, p.openedAt + config.responseWindow;
            && (p.status == Held ==> m == PaymentHeld)
            && (p.status == Shipped ==>
                  m == if millis < released * 1000 then ClaimOpensUntil(released) else StoreCanCollect(released))
            && (p.status == Disputed ==>
                  m == if millis < (respond + 1) * 1000 then StoreAnswersUntil(respond) else NoAnswer(respond + config.resolveWindow))
            && (p.status == Responded ==> m == Answered(respond + config.resolveWindow))
  {
  }

  ghost predicate ClaimPossible(s: State, t: Seconds, order: Order, hash: Hash) {
    Possible(s, t, Open(order, hash, Some(true)))
  }

  /** The date the person is told is the contract's own, at every second: the first at which it refuses a claim and lets
      the store collect, the last at which it takes the store's answer, the last at which it takes a verdict and after
      which it expires. What is said of an answer is whether the escrow holds one. */
  lemma {:induction false} DatesAreTheContracts(i: ClaimInput, s: State, order: Order, hash: Hash, t: Seconds)
    requires Sound(s) && ReadFrom(i, s, order) && !i.payer.Unknown? && TimesInReach(s, order)
    ensures match EscrowMeaning(s.purchases[order], s.config, i.millis)
            case ClaimOpensUntil(end) => ClaimPossible(s, t, order, hash) <==> t < end
            case StoreCanCollect(since) => Possible(s, t, Release(order)) <==> t >= since
            case StoreAnswersUntil(end) => Possible(s, t, Respond(order, hash)) <==> t <= end
            case NoAnswer(end) =>
              && s.purchases[order].responseHash.None?
              && (Possible(s, t, Expire(order)) <==> t > end)
              && (t >= SecondsAt(i.millis) ==> (ResolvePossible(s, t, order, hash) <==> t <= end))
            case Answered(end) =>
              && s.purchases[order].responseHash.Some?
              && (Possible(s, t, Expire(order)) <==> t > end) && (ResolvePossible(s, t, order, hash) <==> t <= end)
            case _ => true
  {
    var at := i.(millis := t * 1000);
    assert SecondsAt(at.millis) == t && ReadFrom(at, s, order);
    assert Filed(s, order);
    DatesSaid(s.purchases[order], s.config, i.millis);
    DatesSaid(s.purchases[order], s.config, at.millis);
    MeaningAgrees(at, s, order, hash);
    if InDispute(s.purchases[order]) {
      ResolveWindow(s, t, order, hash);
      ExpireWindow(s, t, order);
    }
  }

  /** The person hears that a claim can be opened, that the store can collect, or that the store can answer, exactly
      when the contract would do it; and the chat's own guard agrees. */
  lemma {:induction false} MeaningAgrees(i: ClaimInput, s: State, order: Order, hash: Hash)
    requires Sound(s) && ReadFrom(i, s, order) && !i.payer.Unknown? && TimesInReach(s, order)
    ensures var now, m := SecondsAt(i.millis), EscrowMeaning(s.purchases[order], s.config, i.millis);
            && (InvitesClaim(m) <==> CheckClaimableEscrow(i).Pass?)
            && (InvitesClaim(m) <==> Possible(s, now, Open(order, hash, Some(true))))
            && (m.StoreCanCollect? <==> Possible(s, now, Release(order)))
            && (m.StoreAnswersUntil? <==> Possible(s, now, Respond(order, hash)))
            && (m.NoAnswer? || m.Answered? <==> Possible(s, now, Expire(order)) || ResolvePossible(s, now, order, hash))
  {
    var now, p := SecondsAt(i.millis), s.purchases[order];
    assert Filed(s, order);
    ClaimGuardAgrees(i, s, order, hash);
    var env := Willing(s, order, now);
    ReleaseSucceedsWhen(s, env, order);
    assert Apply(s, env, Release(order)) == DoRelease(s, env, order);
    assert Apply(s, env, Respond(order, hash)).Ok? <==> p.status == Disputed && now <= AnswerBy(s.config, p);
    forall e: Env | e.now == now
      ensures Apply(s, e, Release(order)).Ok? ==> Apply(s, env, Release(order)).Ok?
      ensures Apply(s, e, Respond(order, hash)).Ok? ==> Apply(s, env, Respond(order, hash)).Ok?
      ensures !InDispute(p) ==> !Apply(s, e, Expire(order)).Ok? && !Apply(s, e, Resolve(order, hash, p.amount)).Ok?
    {
      ReleaseSucceedsWhen(s, e, order);
    }
    if InDispute(p) {
      ResolveWindow(s, now, order, hash);
      ExpireWindow(s, now, order);
    }
  }

  /** What is said of a closed purchase is where its money went, and what is still owed. */
  lemma {:induction false} MeaningOfOutcome(s: State, order: Order, millis: int)
    requires Sound(s) && order in s.purchases && Closed(s.purchases[order])
    ensures order in s.paid
    ensures var p, paid := s.purchases[order], s.paid[order];
            match EscrowMeaning(p, s.config, millis)
            case StoreCollected => paid == Paid(0, p.amount)
            case DecidedForStore => paid == Paid(0, p.amount)
            case DecidedForPayer => paid == Paid(p.amount - p.refundOwed, 0)
            case DecidedInPart => 0 < paid.toStore < p.amount && paid.toPayer + p.refundOwed + paid.toStore == p.amount
            case RefundedForDelay => paid == Paid(p.amount - p.refundOwed, 0)
            case _ => false
  {
    assert Filed(s, order);
  }
}
