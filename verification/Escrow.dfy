/** One store's purchases, held until they ship and released or refunded by the contract's own deadlines. */
module Escrow {
  import opened Results

  const U64_MAX := 0xFFFF_FFFF_FFFF_FFFF
  const I128_MAX := 0x7FFF_FFFF_FFFF_FFFF_FFFF_FFFF_FFFF_FFFF
  const MAX_ORDER_REF_LEN := 64

  type Hash = string
  type Order = string

  /** Whole seconds, as a ledger counts them. */
  type Seconds = t: nat | t <= U64_MAX

  datatype Address = Account(key: string) | Contract(id: string) | Unknown(bytes: string)

  datatype Error =
    | InvalidWindow | InvalidAmount | InvalidOrderRef | OrderAlreadyHeld | PaymentAlreadyHeld | InsufficientUnallocated
    | PurchaseNotFound | WrongStatus | ReleaseTooEarly | ClaimWindowClosed | MissingSignature | UnsupportedPayer
    | ResponseWindowClosed | ResponseWindowOpen | ResolveWindowClosed | ResolveWindowOpen | RefundExceedsAmount
    | NoRefundOwed | RefundUndeliverable | PayeeCannotReceive
    | Unauthorised | SignatureRefused | BalanceFull // the host stops the call

  datatype Config = Config(
    this_: Address, operator: Address, payee: Address, arbiter: Address,
    releaseWindow: Seconds, responseWindow: Seconds, resolveWindow: Seconds)

  datatype Status = Held | Shipped | Released | Disputed | Responded | Resolved | Expired

  datatype Purchase = Purchase(
    orderRef: Order, payer: Address, amount: int, txHash: Hash, receiptHash: Hash, status: Status,
    heldAt: Seconds, shippedAt: Seconds, claimHash: Option<Hash>, openedAt: Seconds,
    responseHash: Option<Hash>, verdictHash: Option<Hash>, refund: int, refundOwed: int, closedAt: Seconds)

  /** What has left the escrow for one purchase. */
  datatype Paid = Paid(toPayer: int, toStore: int)

  /** The contract's storage and its token balance, with a log of what it paid. */
  datatype State = State(
    config: Config, balance: int, allocation: int, purchases: map<Order, Purchase>, payments: map<Hash, Order>,
    paid: map<Order, Paid>, deposited: int, left: int)

  /** What the ledger brings to a call: its clock, who signed, and who can receive the token now. */
  datatype Env = Env(now: Seconds, signers: set<Address>, receivers: set<Address>)

  datatype Call =
    | Deposit(value: nat)
    | Hold(order: Order, payer: Address, amount: int, tx: Hash, receipt: Hash)
    | MarkShipped(order: Order)
    | Release(order: Order)
    | Open(order: Order, claim: Hash, signature: Option<bool>) // whether the rail owner's signature verifies
    | Respond(order: Order, response: Hash)
    | Resolve(order: Order, verdict: Hash, refund: int)
    | Expire(order: Order)
    | ClaimRefund(order: Order)

  function SaturatingAdd(a: Seconds, b: Seconds): Seconds {
    if a + b <= U64_MAX then a + b else U64_MAX
  }

  function Construct(config: Config): Result<State, Error> {
    if config.releaseWindow == 0 || config.responseWindow == 0 || config.resolveWindow == 0 then Err(InvalidWindow)
    else Ok(State(config, 0, 0, map[], map[], map[], 0, 0))
  }

  // ---------------------------------------------------------------- the calls

  function ReleaseAt(config: Config, p: Purchase): Seconds {
    SaturatingAdd(p.shippedAt, config.releaseWindow)
  }

  function AnswerBy(config: Config, p: Purchase): Seconds {
    SaturatingAdd(p.openedAt, config.responseWindow)
  }

  function ResolveDeadline(config: Config, p: Purchase): Seconds {
    SaturatingAdd(AnswerBy(config, p), config.resolveWindow)
  }

  function Unallocated(s: State): int {
    s.balance - s.allocation
  }

  function Save(s: State, p: Purchase): State {
    s.(purchases := s.purchases[p.orderRef := p])
  }

  /** The token moves value out of the escrow, if the receiver takes it and the balance holds it. Sent to the escrow
      itself, it stays. */
  function Transfer(s: State, env: Env, to: Address, value: int): Option<State> {
    if to !in env.receivers || value < 0 || value > s.balance then None
    else if to == s.config.this_ then Some(s)
    else Some(s.(balance := s.balance - value, left := s.left + value))
  }

  function NewPurchase(env: Env, order: Order, payer: Address, amount: int, tx: Hash, receipt: Hash): Purchase {
    Purchase(order, payer, amount, tx, receipt, Held, env.now, 0, None, 0, None, None, 0, 0, 0)
  }

  function DoHold(s: State, env: Env, order: Order, payer: Address, amount: int, tx: Hash, receipt: Hash)
      : Result<State, Error> {
    if s.config.operator !in env.signers then Err(Unauthorised)
    else if order == "" || |order| > MAX_ORDER_REF_LEN then Err(InvalidOrderRef)
    else if amount <= 0 then Err(InvalidAmount)
    else if order in s.purchases then Err(OrderAlreadyHeld)
    else if tx in s.payments then Err(PaymentAlreadyHeld)
    else if amount > Unallocated(s) then Err(InsufficientUnallocated)
    else
      var p := NewPurchase(env, order, payer, amount, tx, receipt);
      Ok(Save(s, p).(allocation := s.allocation + amount, payments := s.payments[tx := order],
                     paid := s.paid[order := Paid(0, 0)]))
  }

  function DoMarkShipped(s: State, env: Env, order: Order): Result<State, Error> {
    if s.config.operator !in env.signers then Err(Unauthorised)
    else if order !in s.purchases then Err(PurchaseNotFound)
    else
      var p := s.purchases[order];
      if p.status != Held then Err(WrongStatus)
      else Ok(Save(s, p.(status := Shipped, shippedAt := env.now)))
  }

  function DoRelease(s: State, env: Env, order: Order): Result<State, Error> {
    if order !in s.purchases then Err(PurchaseNotFound)
    else
      var p := s.purchases[order];
      if p.status != Shipped then Err(WrongStatus)
      else if env.now < ReleaseAt(s.config, p) then Err(ReleaseTooEarly)
      else Close(s, env, p, Released, 0)
  }

  /** A rail's owner signs the claim itself; a classic account signs the call. */
  function Consent(env: Env, payer: Address, signature: Option<bool>): Option<Error> {
    match payer
    case Account(_) => if payer in env.signers then None else Some(Unauthorised)
    case Contract(_) =>
      if signature.None? then Some(MissingSignature) else if signature.value then None else Some(SignatureRefused)
    case Unknown(_) => Some(UnsupportedPayer)
  }

  function DoOpen(s: State, env: Env, order: Order, claim: Hash, signature: Option<bool>): Result<State, Error> {
    if order !in s.purchases then Err(PurchaseNotFound)
    else
      var p := s.purchases[order];
      if p.status == Shipped && env.now >= ReleaseAt(s.config, p) then Err(ClaimWindowClosed)
      else if p.status != Held && p.status != Shipped then Err(WrongStatus)
      else
        match Consent(env, p.payer, signature)
        case Some(error) => Err(error)
        case None => Ok(Save(s, p.(status := Disputed, claimHash := Some(claim), openedAt := env.now)))
  }

  function DoRespond(s: State, env: Env, order: Order, response: Hash): Result<State, Error> {
    if s.config.payee !in env.signers then Err(Unauthorised)
    else if order !in s.purchases then Err(PurchaseNotFound)
    else
      var p := s.purchases[order];
      if p.status != Disputed then Err(WrongStatus)
      else if env.now > AnswerBy(s.config, p) then Err(ResponseWindowClosed)
      else Ok(Save(s, p.(status := Responded, responseHash := Some(response))))
  }

  function DoResolve(s: State, env: Env, order: Order, verdict: Hash, refund: int): Result<State, Error> {
    if s.config.arbiter !in env.signers then Err(Unauthorised)
    else if order !in s.purchases then Err(PurchaseNotFound)
    else
      var p := s.purchases[order];
      if p.status == Disputed && env.now <= AnswerBy(s.config, p) then Err(ResponseWindowOpen)
      else if p.status != Disputed && p.status != Responded then Err(WrongStatus)
      else if env.now > ResolveDeadline(s.config, p) then Err(ResolveWindowClosed)
      else if refund < 0 then Err(InvalidAmount)
      else if refund > p.amount then Err(RefundExceedsAmount)
      else Close(s, env, p.(verdictHash := Some(verdict)), Resolved, refund)
  }

  function DoExpire(s: State, env: Env, order: Order): Result<State, Error> {
    if order !in s.purchases then Err(PurchaseNotFound)
    else
      var p := s.purchases[order];
      if p.status != Disputed && p.status != Responded then Err(WrongStatus)
      else if env.now <= ResolveDeadline(s.config, p) then Err(ResolveWindowOpen)
      else Close(s, env, p, Expired, p.amount)
  }

  function DoClaimRefund(s: State, env: Env, order: Order): Result<State, Error> {
    if order !in s.purchases then Err(PurchaseNotFound)
    else
      var p := s.purchases[order];
      if p.refundOwed <= 0 then Err(NoRefundOwed)
      else
        match Transfer(s, env, p.payer, p.refundOwed)
        case None => Err(RefundUndeliverable)
        case Some(t) =>
          Ok(Save(t, p.(refundOwed := 0)).(allocation := t.allocation - p.refundOwed, paid := Sent(t, order, p.refundOwed, 0)))
  }

  function Sent(s: State, order: Order, toPayer: int, toStore: int): map<Order, Paid> {
    var before := if order in s.paid then s.paid[order] else Paid(0, 0);
    s.paid[order := Paid(before.toPayer + toPayer, before.toStore + toStore)]
  }

  /** The refund, sent if the payer takes it. */
  function AfterRefund(s: State, env: Env, payer: Address, refund: int): State {
    if refund == 0 then s
    else
      match Transfer(s, env, payer, refund)
      case None => s
      case Some(t) => t
  }

  function OwedAfter(s: State, env: Env, payer: Address, refund: int): int {
    if refund == 0 || Transfer(s, env, payer, refund).Some? then 0 else refund
  }

  /** The outcome recorded, and the allocation freed of all but what is still owed. */
  function Booked(s: State, env: Env, p: Purchase, status: Status, refund: int, owed: int): State {
    Save(s, p.(status := status, refund := refund, refundOwed := owed, closedAt := env.now))
      .(allocation := s.allocation - p.amount + owed)
  }

  function PayStore(s: State, env: Env, order: Order, toStore: int, toPayer: int): Result<State, Error> {
    if toStore > 0 then
      match Transfer(s, env, s.config.payee, toStore)
      case None => Err(PayeeCannotReceive)
      case Some(t) => Ok(t.(paid := Sent(t, order, toPayer, toStore)))
    else Ok(s.(paid := Sent(s, order, toPayer, 0)))
  }

  /** The refund to the payer, the rest to the store. A refund that cannot be delivered stays here, owed; a store that
      cannot receive undoes the whole call. */
  function Close(s: State, env: Env, p: Purchase, status: Status, refund: int): Result<State, Error> {
    var owed := OwedAfter(s, env, p.payer, refund);
    var booked := Booked(AfterRefund(s, env, p.payer, refund), env, p, status, refund, owed);
    PayStore(booked, env, p.orderRef, p.amount - refund, refund - owed)
  }

  /** A payment lands by the token's own transfer. */
  function DoDeposit(s: State, value: nat): Result<State, Error> {
    if s.balance + value > I128_MAX then Err(BalanceFull)
    else Ok(s.(balance := s.balance + value, deposited := s.deposited + value))
  }

  function Apply(s: State, env: Env, call: Call): Result<State, Error> {
    match call
    case Deposit(value) => DoDeposit(s, value)
    case Hold(order, payer, amount, tx, receipt) => DoHold(s, env, order, payer, amount, tx, receipt)
    case MarkShipped(order) => DoMarkShipped(s, env, order)
    case Release(order) => DoRelease(s, env, order)
    case Open(order, claim, signature) => DoOpen(s, env, order, claim, signature)
    case Respond(order, response) => DoRespond(s, env, order, response)
    case Resolve(order, verdict, refund) => DoResolve(s, env, order, verdict, refund)
    case Expire(order) => DoExpire(s, env, order)
    case ClaimRefund(order) => DoClaimRefund(s, env, order)
  }

  /** A call that fails changes nothing. */
  function After(s: State, env: Env, call: Call): State {
    match Apply(s, env, call)
    case Ok(t) => t
    case Err(_) => s
  }

  datatype Step = Step(env: Env, call: Call)

  function Run(s: State, steps: seq<Step>): State {
    if steps == [] then s
    else
      var last := steps[|steps| - 1];
      After(Run(s, steps[..|steps| - 1]), last.env, last.call)
  }

  // ---------------------------------------------------------------- what is owed

  predicate Closed(p: Purchase) {
    p.status == Released || p.status == Resolved || p.status == Expired
  }

  predicate InDispute(p: Purchase) {
    p.status == Disputed || p.status == Responded
  }

  /** What the escrow must still keep for a purchase. */
  function Outstanding(p: Purchase): int {
    if Closed(p) then p.refundOwed else p.amount
  }

  ghost function Owing(purchases: map<Order, Purchase>): int
    decreases |purchases|
  {
    if |purchases| == 0 then 0
    else
      var order :| order in purchases;
      Outstanding(purchases[order]) + Owing(purchases - {order})
  }

  lemma {:induction false} OwingFirst(purchases: map<Order, Purchase>) returns (first: Order)
    requires |purchases| > 0
    ensures first in purchases
    ensures Owing(purchases) == Outstanding(purchases[first]) + Owing(purchases - {first})
  {
    first :| first in purchases && Owing(purchases) == Outstanding(purchases[first]) + Owing(purchases - {first});
  }

  lemma {:induction false} WithoutBoth(purchases: map<Order, Purchase>, a: Order, b: Order)
    ensures purchases - {a} - {b} == purchases - {b} - {a}
  {
  }

  lemma {:induction false} OwingWithout(purchases: map<Order, Purchase>, order: Order)
    requires order in purchases
    ensures Owing(purchases) == Outstanding(purchases[order]) + Owing(purchases - {order})
    decreases |purchases|
  {
    var first := OwingFirst(purchases);
    if first != order {
      OwingWithout(purchases - {first}, order);
      OwingWithout(purchases - {order}, first);
      WithoutBoth(purchases, first, order);
    }
  }

  lemma {:induction false} OwingUpdate(purchases: map<Order, Purchase>, order: Order, p: Purchase)
    ensures Owing(purchases[order := p])
         == Owing(purchases) - (if order in purchases then Outstanding(purchases[order]) else 0) + Outstanding(p)
  {
    OwingWithout(purchases[order := p], order);
    if order in purchases {
      OwingWithout(purchases, order);
      assert purchases[order := p] - {order} == purchases - {order};
    } else {
      assert purchases[order := p] - {order} == purchases;
    }
  }

  lemma {:induction false} OwingAtLeast(purchases: map<Order, Purchase>, order: Order)
    requires order in purchases && forall o | o in purchases :: Outstanding(purchases[o]) >= 0
    ensures Owing(purchases) >= Outstanding(purchases[order])
  {
    OwingWithout(purchases, order);
    OwingNotNegative(purchases - {order});
  }

  lemma {:induction false} OwingNotNegative(purchases: map<Order, Purchase>)
    requires forall o | o in purchases :: Outstanding(purchases[o]) >= 0
    ensures Owing(purchases) >= 0
    decreases |purchases|
  {
    if |purchases| > 0 {
      var first := OwingFirst(purchases);
      OwingNotNegative(purchases - {first});
    }
  }

  // ---------------------------------------------------------------- every run

  /** A purchase's money is all accounted for: with the payer, with the store, or still here. */
  predicate Accounted(p: Purchase, paid: Paid) {
    && p.amount > 0
    && paid.toPayer + paid.toStore + Outstanding(p) == p.amount
    && 0 <= p.refund <= p.amount
    && (p.refundOwed == 0 || p.refundOwed == p.refund)
    && (Closed(p) ==> paid == Paid(p.refund - p.refundOwed, p.amount - p.refund))
    && (!Closed(p) ==> paid == Paid(0, 0) && p.refund == 0 && p.refundOwed == 0)
    && (p.status == Released ==> p.refund == 0)
    && (p.status == Expired ==> p.refund == p.amount)
    && (p.status == Responded ==> p.responseHash.Some?)
    && (p.status == Disputed ==> p.responseHash.None?)
    && (p.status == Resolved <==> p.verdictHash.Some?)
    && (p.status == Held || p.status == Shipped ==> p.claimHash.None? && p.responseHash.None?)
    && (InDispute(p) || p.responseHash.Some? ==> p.claimHash.Some?)
  }

  /** A purchase is filed under its own order, and its payment points back at it. */
  predicate Filed(s: State, order: Order) {
    order in s.purchases ==>
      && s.purchases[order].orderRef == order
      && order in s.paid && Accounted(s.purchases[order], s.paid[order])
      && s.purchases[order].txHash in s.payments && s.payments[s.purchases[order].txHash] == order
  }

  ghost predicate Sound(s: State) {
    && s.config.releaseWindow > 0 && s.config.responseWindow > 0 && s.config.resolveWindow > 0
    && s.allocation == Owing(s.purchases)
    && 0 <= s.allocation <= s.balance <= I128_MAX
    && s.balance + s.left == s.deposited
    && forall order :: Filed(s, order)
  }

  lemma {:induction false} AllocationCovers(s: State, order: Order)
    requires Sound(s) && order in s.purchases
    ensures 0 <= Outstanding(s.purchases[order]) <= s.allocation
  {
    forall o | o in s.purchases ensures Outstanding(s.purchases[o]) >= 0 {
      assert Filed(s, o);
    }
    OwingAtLeast(s.purchases, order);
  }

  /** What a call may change: one purchase, the money it moves, nothing of the others. */
  ghost predicate Touches(s: State, t: State, order: Order) {
    && t.config == s.config
    && t.purchases.Keys == s.purchases.Keys + {order}
    && (forall o | o in s.purchases && o != order :: t.purchases[o] == s.purchases[o])
    && (forall o | o in s.paid && o != order :: o in t.paid && t.paid[o] == s.paid[o])
  }

  /** A touched state is sound when its one purchase is, and the allocation moved with it. */
  lemma {:induction false} SoundAfter(s: State, t: State, order: Order)
    requires Sound(s) && Touches(s, t, order)
    requires order in s.purchases && t.payments == s.payments && t.purchases[order].txHash == s.purchases[order].txHash
    requires t.purchases[order].orderRef == order && order in t.paid && Accounted(t.purchases[order], t.paid[order])
    requires t.allocation == s.allocation - Outstanding(s.purchases[order]) + Outstanding(t.purchases[order])
    requires t.allocation <= t.balance <= I128_MAX && t.balance + t.left == t.deposited
    ensures Sound(t)
  {
    assert t.purchases == s.purchases[order := t.purchases[order]];
    OwingUpdate(s.purchases, order, t.purchases[order]);
    assert Filed(s, order);
    forall o ensures Filed(t, o) {
      assert Filed(s, o);
    }
    forall o | o in t.purchases ensures Outstanding(t.purchases[o]) >= 0 {
      assert Filed(t, o);
    }
    OwingNotNegative(t.purchases);
  }

  /** A new purchase, under an order and a payment the escrow has not seen. */
  lemma {:induction false} AddedIsFiled(s: State, t: State, p: Purchase)
    requires Sound(s) && p.orderRef !in s.purchases && p.txHash !in s.payments && Accounted(p, Paid(0, 0))
    requires t.purchases == s.purchases[p.orderRef := p] && t.payments == s.payments[p.txHash := p.orderRef]
    requires t.paid == s.paid[p.orderRef := Paid(0, 0)]
    ensures forall o :: Filed(t, o)
  {
    forall o ensures Filed(t, o) {
      assert Filed(s, o);
    }
  }

  lemma {:induction false} HoldIsSound(s: State, env: Env, order: Order, payer: Address, amount: int, tx: Hash, receipt: Hash)
    requires Sound(s) && DoHold(s, env, order, payer, amount, tx, receipt).Ok?
    ensures Sound(DoHold(s, env, order, payer, amount, tx, receipt).value)
  {
    var p := NewPurchase(env, order, payer, amount, tx, receipt);
    var t := DoHold(s, env, order, payer, amount, tx, receipt).value;
    OwingUpdate(s.purchases, order, p);
    AddedIsFiled(s, t, p);
  }

  /** The closed purchase, with its refund delivered or owed. */
  function ClosedAs(p: Purchase, env: Env, status: Status, refund: int): Purchase {
    p.(status := status, refund := refund, closedAt := env.now,
       refundOwed := if p.payer in env.receivers then 0 else refund)
  }

  /** A transfer the receiver takes, out of a balance that holds it. */
  lemma {:induction false} TransferEffect(s: State, env: Env, to: Address, value: int)
    requires 0 <= value <= s.balance
    ensures Transfer(s, env, to, value).Some? <==> to in env.receivers
    ensures to in env.receivers ==>
              var t := Transfer(s, env, to, value).value;
              && t == s.(balance := t.balance, left := t.left)
              && t.balance + t.left == s.balance + s.left && s.balance - value <= t.balance <= s.balance
  {
  }

  lemma {:induction false} RefundEffect(s: State, env: Env, payer: Address, refund: int)
    requires 0 <= refund <= s.balance
    ensures OwedAfter(s, env, payer, refund) == if payer in env.receivers then 0 else refund
    ensures var t := AfterRefund(s, env, payer, refund);
            && t == s.(balance := t.balance, left := t.left)
            && t.balance + t.left == s.balance + s.left
            && s.balance - refund + OwedAfter(s, env, payer, refund) <= t.balance <= s.balance
  {
    TransferEffect(s, env, payer, refund);
  }

  lemma {:induction false} PayStoreEffect(s: State, env: Env, order: Order, toStore: int, toPayer: int)
    requires 0 <= toStore <= s.balance
    ensures PayStore(s, env, order, toStore, toPayer).Ok? <==> toStore == 0 || s.config.payee in env.receivers
    ensures PayStore(s, env, order, toStore, toPayer).Ok? ==>
              var t := PayStore(s, env, order, toStore, toPayer).value;
              && t == s.(balance := t.balance, left := t.left, paid := Sent(s, order, toPayer, toStore))
              && t.balance + t.left == s.balance + s.left && s.balance - toStore <= t.balance <= s.balance
  {
    TransferEffect(s, env, s.config.payee, toStore);
  }

  /** Closing pays out what the outcome says and frees what it no longer owes. */
  lemma {:induction false} CloseEffect(s: State, env: Env, p: Purchase, status: Status, refund: int)
    requires 0 <= refund <= p.amount <= s.allocation <= s.balance
    ensures Close(s, env, p, status, refund).Ok? <==> refund == p.amount || s.config.payee in env.receivers
    ensures Close(s, env, p, status, refund).Ok? ==>
              var t, q := Close(s, env, p, status, refund).value, ClosedAs(p, env, status, refund);
              && t == s.(balance := t.balance, left := t.left, purchases := s.purchases[p.orderRef := q],
                         allocation := s.allocation - p.amount + q.refundOwed,
                         paid := Sent(s, p.orderRef, refund - q.refundOwed, p.amount - refund))
              && t.allocation <= t.balance <= s.balance
              && t.balance + t.left == s.balance + s.left
  {
    hide Transfer, AfterRefund, OwedAfter, PayStore;
    RefundEffect(s, env, p.payer, refund);
    var owed := OwedAfter(s, env, p.payer, refund);
    var booked := Booked(AfterRefund(s, env, p.payer, refund), env, p, status, refund, owed);
    PayStoreEffect(booked, env, p.orderRef, p.amount - refund, refund - owed);
  }

  lemma {:induction false} CloseIsSound(s: State, env: Env, p: Purchase, status: Status, refund: int)
    requires Sound(s) && p.orderRef in s.purchases && Close(s, env, p, status, refund).Ok?
    requires var was := s.purchases[p.orderRef]; p == was.(verdictHash := p.verdictHash) && !Closed(was)
    requires 0 <= refund <= p.amount && (status == Released || status == Resolved || status == Expired)
    requires (status == Released ==> refund == 0) && (status == Expired ==> refund == p.amount)
    requires status == Resolved <==> p.verdictHash.Some?
    ensures var t := Close(s, env, p, status, refund).value;
            && Sound(t) && Touches(s, t, p.orderRef)
            && t.purchases[p.orderRef] == ClosedAs(p, env, status, refund)
  {
    hide Close, Owing;
    var order := p.orderRef;
    AllocationCovers(s, order);
    CloseEffect(s, env, p, status, refund);
    assert Filed(s, order);
    SoundAfter(s, Close(s, env, p, status, refund).value, order);
  }

  lemma {:induction false} ClaimIsSound(s: State, env: Env, order: Order)
    requires Sound(s) && DoClaimRefund(s, env, order).Ok?
    ensures var t := DoClaimRefund(s, env, order).value; Sound(t) && Touches(s, t, order)
  {
    var t := DoClaimRefund(s, env, order).value;
    AllocationCovers(s, order);
    assert Filed(s, order);
    SoundAfter(s, t, order);
  }

  lemma {:induction false} DepositIsSound(s: State, value: nat)
    requires Sound(s) && DoDeposit(s, value).Ok?
    ensures Sound(DoDeposit(s, value).value)
  {
    forall o ensures Filed(DoDeposit(s, value).value, o) {
      assert Filed(s, o);
    }
  }

  /** A call that only advances one purchase, without moving money. */
  lemma {:induction false} AdvanceIsSound(s: State, p: Purchase)
    requires Sound(s) && p.orderRef in s.purchases && !Closed(s.purchases[p.orderRef]) && !Closed(p)
    requires p.amount == s.purchases[p.orderRef].amount && p.txHash == s.purchases[p.orderRef].txHash
    requires p.orderRef in s.paid && Accounted(p, s.paid[p.orderRef])
    ensures Sound(Save(s, p))
  {
    SoundAfter(s, Save(s, p), p.orderRef);
  }

  lemma {:induction false} PaymentStepIsSound(s: State, env: Env, call: Call)
    requires Sound(s) && Apply(s, env, call).Ok? && (call.Release? || call.Resolve? || call.Expire?)
    ensures Sound(Apply(s, env, call).value)
  {
    assert Filed(s, call.order);
    var p := s.purchases[call.order];
    match call {
      case Release(_) => CloseIsSound(s, env, p, Released, 0);
      case Resolve(_, verdict, refund) => CloseIsSound(s, env, p.(verdictHash := Some(verdict)), Resolved, refund);
      case Expire(_) => CloseIsSound(s, env, p, Expired, p.amount);
    }
  }

  lemma {:induction false} StepIsSound(s: State, env: Env, call: Call)
    requires Sound(s)
    ensures Sound(After(s, env, call))
  {
    if Apply(s, env, call).Ok? {
      if call.Release? || call.Resolve? || call.Expire? {
        PaymentStepIsSound(s, env, call);
      } else if call.MarkShipped? || call.Open? || call.Respond? {
        assert Filed(s, call.order);
        AdvanceIsSound(s, Apply(s, env, call).value.purchases[call.order]);
      } else {
        match call {
          case Deposit(value) => DepositIsSound(s, value);
          case Hold(order, payer, amount, tx, receipt) => HoldIsSound(s, env, order, payer, amount, tx, receipt);
          case ClaimRefund(order) => ClaimIsSound(s, env, order);
        }
      }
    }
  }

  /** In every reachable state the escrow can pay all it owes, purchase by purchase and in total. */
  lemma {:induction false} RunIsSound(config: Config, steps: seq<Step>)
    requires Construct(config).Ok?
    ensures Sound(Run(Construct(config).value, steps))
  {
    var s := Construct(config).value;
    if steps != [] {
      var before := steps[..|steps| - 1];
      RunIsSound(config, before);
      StepIsSound(Run(s, before), steps[|steps| - 1].env, steps[|steps| - 1].call);
    }
  }

  /** The conservation law read off any reachable state, order by order. */
  lemma {:induction false} MoneyIsConserved(config: Config, steps: seq<Step>, order: Order)
    requires Construct(config).Ok? && order in Run(Construct(config).value, steps).purchases
    ensures var s := Run(Construct(config).value, steps);
            var p := s.purchases[order];
            && order in s.paid
            && s.paid[order].toPayer + s.paid[order].toStore + Outstanding(p) == p.amount
            && 0 <= p.refundOwed <= p.refund <= p.amount
            && 0 <= Outstanding(p) <= s.allocation <= s.balance
            && s.balance + s.left == s.deposited
  {
    RunIsSound(config, steps);
    var s := Run(Construct(config).value, steps);
    assert Filed(s, order);
    AllocationCovers(s, order);
  }

  /** One payment backs one purchase. */
  lemma {:induction false} PaymentsAreUnique(config: Config, steps: seq<Step>, a: Order, b: Order)
    requires Construct(config).Ok?
    requires var s := Run(Construct(config).value, steps);
             a in s.purchases && b in s.purchases && s.purchases[a].txHash == s.purchases[b].txHash
    ensures a == b
  {
    RunIsSound(config, steps);
    var s := Run(Construct(config).value, steps);
    assert Filed(s, a) && Filed(s, b);
  }

  // ---------------------------------------------------------------- how a purchase moves

  function Rank(status: Status): nat {
    match status
    case Held => 0
    case Shipped => 1
    case Disputed => 2
    case Responded => 3
    case Released => 4
    case Resolved => 4
    case Expired => 4
  }

  /** Nothing that identifies a purchase ever changes. */
  predicate SameIdentity(p: Purchase, q: Purchase) {
    && q.orderRef == p.orderRef && q.payer == p.payer && q.amount == p.amount && q.txHash == p.txHash
    && q.receiptHash == p.receiptHash && q.heldAt == p.heldAt
  }

  /** A purchase after one call: untouched, further along, or relieved of the refund it owed. */
  predicate Moves(p: Purchase, q: Purchase) {
    && SameIdentity(p, q)
    && (q == p || Rank(p.status) < Rank(q.status) || (Closed(p) && p.refundOwed > 0 && q == p.(refundOwed := 0)))
    && (p.claimHash.Some? ==> q.claimHash == p.claimHash && q.openedAt == p.openedAt)
    && (p.responseHash.Some? ==> q.responseHash == p.responseHash)
  }

  lemma {:induction false} PaymentStepMoves(s: State, env: Env, call: Call)
    requires Sound(s) && Apply(s, env, call).Ok? && (call.Release? || call.Resolve? || call.Expire?)
    ensures var t := Apply(s, env, call).value;
            && t.purchases == s.purchases[call.order := t.purchases[call.order]]
            && Moves(s.purchases[call.order], t.purchases[call.order])
  {
    hide Close;
    assert Filed(s, call.order);
    AllocationCovers(s, call.order);
    var p := s.purchases[call.order];
    match call {
      case Release(_) => CloseEffect(s, env, p, Released, 0);
      case Resolve(_, verdict, refund) => CloseEffect(s, env, p.(verdictHash := Some(verdict)), Resolved, refund);
      case Expire(_) => CloseEffect(s, env, p, Expired, p.amount);
    }
  }

  lemma {:induction false} StepMoves(s: State, env: Env, call: Call, order: Order)
    requires Sound(s) && order in s.purchases
    ensures var t := After(s, env, call);
            order in t.purchases && Moves(s.purchases[order], t.purchases[order])
  {
    assert Filed(s, order);
    if Apply(s, env, call).Ok? {
      if call.Release? || call.Resolve? || call.Expire? {
        PaymentStepMoves(s, env, call);
      } else if !call.Deposit? {
        assert Filed(s, call.order);
      }
    }
  }

  /** Once closed, closed for good: only the owed refund can still be delivered. */
  predicate Final(p: Purchase, q: Purchase) {
    q == p || (p.refundOwed > 0 && q == p.(refundOwed := 0))
  }

  lemma {:induction false} OutcomesAreFinal(config: Config, steps: seq<Step>, more: seq<Step>, order: Order)
    requires Construct(config).Ok?
    requires var s := Run(Construct(config).value, steps); order in s.purchases && Closed(s.purchases[order])
    ensures var s, t := Run(Construct(config).value, steps), Run(Construct(config).value, steps + more);
            order in t.purchases && Final(s.purchases[order], t.purchases[order])
    decreases |more|
  {
    var start := Construct(config).value;
    if more == [] {
      assert steps + more == steps;
    } else {
      var before := more[..|more| - 1];
      assert (steps + more)[..|steps + more| - 1] == steps + before;
      OutcomesAreFinal(config, steps, before, order);
      RunIsSound(config, steps + before);
      var last := more[|more| - 1];
      StepMoves(Run(start, steps + before), last.env, last.call, order);
    }
  }

  // ---------------------------------------------------------------- who put it there, and when

  predicate HeldBy(step: Step, config: Config, p: Purchase) {
    step.call == Hold(p.orderRef, p.payer, p.amount, p.txHash, p.receiptHash)
    && config.operator in step.env.signers && step.env.now == p.heldAt
  }

  predicate OpenedBy(step: Step, p: Purchase) {
    step.call.Open? && step.call.order == p.orderRef && p.claimHash == Some(step.call.claim)
    && Consent(step.env, p.payer, step.call.signature) == None && step.env.now == p.openedAt
  }

  predicate AnsweredBy(step: Step, config: Config, p: Purchase) {
    step.call.Respond? && step.call.order == p.orderRef && p.responseHash == Some(step.call.response)
    && config.payee in step.env.signers && step.env.now <= AnswerBy(config, p)
  }

  predicate ResolvedBy(step: Step, config: Config, p: Purchase) {
    step.call.Resolve? && step.call.order == p.orderRef && p.verdictHash == Some(step.call.verdict)
    && step.call.refund == p.refund && config.arbiter in step.env.signers && step.env.now == p.closedAt
  }

  /** What a step leaves recorded of a purchase: what was there, or what this step's signer brought. */
  predicate Explains(step: Step, config: Config, p: Purchase, q: Purchase) {
    && SameIdentity(p, q)
    && ((q.claimHash == p.claimHash && q.openedAt == p.openedAt) || OpenedBy(step, q))
    && (q.responseHash == p.responseHash || AnsweredBy(step, config, q))
    && ((q.verdictHash == p.verdictHash && (p.verdictHash.Some? ==> q.refund == p.refund && q.closedAt == p.closedAt))
        || ResolvedBy(step, config, q))
  }

  lemma {:induction false} PaymentExplains(s: State, env: Env, call: Call)
    requires Sound(s) && Apply(s, env, call).Ok? && (call.Release? || call.Resolve? || call.Expire?)
    ensures var t := Apply(s, env, call).value;
            && t.purchases == s.purchases[call.order := t.purchases[call.order]]
            && Explains(Step(env, call), s.config, s.purchases[call.order], t.purchases[call.order])
  {
    hide Close;
    assert Filed(s, call.order);
    AllocationCovers(s, call.order);
    var p := s.purchases[call.order];
    match call {
      case Release(_) => CloseEffect(s, env, p, Released, 0);
      case Resolve(_, verdict, refund) => CloseEffect(s, env, p.(verdictHash := Some(verdict)), Resolved, refund);
      case Expire(_) => CloseEffect(s, env, p, Expired, p.amount);
    }
  }

  lemma {:induction false} StepExplains(s: State, env: Env, call: Call, order: Order)
    requires Sound(s) && order in After(s, env, call).purchases
    ensures var q := After(s, env, call).purchases[order];
            if order in s.purchases then Explains(Step(env, call), s.config, s.purchases[order], q)
            else HeldBy(Step(env, call), s.config, q) && q.claimHash.None? && q.responseHash.None? && q.verdictHash.None?
  {
    hide Close;
    assert Filed(s, order);
    if Apply(s, env, call).Ok? {
      if call.Release? || call.Resolve? || call.Expire? {
        PaymentExplains(s, env, call);
      } else if !call.Deposit? {
        assert Filed(s, call.order);
      }
    }
  }

  /** The call a recorded fact comes from is in the run, by the party entitled to make it. */
  predicate Explained(steps: seq<Step>, config: Config, p: Purchase) {
    && (exists i | 0 <= i < |steps| :: HeldBy(steps[i], config, p))
    && (p.claimHash.Some? ==> exists i | 0 <= i < |steps| :: OpenedBy(steps[i], p))
    && (p.responseHash.Some? ==> exists i | 0 <= i < |steps| :: AnsweredBy(steps[i], config, p))
    && (p.verdictHash.Some? ==> exists i | 0 <= i < |steps| :: ResolvedBy(steps[i], config, p))
  }

  lemma {:induction false} StillExplained(before: seq<Step>, step: Step, config: Config, p: Purchase, q: Purchase)
    requires Explained(before, config, p) && Explains(step, config, p, q)
    requires p.responseHash.Some? ==> p.claimHash.Some? && q.openedAt == p.openedAt
    ensures Explained(before + [step], config, q)
  {
    var steps := before + [step];
    assert steps[|before|] == step;
    assert forall i | 0 <= i < |before| :: steps[i] == before[i];
    var h :| 0 <= h < |before| && HeldBy(before[h], config, p);
    assert HeldBy(steps[h], config, q);
    if q.claimHash.Some? && !OpenedBy(step, q) {
      var i :| 0 <= i < |before| && OpenedBy(before[i], p);
      assert OpenedBy(steps[i], q);
    }
    if q.responseHash.Some? && !AnsweredBy(step, config, q) {
      var i :| 0 <= i < |before| && AnsweredBy(before[i], config, p);
      assert AnsweredBy(steps[i], config, q);
    }
    if q.verdictHash.Some? && !ResolvedBy(step, config, q) {
      var i :| 0 <= i < |before| && ResolvedBy(before[i], config, p);
      assert ResolvedBy(steps[i], config, q);
    }
  }

  /** In every reachable state, every fact of a purchase was put there by the party entitled to: the operator's hold, the
      payer's consent, the store's answer in its window, the arbiter's verdict with its refund. */
  lemma {:induction false} EveryFactIsAuthorised(config: Config, steps: seq<Step>, order: Order)
    requires Construct(config).Ok? && order in Run(Construct(config).value, steps).purchases
    ensures Run(Construct(config).value, steps).config == config
    ensures Explained(steps, config, Run(Construct(config).value, steps).purchases[order])
  {
    var s := Construct(config).value;
    var before, last := steps[..|steps| - 1], steps[|steps| - 1];
    var was := Run(s, before);
    RunIsSound(config, before);
    ConfigNeverChanges(config, before);
    ConfigNeverChanges(config, steps);
    StepExplains(was, last.env, last.call, order);
    assert steps == before + [last];
    if order in was.purchases {
      EveryFactIsAuthorised(config, before, order);
      assert Filed(was, order);
      StepMoves(was, last.env, last.call, order);
      StillExplained(before, last, config, was.purchases[order], Run(s, steps).purchases[order]);
    }
  }

  lemma {:induction false} ConfigStays(s: State, env: Env, call: Call)
    requires Sound(s)
    ensures After(s, env, call).config == s.config
  {
    hide Close;
    if Apply(s, env, call).Ok? && (call.Release? || call.Expire? || call.Resolve?) {
      assert Filed(s, call.order);
      AllocationCovers(s, call.order);
      var p := s.purchases[call.order];
      match call {
        case Release(_) => CloseEffect(s, env, p, Released, 0);
        case Expire(_) => CloseEffect(s, env, p, Expired, p.amount);
        case Resolve(_, verdict, refund) => CloseEffect(s, env, p.(verdictHash := Some(verdict)), Resolved, refund);
      }
    }
  }

  lemma {:induction false} ConfigNeverChanges(config: Config, steps: seq<Step>)
    requires Construct(config).Ok?
    ensures Run(Construct(config).value, steps).config == config
  {
    if steps != [] {
      var before, last := steps[..|steps| - 1], steps[|steps| - 1];
      ConfigNeverChanges(config, before);
      RunIsSound(config, before);
      ConfigStays(Run(Construct(config).value, before), last.env, last.call);
    }
  }

  /** The dates of a purchase are in order and respect the windows. */
  predicate Timely(config: Config, p: Purchase, now: Seconds) {
    && p.heldAt <= now
    && (p.claimHash.Some? <==> p.status == Disputed || p.status == Responded || p.status == Resolved || p.status == Expired)
    && (p.status == Held ==> p.shippedAt == 0)
    && (p.status == Shipped ==> p.heldAt <= p.shippedAt <= now)
    && (p.status == Released ==> p.heldAt <= p.shippedAt && ReleaseAt(config, p) <= p.closedAt <= now)
    && (p.claimHash.Some? ==> p.heldAt <= p.openedAt <= now)
    && (p.claimHash.Some? && p.shippedAt > 0 ==> p.heldAt <= p.shippedAt <= p.openedAt < ReleaseAt(config, p))
    && (p.status == Resolved ==> p.openedAt <= p.closedAt <= now && p.closedAt <= ResolveDeadline(config, p))
    && (p.status == Resolved && p.responseHash.None? ==> p.closedAt > AnswerBy(config, p))
    && (p.status == Expired ==> ResolveDeadline(config, p) < p.closedAt <= now)
  }

  lemma {:induction false} PaymentIsTimely(s: State, env: Env, call: Call, was: Seconds)
    requires Sound(s) && Apply(s, env, call).Ok? && (call.Release? || call.Resolve? || call.Expire?)
    requires Timely(s.config, s.purchases[call.order], was) && was <= env.now
    ensures var t := Apply(s, env, call).value;
            && t.purchases == s.purchases[call.order := t.purchases[call.order]]
            && Timely(s.config, t.purchases[call.order], env.now)
  {
    hide Close;
    assert Filed(s, call.order);
    AllocationCovers(s, call.order);
    var p := s.purchases[call.order];
    match call {
      case Release(_) => CloseEffect(s, env, p, Released, 0);
      case Resolve(_, verdict, refund) => CloseEffect(s, env, p.(verdictHash := Some(verdict)), Resolved, refund);
      case Expire(_) => CloseEffect(s, env, p, Expired, p.amount);
    }
  }

  /** A call that moves no money to the payer or the store as an outcome. */
  lemma {:induction false} AdvanceIsTimely(s: State, env: Env, call: Call, was: Seconds)
    requires Sound(s) && Apply(s, env, call).Ok? && was <= env.now
    requires call.MarkShipped? || call.Open? || call.Respond? || call.ClaimRefund?
    requires Timely(s.config, s.purchases[call.order], was)
    ensures var t := Apply(s, env, call).value;
            && t.purchases == s.purchases[call.order := t.purchases[call.order]]
            && Timely(s.config, t.purchases[call.order], env.now)
  {
    assert Filed(s, call.order);
  }

  lemma {:induction false} RecordingIsTimely(s: State, env: Env, call: Call, order: Order)
    requires Apply(s, env, call).Ok? && (call.Deposit? || call.Hold?)
    requires order in Apply(s, env, call).value.purchases
    ensures var q := Apply(s, env, call).value.purchases[order];
            if order in s.purchases then q == s.purchases[order] else Timely(s.config, q, env.now)
  {
  }

  lemma {:induction false} StillTimely(config: Config, p: Purchase, was: Seconds, now: Seconds)
    requires Timely(config, p, was) && was <= now
    ensures Timely(config, p, now)
  {
  }

  lemma {:induction false} StepIsTimely(s: State, env: Env, call: Call, order: Order, was: Seconds)
    requires Sound(s) && order in After(s, env, call).purchases && was <= env.now
    requires forall o | o in s.purchases :: Timely(s.config, s.purchases[o], was)
    ensures Timely(s.config, After(s, env, call).purchases[order], env.now)
  {
    if order in s.purchases {
      StillTimely(s.config, s.purchases[order], was, env.now);
    }
    if Apply(s, env, call).Ok? {
      if call.Deposit? || call.Hold? {
        RecordingIsTimely(s, env, call, order);
      } else {
        assert call.order in s.purchases;
        if call.Release? || call.Resolve? || call.Expire? {
          PaymentIsTimely(s, env, call, was);
        } else {
          AdvanceIsTimely(s, env, call, was);
        }
      }
    }
  }

  /** The clock of the last step, or the first second. */
  function LastNow(steps: seq<Step>): Seconds {
    if steps == [] then 0 else steps[|steps| - 1].env.now
  }

  predicate Monotone(steps: seq<Step>) {
    forall i | 0 < i < |steps| :: steps[i - 1].env.now <= steps[i].env.now
  }

  /** Under a clock that never goes back, no store is paid before its window closes or after a claim, no claim opens after
      it, and every outcome falls in the window it belongs to. */
  lemma {:induction false} DatesAreInOrder(config: Config, steps: seq<Step>, order: Order)
    requires Construct(config).Ok? && Monotone(steps)
    requires order in Run(Construct(config).value, steps).purchases
    ensures Timely(config, Run(Construct(config).value, steps).purchases[order], LastNow(steps))
  {
    var s := Construct(config).value;
    var before, last := steps[..|steps| - 1], steps[|steps| - 1];
    var was := Run(s, before);
    RunIsSound(config, before);
    ConfigNeverChanges(config, before);
    assert Monotone(before) && LastNow(before) <= last.env.now;
    forall o | o in was.purchases ensures Timely(config, was.purchases[o], LastNow(before)) {
      DatesAreInOrder(config, before, o);
    }
    StepIsTimely(was, last.env, last.call, order, LastNow(before));
  }

  // ---------------------------------------------------------------- what time allows

  /** Whether a call can succeed for a purchase at a second, whoever signs and whoever can receive. */
  ghost predicate Possible(s: State, now: Seconds, call: Call) {
    exists env: Env :: env.now == now && Apply(s, env, call).Ok?
  }

  /** Everyone signs and everyone can receive. */
  function Willing(s: State, order: Order, now: Seconds): Env
    requires order in s.purchases
  {
    var all := {s.config.operator, s.config.payee, s.config.arbiter, s.purchases[order].payer};
    Env(now, all, all)
  }

  lemma {:induction false} OpenPossible(s: State, now: Seconds, order: Order, claim: Hash)
    requires Sound(s) && order in s.purchases && !s.purchases[order].payer.Unknown?
    ensures Possible(s, now, Open(order, claim, Some(true)))
      <==> var p := s.purchases[order];
           p.status == Held || (p.status == Shipped && now < ReleaseAt(s.config, p))
  {
    var p := s.purchases[order];
    var call := Open(order, claim, Some(true));
    if p.status == Held || (p.status == Shipped && now < ReleaseAt(s.config, p)) {
      assert Apply(s, Willing(s, order, now), call).Ok?;
    }
  }

  /** A store that can receive is all a due release, verdict or expiry waits for: the money is always here. */
  lemma {:induction false} CloseSucceedsWhen(s: State, env: Env, p: Purchase, status: Status, refund: int)
    requires Sound(s) && p.orderRef in s.purchases && 0 <= refund <= p.amount
    requires var was := s.purchases[p.orderRef]; p == was.(verdictHash := p.verdictHash) && !Closed(was)
    ensures Close(s, env, p, status, refund).Ok? <==> refund == p.amount || s.config.payee in env.receivers
  {
    AllocationCovers(s, p.orderRef);
    CloseEffect(s, env, p, status, refund);
  }

  lemma {:induction false} ReleaseSucceedsWhen(s: State, env: Env, order: Order)
    requires Sound(s) && order in s.purchases
    ensures DoRelease(s, env, order).Ok?
      <==> var p := s.purchases[order];
           p.status == Shipped && env.now >= ReleaseAt(s.config, p) && s.config.payee in env.receivers
  {
    assert Filed(s, order);
    if s.purchases[order].status == Shipped {
      CloseSucceedsWhen(s, env, s.purchases[order], Released, 0);
    }
  }

  lemma {:induction false} ResolveSucceedsWhen(s: State, env: Env, order: Order, verdict: Hash, refund: int)
    requires Sound(s) && order in s.purchases
    ensures DoResolve(s, env, order, verdict, refund).Ok?
      <==> var p := s.purchases[order];
           && s.config.arbiter in env.signers
           && (p.status == Responded || (p.status == Disputed && env.now > AnswerBy(s.config, p)))
           && env.now <= ResolveDeadline(s.config, p)
           && 0 <= refund <= p.amount
           && (refund == p.amount || s.config.payee in env.receivers)
  {
    assert Filed(s, order);
    var p := s.purchases[order];
    if InDispute(p) && 0 <= refund <= p.amount {
      CloseSucceedsWhen(s, env, p.(verdictHash := Some(verdict)), Resolved, refund);
    }
  }

  /** Past the arbiter's deadline the payer's refund needs nobody: no signature, and nobody able to receive. */
  lemma {:induction false} ExpireSucceedsWhen(s: State, env: Env, order: Order)
    requires Sound(s) && order in s.purchases
    ensures DoExpire(s, env, order).Ok?
      <==> InDispute(s.purchases[order]) && env.now > ResolveDeadline(s.config, s.purchases[order])
  {
    assert Filed(s, order);
    if InDispute(s.purchases[order]) {
      CloseSucceedsWhen(s, env, s.purchases[order], Expired, s.purchases[order].amount);
    }
  }

  lemma {:induction false} ClaimRefundSucceedsWhen(s: State, env: Env, order: Order)
    requires Sound(s) && order in s.purchases
    ensures DoClaimRefund(s, env, order).Ok?
      <==> s.purchases[order].refundOwed > 0 && s.purchases[order].payer in env.receivers
  {
    assert Filed(s, order);
    AllocationCovers(s, order);
  }

  /** Exactly one of the three. */
  predicate OneOf(a: bool, b: bool, c: bool) {
    (a && !b && !c) || (!a && b && !c) || (!a && !b && c)
  }

  /** At every second a shipped purchase can be claimed or released, never both and never neither. */
  lemma {:induction false} ShippedSeconds(s: State, now: Seconds, order: Order, claim: Hash)
    requires Sound(s) && order in s.purchases && s.purchases[order].status == Shipped
    requires !s.purchases[order].payer.Unknown?
    ensures Possible(s, now, Open(order, claim, Some(true))) <==> !Possible(s, now, Release(order))
  {
    OpenPossible(s, now, order, claim);
    var env := Willing(s, order, now);
    ReleaseSucceedsWhen(s, env, order);
    assert Apply(s, env, Release(order)) == DoRelease(s, env, order);
    forall env: Env | env.now == now && Apply(s, env, Release(order)).Ok?
      ensures now >= ReleaseAt(s.config, s.purchases[order])
    {
      ReleaseSucceedsWhen(s, env, order);
    }
  }

  /** Waiting alone lets anyone pay the store for a shipped purchase. */
  lemma {:induction false} WaitingReleases(s: State, order: Order)
    requires Sound(s) && order in s.purchases && s.purchases[order].status == Shipped
    ensures Possible(s, ReleaseAt(s.config, s.purchases[order]), Release(order))
  {
    var env := Willing(s, order, ReleaseAt(s.config, s.purchases[order]));
    ReleaseSucceedsWhen(s, env, order);
    assert Apply(s, env, Release(order)).Ok?;
  }

  /** At every second a dispute waits for the store's answer, for the arbiter, or for anyone to expire it. */
  lemma {:induction false} DisputeSeconds(s: State, now: Seconds, order: Order, hash: Hash)
    requires Sound(s) && order in s.purchases && InDispute(s.purchases[order])
    ensures OneOf(Possible(s, now, Respond(order, hash)),
                  Possible(s, now, Resolve(order, hash, s.purchases[order].amount)),
                  Possible(s, now, Expire(order)))
  {
    var p := s.purchases[order];
    var env := Willing(s, order, now);
    assert Filed(s, order);
    ExpireSucceedsWhen(s, env, order);
    ResolveSucceedsWhen(s, env, order, hash, p.amount);
    assert Apply(s, env, Respond(order, hash)).Ok? <==> p.status == Disputed && now <= AnswerBy(s.config, p);
    assert Apply(s, env, Resolve(order, hash, p.amount)) == DoResolve(s, env, order, hash, p.amount);
    assert Apply(s, env, Expire(order)) == DoExpire(s, env, order);
    forall e: Env | e.now == now
      ensures Apply(s, e, Expire(order)).Ok? ==> Apply(s, env, Expire(order)).Ok?
      ensures Apply(s, e, Resolve(order, hash, p.amount)).Ok? ==> Apply(s, env, Resolve(order, hash, p.amount)).Ok?
      ensures Apply(s, e, Respond(order, hash)).Ok? ==> Apply(s, env, Respond(order, hash)).Ok?
    {
      ExpireSucceedsWhen(s, e, order);
      ResolveSucceedsWhen(s, e, order, hash, p.amount);
    }
  }

  /** Waiting alone closes a dispute: some second lets anyone refund the payer, unless the deadline is the last second
      a clock can show. */
  lemma {:induction false} WaitingEndsDisputes(s: State, order: Order)
    requires Sound(s) && order in s.purchases && InDispute(s.purchases[order])
    ensures (exists now: Seconds :: Possible(s, now, Expire(order)))
            <==> ResolveDeadline(s.config, s.purchases[order]) < U64_MAX
  {
    var deadline := ResolveDeadline(s.config, s.purchases[order]);
    if deadline < U64_MAX {
      var env := Env(deadline + 1, {}, {});
      ExpireSucceedsWhen(s, env, order);
      assert Apply(s, env, Expire(order)).Ok?;
      assert Possible(s, deadline + 1, Expire(order));
    }
    forall now: Seconds | Possible(s, now, Expire(order)) ensures now > deadline {
      var env: Env :| env.now == now && Apply(s, env, Expire(order)).Ok?;
      ExpireSucceedsWhen(s, env, order);
    }
  }

  // ---------------------------------------------------------------- when each call is taken

  /** A hold is taken exactly for a new order and a new payment that the operator signs, of no more than has arrived and is
      not owed; and records exactly that. */
  lemma {:induction false} HoldSucceedsWhen(
      s: State, env: Env, order: Order, payer: Address, amount: int, tx: Hash, receipt: Hash)
    requires Sound(s)
    ensures var r := Apply(s, env, Hold(order, payer, amount, tx, receipt));
            && (r.Ok? <==>
                  && s.config.operator in env.signers && 0 < |order| <= 64 && order !in s.purchases && tx !in s.payments
                  && 0 < amount <= s.balance - Owing(s.purchases))
            && (r.Ok? ==>
                  && r.value.purchases == s.purchases[order :=
                       Purchase(order, payer, amount, tx, receipt, Held, env.now, 0, None, 0, None, None, 0, 0, 0)]
                  && r.value.payments == s.payments[tx := order] && Owing(r.value.purchases) == Owing(s.purchases) + amount
                  && r.value.balance == s.balance && r.value.config == s.config)
  {
    var r := Apply(s, env, Hold(order, payer, amount, tx, receipt));
    if r.Ok? {
      HoldIsSound(s, env, order, payer, amount, tx, receipt);
    }
  }

  /** A hold that more than one reason refuses is refused for the first of them. */
  lemma {:induction false} HoldRefusedFirst(
      s: State, env: Env, order: Order, payer: Address, amount: int, tx: Hash, receipt: Hash)
    requires Sound(s)
    ensures var r, signed, named := Apply(s, env, Hold(order, payer, amount, tx, receipt)),
                                    s.config.operator in env.signers, 0 < |order| <= 64;
            && (r == Err(Unauthorised) <==> !signed)
            && (r == Err(InvalidOrderRef) <==> signed && !named)
            && (r == Err(InvalidAmount) <==> signed && named && amount <= 0)
            && (r == Err(OrderAlreadyHeld) <==> signed && named && amount > 0 && order in s.purchases)
            && (r == Err(PaymentAlreadyHeld) <==> signed && named && amount > 0 && order !in s.purchases && tx in s.payments)
            && (r == Err(InsufficientUnallocated) <==>
                  signed && named && order !in s.purchases && tx !in s.payments
                  && amount > 0 && amount > s.balance - Owing(s.purchases))
  {
  }

  /** A transfer takes from the balance exactly what leaves, and nothing when it is sent to the escrow itself. */
  lemma {:induction false} TransferMoves(s: State, env: Env, to: Address, value: int)
    ensures var t := Transfer(s, env, to, value);
            && (t.Some? <==> to in env.receivers && 0 <= value <= s.balance)
            && (t.Some? ==>
                  && t.value.balance + t.value.left == s.balance + s.left
                  && t.value.left == s.left + (if to == s.config.this_ then 0 else value)
                  && t.value == s.(balance := t.value.balance, left := t.value.left))
  {
  }

  lemma {:induction false} MarkShippedSucceedsWhen(s: State, env: Env, order: Order)
    requires Sound(s)
    ensures var r := Apply(s, env, MarkShipped(order));
            && (r.Ok? <==>
                  s.config.operator in env.signers && order in s.purchases && s.purchases[order].status == Held)
            && (r.Ok? ==> r.value == s.(purchases :=
                  s.purchases[order := s.purchases[order].(status := Shipped, shippedAt := env.now)]))
  {
    assert Filed(s, order);
  }

  /** Who pays agrees: an account by signing the call, a rail by its owner's signature over the claim. */
  predicate Agrees(env: Env, payer: Address, signature: Option<bool>) {
    (payer.Account? && payer in env.signers) || (payer.Contract? && signature == Some(true))
  }

  /** Before a sum of seconds, and before the last second of the clock. */
  predicate Before(now: Seconds, sum: nat) {
    now < sum && now < U64_MAX
  }

  lemma {:induction false} OpenSucceedsWhen(s: State, env: Env, order: Order, claim: Hash, signature: Option<bool>)
    requires Sound(s)
    ensures var r := Apply(s, env, Open(order, claim, signature));
            && (r.Ok? <==>
                  && order in s.purchases && Agrees(env, s.purchases[order].payer, signature)
                  && var p := s.purchases[order];
                     p.status == Held || (p.status == Shipped && Before(env.now, p.shippedAt + s.config.releaseWindow)))
            && (r.Ok? ==> r.value == s.(purchases := s.purchases[order :=
                  s.purchases[order].(status := Disputed, claimHash := Some(claim), openedAt := env.now)]))
  {
    assert Filed(s, order);
  }

  lemma {:induction false} RespondSucceedsWhen(s: State, env: Env, order: Order, response: Hash)
    requires Sound(s)
    ensures var r := Apply(s, env, Respond(order, response));
            && (r.Ok? <==>
                  && s.config.payee in env.signers && order in s.purchases && s.purchases[order].status == Disputed
                  && env.now <= s.purchases[order].openedAt + s.config.responseWindow)
            && (r.Ok? ==> r.value == s.(purchases := s.purchases[order :=
                  s.purchases[order].(status := Responded, responseHash := Some(response))]))
  {
    assert Filed(s, order);
  }

  /** What must have signed for a call to be refused for want of it. */
  predicate Unsigned(s: State, env: Env, call: Call) {
    match call
    case Hold(_, _, _, _, _) => s.config.operator !in env.signers
    case MarkShipped(_) => s.config.operator !in env.signers
    case Respond(_, _) => s.config.payee !in env.signers
    case Resolve(_, _, _) => s.config.arbiter !in env.signers
    case Open(order, _, _) =>
      order in s.purchases && s.purchases[order].payer.Account? && s.purchases[order].payer !in env.signers
    case _ => false
  }

  /** The statuses a call starts from. */
  predicate StartsFrom(call: Call, status: Status) {
    match call
    case MarkShipped(_) => status == Held
    case Release(_) => status == Shipped
    case Open(_, _, _) => status == Held || status == Shipped
    case Respond(_, _) => status == Disputed
    case Resolve(_, _, _) => status == Disputed || status == Responded
    case Expire(_) => status == Disputed || status == Responded
    case _ => true
  }

  /** The reason a refusal gives holds. */
  predicate Holds(s: State, env: Env, call: Call, error: Error) {
    match error
    case InvalidOrderRef => call.Hold? && (|call.order| == 0 || |call.order| > 64)
    case InvalidAmount => (call.Hold? && call.amount <= 0) || (call.Resolve? && call.refund < 0)
    case OrderAlreadyHeld => call.Hold? && call.order in s.purchases
    case PaymentAlreadyHeld => call.Hold? && call.tx in s.payments
    case InsufficientUnallocated => call.Hold? && call.amount > s.balance - s.allocation
    case PurchaseNotFound => !call.Deposit? && !call.Hold? && call.order !in s.purchases
    case Unauthorised => Unsigned(s, env, call)
    case BalanceFull => call.Deposit? && s.balance + call.value > I128_MAX
    case InvalidWindow => false
    case _ =>
      !call.Deposit? && !call.Hold? && call.order in s.purchases
      && HoldsOf(s, env, call, s.purchases[call.order], error)
  }

  /** The same, of the purchase it is about. */
  predicate HoldsOf(s: State, env: Env, call: Call, p: Purchase, error: Error) {
    var answerBy := p.openedAt + s.config.responseWindow;
    match error
    case WrongStatus => !StartsFrom(call, p.status)
    case ReleaseTooEarly => call.Release? && Before(env.now, p.shippedAt + s.config.releaseWindow)
    case ClaimWindowClosed => call.Open? && p.status == Shipped && !Before(env.now, p.shippedAt + s.config.releaseWindow)
    case MissingSignature => call.Open? && p.payer.Contract? && call.signature.None?
    case SignatureRefused => call.Open? && p.payer.Contract? && call.signature == Some(false)
    case UnsupportedPayer => call.Open? && p.payer.Unknown?
    case ResponseWindowClosed => call.Respond? && env.now > answerBy
    case ResponseWindowOpen => call.Resolve? && p.status == Disputed && env.now <= answerBy
    case ResolveWindowClosed => call.Resolve? && env.now > answerBy + s.config.resolveWindow
    case ResolveWindowOpen => call.Expire? && env.now <= answerBy + s.config.resolveWindow
    case RefundExceedsAmount => call.Resolve? && call.refund > p.amount
    case NoRefundOwed => call.ClaimRefund? && p.refundOwed == 0
    case RefundUndeliverable => call.ClaimRefund? && p.payer !in env.receivers
    case PayeeCannotReceive => (call.Release? || call.Resolve?) && s.config.payee !in env.receivers
    case _ => false
  }

  lemma {:induction false} PaymentRefusalIsTrue(s: State, env: Env, call: Call)
    requires Sound(s) && Apply(s, env, call).Err? && (call.Release? || call.Resolve? || call.Expire?)
    requires call.order in s.purchases
    requires Apply(s, env, call).error == PayeeCannotReceive
    ensures !call.Expire? && s.config.payee !in env.receivers
  {
    hide Close;
    assert Filed(s, call.order);
    AllocationCovers(s, call.order);
    var p := s.purchases[call.order];
    match call {
      case Release(_) => CloseRefusal(s, env, p, Released, 0);
      case Resolve(_, verdict, refund) => CloseRefusal(s, env, p.(verdictHash := Some(verdict)), Resolved, refund);
      case Expire(_) => CloseRefusal(s, env, p, Expired, p.amount);
    }
  }

  lemma {:induction false} ClosingFailsOnlySo(s: State, env: Env, p: Purchase, status: Status, refund: int)
    requires Close(s, env, p, status, refund).Err?
    ensures Close(s, env, p, status, refund).error == PayeeCannotReceive
  {
  }

  lemma {:induction false} PaymentRefusals(s: State, env: Env, call: Call)
    requires Apply(s, env, call).Err? && (call.Release? || call.Resolve? || call.Expire?) && call.order in s.purchases
    ensures var p, error := s.purchases[call.order], Apply(s, env, call).error;
            error == PayeeCannotReceive || error == Unauthorised || error == InvalidAmount || HoldsOf(s, env, call, p, error)
    ensures Apply(s, env, call).error == Unauthorised ==> Unsigned(s, env, call)
    ensures Apply(s, env, call).error == InvalidAmount ==> call.Resolve? && call.refund < 0
  {
    hide Close;
    var p := s.purchases[call.order];
    match call {
      case Release(_) =>
        if Close(s, env, p, Released, 0).Err? {
          ClosingFailsOnlySo(s, env, p, Released, 0);
        }
      case Resolve(_, verdict, refund) =>
        var q := p.(verdictHash := Some(verdict));
        if Close(s, env, q, Resolved, refund).Err? {
          ClosingFailsOnlySo(s, env, q, Resolved, refund);
        }
      case Expire(_) =>
        if Close(s, env, p, Expired, p.amount).Err? {
          ClosingFailsOnlySo(s, env, p, Expired, p.amount);
        }
    }
  }

  lemma {:induction false} CloseRefusal(s: State, env: Env, p: Purchase, status: Status, refund: int)
    requires 0 <= refund <= p.amount <= s.allocation <= s.balance
    ensures Close(s, env, p, status, refund).Err? ==> refund < p.amount && s.config.payee !in env.receivers
  {
    CloseEffect(s, env, p, status, refund);
  }

  lemma {:induction false} AdvanceRefusals(s: State, env: Env, call: Call)
    requires Apply(s, env, call).Err? && (call.MarkShipped? || call.Open? || call.Respond?)
    ensures Holds(s, env, call, Apply(s, env, call).error)
  {
  }

  lemma {:induction false} ClaimRefusals(s: State, env: Env, call: Call)
    requires Sound(s) && Apply(s, env, call).Err? && call.ClaimRefund?
    ensures Holds(s, env, call, Apply(s, env, call).error)
  {
    if call.order in s.purchases {
      assert Filed(s, call.order);
      AllocationCovers(s, call.order);
      TransferEffect(s, env, s.purchases[call.order].payer, s.purchases[call.order].refundOwed);
    }
  }

  lemma {:induction false} ClosingRefusals(s: State, env: Env, call: Call)
    requires Sound(s) && Apply(s, env, call).Err? && (call.Release? || call.Resolve? || call.Expire?)
    ensures Holds(s, env, call, Apply(s, env, call).error)
  {
    hide Close;
    if call.order in s.purchases {
      PaymentRefusals(s, env, call);
      if Apply(s, env, call).error == PayeeCannotReceive {
        PaymentRefusalIsTrue(s, env, call);
      }
    }
  }

  /** Whatever the contract refuses, it refuses for a reason that holds. */
  lemma {:induction false} RefusalIsTrue(s: State, env: Env, call: Call)
    requires Sound(s) && Apply(s, env, call).Err?
    ensures Holds(s, env, call, Apply(s, env, call).error)
  {
    if call.Release? || call.Resolve? || call.Expire? {
      ClosingRefusals(s, env, call);
    } else if call.ClaimRefund? {
      ClaimRefusals(s, env, call);
    } else if call.MarkShipped? || call.Open? || call.Respond? {
      AdvanceRefusals(s, env, call);
    }
  }

  /** The payments known are those of the purchases. */
  ghost predicate PaymentsKnown(s: State) {
    forall tx | tx in s.payments :: s.payments[tx] in s.purchases && s.purchases[s.payments[tx]].txHash == tx
  }

  lemma {:induction false} CallKeepsPayments(s: State, env: Env, call: Call)
    requires Sound(s)
    ensures var t := After(s, env, call);
            t.payments == s.payments || (call.Hold? && t.payments == s.payments[call.tx := call.order]
                                         && call.order in t.purchases && t.purchases[call.order].txHash == call.tx)
  {
    if Apply(s, env, call).Ok? && (call.Release? || call.Resolve? || call.Expire?) {
      assert Filed(s, call.order);
      AllocationCovers(s, call.order);
      var p := s.purchases[call.order];
      match call {
        case Release(_) => CloseEffect(s, env, p, Released, 0);
        case Resolve(_, verdict, refund) => CloseEffect(s, env, p.(verdictHash := Some(verdict)), Resolved, refund);
        case Expire(_) => CloseEffect(s, env, p, Expired, p.amount);
      }
    }
  }

  /** In every reachable state a payment is new exactly when no purchase has it. */
  lemma {:induction false} PaymentIsNewWhen(config: Config, steps: seq<Step>, tx: Hash)
    requires Construct(config).Ok?
    ensures var s := Run(Construct(config).value, steps);
            PaymentsKnown(s) && (tx !in s.payments <==> forall o | o in s.purchases :: s.purchases[o].txHash != tx)
  {
    var s := Run(Construct(config).value, steps);
    RunIsSound(config, steps);
    if steps != [] {
      var before, last := steps[..|steps| - 1], steps[|steps| - 1];
      var was := Run(Construct(config).value, before);
      PaymentIsNewWhen(config, before, tx);
      RunIsSound(config, before);
      CallKeepsPayments(was, last.env, last.call);
      forall t | t in s.payments ensures s.payments[t] in s.purchases && s.purchases[s.payments[t]].txHash == t {
        if t in was.payments {
          StepMoves(was, last.env, last.call, was.payments[t]);
        }
      }
    }
    forall o | o in s.purchases ensures s.purchases[o].txHash in s.payments {
      assert Filed(s, o);
    }
  }
}
