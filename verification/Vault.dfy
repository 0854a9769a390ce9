/** The durable record of every spending decision: what each store of it remembers, and what a day has spent. */
module Vault {
  import opened Results
  import opened Decimal

  /** `at` is an ISO instant, `YYYY-MM-DDT...`. */
  datatype Entry =
    | Granted(subject: string, intent: string, currency: string, amount: string, at: string)
    | Refused(subject: string, intent: string, code: string, reason: string, at: string)
    | Anchored(subject: string, intent: string, paymentTx: string, anchorTx: string, at: string)
    | Released(subject: string, intent: string, currency: string, amount: string, at: string, reason: string)

  datatype Error = InvalidAmount | SpendNotRecorded | SpendAlreadySettled | InvalidArguments

  function Upto(s: string, n: nat): string {
    if n <= |s| then s[..n] else s
  }

  function Day(at: string): string {
    Upto(at, 10)
  }

  /** The day of an instant is its date, `YYYY-MM-DD`. */
  lemma {:induction false} DatesAreDays(date: string, time: string)
    requires |date| == 10
    ensures Day(date + time) == date
  {
    assert (date + time)[..10] == date;
  }

  /** Amounts as credentials write them: no leading zero. */
  function ScaleAmount(value: string): Result<nat, Error> {
    match MatchAmount(value, 1, 7)
    case None => Err(InvalidAmount)
    case Some(a) => if |a.whole| > 1 && a.whole[0] == '0' then Err(InvalidAmount) else Ok(UnitsOf(a))
  }

  /** What an entry's amount is worth; an entry without one is worth nothing. */
  function Worth(e: Entry): (units: int)
    ensures units >= 0
  {
    if e.Granted? || e.Released? then
      match ToUnits(e.amount)
      case Ok(units) => units
      case Err(_) => 0
    else 0
  }

  type Grant = e: Entry | e.Granted? witness Granted("", "", "", "", "")

  /** One subject's spending in one currency on one day. */
  datatype Bucket = Bucket(subject: string, currency: string, day: string)

  function BucketOf(e: Entry): Bucket
    requires e.Granted? || e.Released?
  {
    Bucket(e.subject, e.currency, Day(e.at))
  }

  // ---------------------------------------------------------------- read from the log

  /** What the database answers about an intent, reading its entries in order. */
  datatype IntentState = IntentState(granted: Option<Entry>, released: bool, anchored: bool)

  function StateOf(log: seq<Entry>, intent: string): (s: IntentState)
    ensures s.granted.Some? ==> s.granted.value.Granted? && s.granted.value.intent == intent
  {
    if log == [] then IntentState(None, false, false)
    else
      var before, last := StateOf(log[..|log| - 1], intent), log[|log| - 1];
      if last.intent != intent then before
      else
        match last
        case Granted(_, _, _, _, _) => before.(granted := Some(last), released := false)
        case Released(_, _, _, _, _, _) => before.(released := true)
        case Anchored(_, _, _, _, _) => before.(anchored := true)
        case Refused(_, _, _, _, _) => before
  }

  /** What was granted less what was released, over the buckets `keep` keeps. */
  function Net(log: seq<Entry>, keep: Bucket -> bool): int {
    if log == [] then 0
    else
      var before, last := Net(log[..|log| - 1], keep), log[|log| - 1];
      match last
      case Granted(_, _, _, _, _) => if keep(BucketOf(last)) then before + Worth(last) else before
      case Released(_, _, _, _, _, _) => if keep(BucketOf(last)) then before - Worth(last) else before
      case _ => before
  }

  function Only(bucket: Bucket): Bucket -> bool {
    (b: Bucket) => b == bucket
  }

  /** A bucket's total. */
  function SpentIn(log: seq<Entry>, bucket: Bucket): int {
    Net(log, Only(bucket))
  }

  /** The intents with a release somewhere in the log. */
  function EverReleased(log: seq<Entry>): set<string> {
    if log == [] then {}
    else
      var last := log[|log| - 1];
      EverReleased(log[..|log| - 1]) + if last.Released? then {last.intent} else {}
  }

  // ---------------------------------------------------------------- kept in memory

  /** The file's entries, with what the process remembers of them. */
  datatype Memory = Memory(
    log: seq<Entry>, totals: map<Bucket, int>, grants: map<string, Grant>, released: set<string>, anchored: set<string>)

  const EMPTY := Memory([], map[], map[], {}, {})

  function Total(totals: map<Bucket, int>, bucket: Bucket): int {
    if bucket in totals then totals[bucket] else 0
  }

  function AddToTotals(totals: map<Bucket, int>, bucket: Bucket, units: int): map<Bucket, int> {
    totals[bucket := Total(totals, bucket) + units]
  }

  function HasRecorded(m: Memory, intent: string): bool {
    intent in m.grants && intent !in m.released
  }

  function AfterRecord(m: Memory, subject: string, intent: string, currency: string, amount: string, at: string)
      : Result<Memory, Error> {
    if HasRecorded(m, intent) then Ok(m)
    else
      match ScaleAmount(amount)
      case Err(e) => Err(e)
      case Ok(units) =>
        var granted := Granted(subject, intent, currency, amount, at);
        Ok(Memory(m.log + [granted], AddToTotals(m.totals, BucketOf(granted), units), m.grants[intent := granted],
                  m.released - {intent}, m.anchored))
  }

  /** The entry that gives a grant back: its own amount, on its own day. */
  function ReleaseOf(g: Grant, reason: string): (e: Entry)
    ensures e.Released? && e.intent == g.intent && BucketOf(e) == BucketOf(g) && Worth(e) == Worth(g)
  {
    Released(g.subject, g.intent, g.currency, g.amount, g.at, reason)
  }

  function Forget(m: Memory, g: Grant, intent: string, reason: string): Memory {
    m.(log := m.log + [ReleaseOf(g, reason)], totals := AddToTotals(m.totals, BucketOf(g), -Worth(g)),
       released := m.released + {intent})
  }

  function AfterRelease(m: Memory, intent: string, reason: string): Result<Memory, Error> {
    if intent in m.released then Ok(m)
    else if intent !in m.grants then Err(SpendNotRecorded)
    else if intent in m.anchored then Err(SpendAlreadySettled)
    else
      Ok(Forget(m, m.grants[intent], intent, reason))
  }

  /** One line read back: a release is remembered for good. */
  function ReadBack(m: Memory, e: Entry): (r: Memory)
    ensures r.log == m.log + [e]
  {
    var next := m.(log := m.log + [e]);
    match e
    case Granted(_, intent, _, _, _) =>
      next.(grants := m.grants[intent := e], totals := AddToTotals(m.totals, BucketOf(e), Worth(e)))
    case Released(_, intent, _, _, _, _) =>
      next.(released := m.released + {intent}, totals := AddToTotals(m.totals, BucketOf(e), -Worth(e)))
    case Anchored(_, intent, _, _, _) => next.(anchored := m.anchored + {intent})
    case Refused(_, _, _, _, _) => next
  }

  /** What the file vault rebuilds from its lines when it opens. */
  function Reloaded(log: seq<Entry>): (m: Memory)
    ensures m.log == log
  {
    if log == [] then EMPTY else ReadBack(Reloaded(log[..|log| - 1]), log[|log| - 1])
  }

  lemma {:induction false} ReloadOneMore(log: seq<Entry>, i: nat)
    requires i < |log|
    ensures Reloaded(log[..i + 1]) == ReadBack(Reloaded(log[..i]), log[i])
  {
    assert log[..i + 1][..i] == log[..i];
  }

  /** The vault over a file, as the process holds it. */
  class FileVault {
    var records: seq<Entry>
    var totals: map<Bucket, int>
    var grants: map<string, Grant>
    var releasedIntents: set<string>
    var anchoredIntents: set<string>

    ghost function State(): Memory
      reads this
    {
      Memory(records, totals, grants, releasedIntents, anchoredIntents)
    }

    /** Opens over the lines of a file. */
    constructor (lines: seq<Entry>)
      ensures State() == Reloaded(lines)
    {
      records, totals, grants, releasedIntents, anchoredIntents := [], map[], map[], {}, {};
      new;
      var i := 0;
      while i < |lines|
        invariant 0 <= i <= |lines| && State() == Reloaded(lines[..i])
      {
        ReloadOneMore(lines, i);
        Absorb(lines[i]);
        i := i + 1;
      }
      assert lines[..i] == lines;
    }

    /** One line of the file, as it opens. */
    method Absorb(e: Entry)
      modifies this
      ensures State() == ReadBack(old(State()), e)
    {
      records := records + [e];
      if e.Granted? {
        grants := grants[e.intent := e];
        totals := AddToTotals(totals, BucketOf(e), Worth(e));
      }
      if e.Released? {
        releasedIntents := releasedIntents + {e.intent};
        totals := AddToTotals(totals, BucketOf(e), -Worth(e));
      }
      if e.Anchored? {
        anchoredIntents := anchoredIntents + {e.intent};
      }
    }

    method SpentOn(subject: string, currency: string, at: string) returns (spent: string)
      ensures spent == FromUnits(Total(State().totals, Bucket(subject, currency, Day(at))))
    {
      spent := FromUnits(Total(totals, Bucket(subject, currency, Day(at))));
    }

    method Record(subject: string, intent: string, currency: string, amount: string, at: string)
        returns (error: Option<Error>)
      modifies this
      ensures match AfterRecord(old(State()), subject, intent, currency, amount, at)
              case Ok(m) => error == None && State() == m
              case Err(e) => error == Some(e) && State() == old(State())
    {
      if intent in grants && intent !in releasedIntents {
        return None;
      }
      var scaled := ScaleAmount(amount);
      if scaled.Err? {
        return Some(scaled.error);
      }
      var granted := Granted(subject, intent, currency, amount, at);
      records := records + [granted];
      totals := AddToTotals(totals, BucketOf(granted), scaled.value);
      grants := grants[intent := granted];
      releasedIntents := releasedIntents - {intent};
      return None;
    }

    method Release(intent: string, reason: string) returns (error: Option<Error>)
      modifies this
      ensures var r := AfterRelease(old(State()), intent, reason);
              && (r.Ok? ==> error == None && State() == r.value)
              && (r.Err? ==> error == Some(r.error) && State() == old(State()))
    {
      hide Worth;
      if intent in releasedIntents {
        return None;
      }
      if intent !in grants {
        return Some(SpendNotRecorded);
      }
      if intent in anchoredIntents {
        return Some(SpendAlreadySettled);
      }
      var granted := grants[intent];
      assert AfterRelease(State(), intent, reason) == Ok(Forget(State(), granted, intent, reason));
      records := records + [ReleaseOf(granted, reason)];
      totals := AddToTotals(totals, BucketOf(granted), -Worth(granted));
      releasedIntents := releasedIntents + {intent};
      assert State() == Forget(old(State()), granted, intent, reason);
      return None;
    }

    method RecordAnchor(subject: string, intent: string, paymentTx: string, anchorTx: string, at: string)
      modifies this
      ensures State() == AfterAnchor(old(State()), Anchored(subject, intent, paymentTx, anchorTx, at))
    {
      anchoredIntents := anchoredIntents + {intent};
      records := records + [Anchored(subject, intent, paymentTx, anchorTx, at)];
    }
  }

  function AfterAnchor(m: Memory, e: Entry): Memory
    requires e.Anchored?
  {
    m.(log := m.log + [e], anchored := m.anchored + {e.intent})
  }

  // ---------------------------------------------------------------- every run

  datatype Call =
    | Record(subject: string, intent: string, currency: string, amount: string, at: string)
    | Release(intent: string, reason: string)
    | RecordAnchor(entry: Entry)
    | RecordRefusal(entry: Entry)
    | Reopen // another process opens the file

  function After(m: Memory, call: Call): Memory {
    match call
    case Record(subject, intent, currency, amount, at) =>
      (match AfterRecord(m, subject, intent, currency, amount, at) case Ok(n) => n case Err(_) => m)
    case Release(intent, reason) => (match AfterRelease(m, intent, reason) case Ok(n) => n case Err(_) => m)
    case RecordAnchor(entry) => if entry.Anchored? then AfterAnchor(m, entry) else m
    case RecordRefusal(entry) => if entry.Refused? then m.(log := m.log + [entry]) else m
    case Reopen => Reloaded(m.log)
  }

  function Run(calls: seq<Call>): Memory {
    if calls == [] then EMPTY else After(Run(calls[..|calls| - 1]), calls[|calls| - 1])
  }

  /** The log says that the intent's spend counts. */
  predicate Recorded(log: seq<Entry>, intent: string) {
    StateOf(log, intent).granted.Some? && !StateOf(log, intent).released
  }

  /** The process knows of an intent what the log says, but may take for released one granted again since. */
  predicate Recalls(m: Memory, intent: string) {
    var s := StateOf(m.log, intent);
    && (intent in m.grants <==> s.granted.Some?)
    && (intent in m.grants ==> m.grants[intent] == s.granted.value)
    && (s.released ==> intent in m.released)
    && (intent in m.released ==> intent in EverReleased(m.log))
    && (intent in m.anchored <==> s.anchored)
    && (s.released ==> s.granted.Some?)
  }

  /** The process remembers of an intent exactly what the log says. */
  predicate Remembers(m: Memory, intent: string) {
    Recalls(m, intent) && (intent in m.released <==> StateOf(m.log, intent).released)
  }

  predicate Accounts(m: Memory, bucket: Bucket) {
    Total(m.totals, bucket) == SpentIn(m.log, bucket)
  }

  lemma {:induction false} LogGrows(log: seq<Entry>, e: Entry)
    ensures (log + [e])[..|log + [e]| - 1] == log
  {
  }

  lemma {:induction false} NetAfter(log: seq<Entry>, e: Entry, keep: Bucket -> bool)
    ensures Net(log + [e], keep) == Net(log, keep)
      + if e.Granted? && keep(BucketOf(e)) then Worth(e)
        else if e.Released? && keep(BucketOf(e)) then -Worth(e) else 0
  {
    LogGrows(log, e);
  }

  lemma {:induction false} ReleaseRecalls(m: Memory, of: string, reason: string, intent: string, bucket: Bucket)
    requires Recalls(m, intent) && Recalls(m, of) && Accounts(m, bucket)
    ensures var n := After(m, Release(of, reason));
            Recalls(n, intent) && Accounts(n, bucket) && (Remembers(m, intent) ==> Remembers(n, intent))
  {
    hide Worth;
    if AfterRelease(m, of, reason).Ok? && of !in m.released {
      var e := ReleaseOf(m.grants[of], reason);
      LogGrows(m.log, e);
      NetAfter(m.log, e, Only(bucket));
    }
  }

  lemma {:induction false} RecordAccounts(m: Memory, e: Entry, bucket: Bucket)
    requires e.Granted? && Accounts(m, bucket)
    ensures Accounts(After(m, Record(e.subject, e.intent, e.currency, e.amount, e.at)), bucket)
  {
    NetAfter(m.log, e, Only(bucket));
  }

  lemma {:induction false} RecordRecalls(m: Memory, e: Entry, intent: string, bucket: Bucket)
    requires e.Granted? && Recalls(m, intent) && Accounts(m, bucket)
    ensures var n := After(m, Record(e.subject, e.intent, e.currency, e.amount, e.at));
            Recalls(n, intent) && Accounts(n, bucket) && (Remembers(m, intent) ==> Remembers(n, intent))
  {
    LogGrows(m.log, e);
    RecordAccounts(m, e, bucket);
  }

  lemma {:induction false} OtherAccounts(m: Memory, call: Call, bucket: Bucket)
    requires (call.RecordAnchor? || call.RecordRefusal?) && Accounts(m, bucket)
    ensures Accounts(After(m, call), bucket)
  {
    hide Worth;
    NetAfter(m.log, call.entry, Only(bucket));
  }

  lemma {:induction false} OtherState(log: seq<Entry>, e: Entry, intent: string)
    requires e.Anchored? || e.Refused?
    ensures StateOf(log + [e], intent)
         == if e.Anchored? && e.intent == intent then StateOf(log, intent).(anchored := true) else StateOf(log, intent)
    ensures EverReleased(log + [e]) == EverReleased(log)
  {
    LogGrows(log, e);
  }

  lemma {:induction false} OtherRecalls(m: Memory, call: Call, intent: string, bucket: Bucket)
    requires (call.RecordAnchor? || call.RecordRefusal?) && Recalls(m, intent) && Accounts(m, bucket)
    ensures var n := After(m, call);
            Recalls(n, intent) && Accounts(n, bucket) && (Remembers(m, intent) ==> Remembers(n, intent))
  {
    hide Accounts, StateOf, EverReleased;
    if call.entry.Anchored? || call.entry.Refused? {
      OtherState(m.log, call.entry, intent);
    }
    OtherAccounts(m, call, bucket);
  }

  /** What a reopened file knows of an intent and a bucket. */
  predicate Folded(m: Memory, intent: string, bucket: Bucket) {
    var s := StateOf(m.log, intent);
    && (intent in m.grants <==> s.granted.Some?)
    && (intent in m.grants ==> m.grants[intent] == s.granted.value)
    && (intent in m.released <==> intent in EverReleased(m.log))
    && (intent in m.anchored <==> s.anchored)
    && (s.released ==> intent in EverReleased(m.log))
    && Accounts(m, bucket)
  }

  lemma {:induction false} ReadBackFolds(m: Memory, e: Entry, intent: string, bucket: Bucket)
    requires Folded(m, intent, bucket)
    ensures Folded(ReadBack(m, e), intent, bucket)
  {
    hide Worth;
    NetAfter(m.log, e, Only(bucket));
    LogGrows(m.log, e);
  }

  lemma {:induction false} LastReadBack(log: seq<Entry>)
    requires log != []
    ensures Reloaded(log) == ReadBack(Reloaded(log[..|log| - 1]), log[|log| - 1])
  {
    hide Worth;
  }

  lemma {:induction false} ReloadFolds(log: seq<Entry>, intent: string, bucket: Bucket)
    ensures Folded(Reloaded(log), intent, bucket)
  {
    hide Worth;
    if log == [] {
      assert Reloaded(log) == EMPTY;
    } else {
      var m, last := Reloaded(log[..|log| - 1]), log[|log| - 1];
      LastReadBack(log);
      ReloadFolds(log[..|log| - 1], intent, bucket);
      ReadBackFolds(m, last, intent, bucket);
    }
  }

  /** One process does it all. */
  predicate OneProcess(calls: seq<Call>) {
    Reopen !in calls
  }

  /** In every run, the file reopened at any time, the totals are the log's, and the process knows of an intent what the
      log says unless it was granted again after a release; while one process does it all it always knows. */
  lemma {:induction false} MemoryIsTheLog(calls: seq<Call>, intent: string, bucket: Bucket)
    ensures Recalls(Run(calls), intent) && Accounts(Run(calls), bucket)
    ensures HasRecorded(Run(calls), intent) ==> Recorded(Run(calls).log, intent)
    ensures Recorded(Run(calls).log, intent) && intent !in EverReleased(Run(calls).log) ==> HasRecorded(Run(calls), intent)
    ensures OneProcess(calls) ==> Remembers(Run(calls), intent)
  {
    if calls != [] {
      var m, call := Run(calls[..|calls| - 1]), calls[|calls| - 1];
      MemoryIsTheLog(calls[..|calls| - 1], intent, bucket);
      match call {
        case Record(subject, i, currency, amount, at) =>
          RecordRecalls(m, Granted(subject, i, currency, amount, at), intent, bucket);
        case Release(i, reason) =>
          MemoryIsTheLog(calls[..|calls| - 1], i, bucket);
          ReleaseRecalls(m, i, reason, intent, bucket);
        case Reopen => ReloadFolds(m.log, intent, bucket);
        case _ => OtherRecalls(m, call, intent, bucket);
      }
    }
  }

  /** A file opened again has the same totals, and forgets exactly the intents granted again after a release. */
  lemma {:induction false} ReloadForgetsWhen(calls: seq<Call>, intent: string, bucket: Bucket)
    ensures var m, reopened := Run(calls), Run(calls + [Reopen]);
            && reopened.log == m.log
            && Total(reopened.totals, bucket) == Total(m.totals, bucket)
            && (HasRecorded(reopened, intent) == HasRecorded(m, intent)
                <==> !(HasRecorded(m, intent) && intent in EverReleased(m.log)))
  {
    assert (calls + [Reopen])[..|calls|] == calls;
    MemoryIsTheLog(calls, intent, bucket);
    ReloadFolds(Run(calls).log, intent, bucket);
  }

  /** What forgetting costs: recorded again after reopening, the intent counts twice; released, it keeps counting. */
  lemma {:induction false} ForgottenIntentCountsTwice(calls: seq<Call>, e: Entry)
    requires e.Granted? && ScaleAmount(e.amount).Ok?
    requires HasRecorded(Run(calls), e.intent) && e.intent in EverReleased(Run(calls).log)
    ensures var reopened := Reloaded(Run(calls).log);
            var again := AfterRecord(reopened, e.subject, e.intent, e.currency, e.amount, e.at);
            && again.Ok?
            && Total(again.value.totals, BucketOf(e)) == Total(Run(calls).totals, BucketOf(e)) + Worth(e)
            && AfterRelease(reopened, e.intent, "") == Ok(reopened)
    ensures AfterRecord(Run(calls), e.subject, e.intent, e.currency, e.amount, e.at) == Ok(Run(calls))
  {
    ReloadForgetsWhen(calls, e.intent, BucketOf(e));
    ReloadFolds(Run(calls).log, e.intent, BucketOf(e));
  }

  // ---------------------------------------------------------------- what is still spent

  function WithoutIntent(es: seq<Entry>, intent: string): seq<Entry> {
    if es == [] then []
    else WithoutIntent(es[..|es| - 1], intent) + if es[|es| - 1].intent == intent then [] else [es[|es| - 1]]
  }

  /** The grants no later release gave back, in order. */
  function LiveGrants(log: seq<Entry>): seq<Entry> {
    if log == [] then []
    else
      var before, last := LiveGrants(log[..|log| - 1]), log[|log| - 1];
      match last
      case Granted(_, _, _, _, _) => before + [last]
      case Released(_, intent, _, _, _, _) => WithoutIntent(before, intent)
      case _ => before
  }

  /** What a list of entries is worth, counting those `counts` keeps. */
  function WorthOf(es: seq<Entry>, counts: Entry -> bool): nat {
    if es == [] then 0
    else WorthOf(es[..|es| - 1], counts) + if counts(es[|es| - 1]) then Worth(es[|es| - 1]) else 0
  }

  function In(keep: Bucket -> bool): Entry -> bool {
    (e: Entry) => e.Granted? && keep(BucketOf(e))
  }

  lemma {:induction false} WorthOfOneMore(es: seq<Entry>, e: Entry, counts: Entry -> bool)
    ensures WorthOf(es + [e], counts) == WorthOf(es, counts) + if counts(e) then Worth(e) else 0
  {
    assert (es + [e])[..|es|] == es;
  }

  predicate AtMostOne(es: seq<Entry>, intent: string) {
    forall i, j | 0 <= i < j < |es| :: !(es[i].intent == intent && es[j].intent == intent)
  }

  /** An intent's live grant is the one the vault holds for it, alone; or it has none. */
  predicate OneLive(live: seq<Entry>, intent: string, grant: Option<Entry>) {
    && (forall i | 0 <= i < |live| && live[i].intent == intent :: grant == Some(live[i]))
    && AtMostOne(live, intent)
    && (grant.Some? ==> grant.value.intent == intent && grant.value in live)
  }

  lemma {:induction false} WithoutIntentKeeps(es: seq<Entry>, intent: string)
    ensures forall i | 0 <= i < |WithoutIntent(es, intent)| :: WithoutIntent(es, intent)[i].intent != intent
    ensures forall e | e in es && e.intent != intent :: e in WithoutIntent(es, intent)
    ensures forall e | e in WithoutIntent(es, intent) :: e in es
  {
    if es != [] {
      WithoutIntentKeeps(es[..|es| - 1], intent);
      assert es == es[..|es| - 1] + [es[|es| - 1]];
    }
  }

  lemma {:induction false} WithoutIntentWorth(es: seq<Entry>, intent: string, grant: Option<Entry>, counts: Entry -> bool)
    requires OneLive(es, intent, grant)
    ensures WorthOf(WithoutIntent(es, intent), counts)
         == WorthOf(es, counts) - if grant.Some? && counts(grant.value) then Worth(grant.value) else 0
    decreases |es|
  {
    hide Worth;
    if es != [] {
      var front, last := es[..|es| - 1], es[|es| - 1];
      assert es == front + [last];
      if last.intent == intent {
        assert grant == Some(last);
        assert OneLive(front, intent, None);
        WithoutIntentWorth(front, intent, None, counts);
        assert WithoutIntent(front, intent) + [] == WithoutIntent(front, intent);
      } else {
        assert OneLive(front, intent, grant);
        WithoutIntentWorth(front, intent, grant, counts);
        WorthOfOneMore(WithoutIntent(front, intent), last, counts);
      }
    }
  }

  lemma {:induction false} LiveAfter(log: seq<Entry>, e: Entry)
    ensures e.Granted? ==> LiveGrants(log + [e]) == LiveGrants(log) + [e]
    ensures e.Released? ==> LiveGrants(log + [e]) == WithoutIntent(LiveGrants(log), e.intent)
    ensures e.Anchored? || e.Refused? ==> LiveGrants(log + [e]) == LiveGrants(log)
  {
    hide Worth;
    LogGrows(log, e);
  }

  /** The grant the log holds for an intent, while it counts. */
  function LiveIn(log: seq<Entry>, intent: string): Option<Entry> {
    if Recorded(log, intent) then StateOf(log, intent).granted else None
  }

  /** A call that records an intent the log has and the process has forgotten. */
  predicate Forgets(m: Memory, call: Call) {
    call.Record? && ScaleAmount(call.amount).Ok? && Recorded(m.log, call.intent) && !HasRecorded(m, call.intent)
  }

  /** No call of the run does. */
  predicate NeverForgets(calls: seq<Call>) {
    calls != [] ==>
      NeverForgets(calls[..|calls| - 1]) && !Forgets(Run(calls[..|calls| - 1]), calls[|calls| - 1])
  }

  lemma {:induction false} OneProcessNeverForgets(calls: seq<Call>)
    requires OneProcess(calls)
    ensures NeverForgets(calls)
  {
    if calls != [] {
      var before, call := calls[..|calls| - 1], calls[|calls| - 1];
      OneProcessNeverForgets(before);
      if call.Record? {
        MemoryIsTheLog(before, call.intent, Bucket("", "", ""));
      }
    }
  }

  /** A released intent is gone from the live grants, and every other stays. */
  lemma {:induction false} OneLiveWithout(live: seq<Entry>, of: string, grant: Option<Entry>, intent: string)
    requires OneLive(live, intent, grant)
    ensures OneLive(WithoutIntent(live, of), intent, if intent == of then None else grant)
    decreases |live|
  {
    WithoutIntentKeeps(live, of);
    if intent != of {
      WithoutOrder(live, of, intent);
    } else {
      forall i | 0 <= i < |WithoutIntent(live, of)| ensures WithoutIntent(live, of)[i].intent != intent {
      }
    }
  }

  lemma {:induction false} WithoutOrder(live: seq<Entry>, of: string, intent: string)
    requires intent != of && AtMostOne(live, intent)
    ensures AtMostOne(WithoutIntent(live, of), intent)
    decreases |live|
  {
    if live != [] {
      var front, last := live[..|live| - 1], live[|live| - 1];
      assert forall i | 0 <= i < |front| :: live[i] == front[i];
      assert AtMostOne(front, intent);
      WithoutOrder(front, of, intent);
      WithoutIntentKeeps(front, of);
      var kept, rest := WithoutIntent(front, of), WithoutIntent(live, of);
      assert rest == if last.intent == of then kept else kept + [last];
      forall i, j | 0 <= i < j < |rest| ensures !(rest[i].intent == intent && rest[j].intent == intent) {
        assert rest[i] == kept[i] && kept[i] in kept;
        var k :| 0 <= k < |front| && front[k] == kept[i];
        assert live[k] == front[k] && live[|front|] == last;
      }
    }
  }

  lemma {:induction false} RecordHolds(m: Memory, e: Entry, intent: string)
    requires e.Granted? && OneLive(LiveGrants(m.log), intent, LiveIn(m.log, intent)) && Recalls(m, e.intent)
    requires !Forgets(m, Record(e.subject, e.intent, e.currency, e.amount, e.at))
    ensures var n := After(m, Record(e.subject, e.intent, e.currency, e.amount, e.at));
            OneLive(LiveGrants(n.log), intent, LiveIn(n.log, intent))
  {
    LiveAfter(m.log, e);
    LogGrows(m.log, e);
  }

  lemma {:induction false} ReleaseHolds(m: Memory, of: string, reason: string, intent: string)
    requires Recalls(m, of) && OneLive(LiveGrants(m.log), intent, LiveIn(m.log, intent))
    ensures var n := After(m, Release(of, reason)); OneLive(LiveGrants(n.log), intent, LiveIn(n.log, intent))
  {
    hide Worth;
    if AfterRelease(m, of, reason).Ok? && of !in m.released {
      var e := ReleaseOf(m.grants[of], reason);
      LiveAfter(m.log, e);
      LogGrows(m.log, e);
      OneLiveWithout(LiveGrants(m.log), of, LiveIn(m.log, intent), intent);
    }
  }

  lemma {:induction false} OtherHolds(m: Memory, call: Call, intent: string)
    requires (call.RecordAnchor? || call.RecordRefusal?) && OneLive(LiveGrants(m.log), intent, LiveIn(m.log, intent))
    ensures var n := After(m, call); OneLive(LiveGrants(n.log), intent, LiveIn(n.log, intent))
  {
    hide Worth;
    LiveAfter(m.log, call.entry);
    LogGrows(m.log, call.entry);
  }

  lemma {:induction false} LiveIsHeld(calls: seq<Call>, intent: string)
    requires NeverForgets(calls)
    ensures OneLive(LiveGrants(Run(calls).log), intent, LiveIn(Run(calls).log, intent))
  {
    if calls != [] {
      var before, call := calls[..|calls| - 1], calls[|calls| - 1];
      var m := Run(before);
      LiveIsHeld(before, intent);
      match call {
        case Record(subject, i, currency, amount, at) =>
          MemoryIsTheLog(before, i, Bucket("", "", ""));
          RecordHolds(m, Granted(subject, i, currency, amount, at), intent);
        case Release(i, reason) =>
          MemoryIsTheLog(before, i, Bucket("", "", ""));
          ReleaseHolds(m, i, reason, intent);
        case Reopen => ReloadFolds(m.log, intent, Bucket("", "", ""));
        case _ => OtherHolds(m, call, intent);
      }
    }
  }

  /** After every call of the run, no intent has two live grants. */
  predicate EachCountsOnce(calls: seq<Call>) {
    (calls != [] ==> EachCountsOnce(calls[..|calls| - 1])) && OnceEach(LiveGrants(Run(calls).log))
  }

  predicate OnceEach(live: seq<Entry>) {
    forall i, j | 0 <= i < j < |live| :: live[i].intent != live[j].intent
  }

  /** Recording an intent the process forgot leaves it with two live grants. */
  lemma {:induction false} ForgettingCountsTwice(calls: seq<Call>, call: Call)
    requires NeverForgets(calls) && Forgets(Run(calls), call)
    ensures !OnceEach(LiveGrants(After(Run(calls), call).log))
  {
    var m := Run(calls);
    var live, e := LiveGrants(m.log), Granted(call.subject, call.intent, call.currency, call.amount, call.at);
    LiveIsHeld(calls, call.intent);
    LiveAfter(m.log, e);
    var i :| 0 <= i < |live| && live[i] == StateOf(m.log, call.intent).granted.value;
    assert (live + [e])[i].intent == (live + [e])[|live|].intent;
  }

  /** Over any run, reopenings included, each intent is counted once at every moment exactly when no call records one that
      the process has forgotten. */
  lemma {:induction false} EachCountsOnceWhen(calls: seq<Call>)
    ensures EachCountsOnce(calls) <==> NeverForgets(calls)
  {
    if calls != [] {
      var before, call := calls[..|calls| - 1], calls[|calls| - 1];
      EachCountsOnceWhen(before);
      if NeverForgets(before) && Forgets(Run(before), call) {
        ForgettingCountsTwice(before, call);
      }
    }
    if NeverForgets(calls) {
      var live := LiveGrants(Run(calls).log);
      forall i, j | 0 <= i < j < |live| ensures live[i].intent != live[j].intent {
        LiveIsHeld(calls, live[i].intent);
      }
    }
  }

  lemma {:induction false} GrantSpends(log: seq<Entry>, e: Entry, keep: Bucket -> bool)
    requires e.Granted? && Net(log, keep) == WorthOf(LiveGrants(log), In(keep))
    ensures Net(log + [e], keep) == WorthOf(LiveGrants(log + [e]), In(keep))
  {
    hide Worth;
    LiveAfter(log, e);
    NetAfter(log, e, keep);
    WorthOfOneMore(LiveGrants(log), e, In(keep));
  }

  /** A record adds its one grant, or nothing. */
  lemma {:induction false} RecordedLog(m: Memory, e: Entry)
    requires e.Granted?
    ensures var n := After(m, Record(e.subject, e.intent, e.currency, e.amount, e.at));
            n.log == m.log || n.log == m.log + [e]
  {
  }

  lemma {:induction false} RecordSpends(m: Memory, e: Entry, keep: Bucket -> bool)
    requires e.Granted? && Net(m.log, keep) == WorthOf(LiveGrants(m.log), In(keep))
    ensures var n := After(m, Record(e.subject, e.intent, e.currency, e.amount, e.at));
            Net(n.log, keep) == WorthOf(LiveGrants(n.log), In(keep))
  {
    RecordedLog(m, e);
    GrantSpends(m.log, e, keep);
  }

  lemma {:induction false} GivenBackSpends(log: seq<Entry>, g: Grant, e: Entry, keep: Bucket -> bool)
    requires e.Released? && e.intent == g.intent && BucketOf(e) == BucketOf(g) && Worth(e) == Worth(g)
    requires OneLive(LiveGrants(log), g.intent, Some(g)) && Net(log, keep) == WorthOf(LiveGrants(log), In(keep))
    ensures Net(log + [e], keep) == WorthOf(LiveGrants(log + [e]), In(keep))
  {
    hide Worth;
    LiveAfter(log, e);
    NetAfter(log, e, keep);
    WithoutIntentWorth(LiveGrants(log), g.intent, Some(g), In(keep));
  }

  lemma {:induction false} ReleaseSpends(m: Memory, of: string, reason: string, keep: Bucket -> bool)
    requires Recalls(m, of) && OneLive(LiveGrants(m.log), of, LiveIn(m.log, of))
    requires Net(m.log, keep) == WorthOf(LiveGrants(m.log), In(keep))
    ensures var n := After(m, Release(of, reason)); Net(n.log, keep) == WorthOf(LiveGrants(n.log), In(keep))
  {
    hide Worth;
    if AfterRelease(m, of, reason).Ok? && of !in m.released {
      GivenBackSpends(m.log, m.grants[of], ReleaseOf(m.grants[of], reason), keep);
    }
  }

  /** In every run that never forgets, however often the file is reopened, what a day, or any set of days, has spent is
      exactly its live grants: never negative, each counted once. */
  lemma {:induction false} SpentIsLiveGrants(calls: seq<Call>, keep: Bucket -> bool)
    requires NeverForgets(calls)
    ensures Net(Run(calls).log, keep) == WorthOf(LiveGrants(Run(calls).log), In(keep)) >= 0
  {
    if calls != [] {
      var before, call := calls[..|calls| - 1], calls[|calls| - 1];
      var m := Run(before);
      SpentIsLiveGrants(before, keep);
      match call {
        case Record(subject, i, currency, amount, at) => RecordSpends(m, Granted(subject, i, currency, amount, at), keep);
        case Release(i, reason) =>
          MemoryIsTheLog(before, i, Bucket("", "", ""));
          LiveIsHeld(before, i);
          ReleaseSpends(m, i, reason, keep);
        case RecordAnchor(e) =>
          LiveAfter(m.log, e);
          NetAfter(m.log, e, keep);
        case RecordRefusal(e) =>
          LiveAfter(m.log, e);
          NetAfter(m.log, e, keep);
        case Reopen => ReloadFolds(m.log, "", Bucket("", "", ""));
      }
    }
  }

  // ---------------------------------------------------------------- a settled payment is never given back

  /** The log says that the intent's payment settled. */
  predicate AnchoredIn(log: seq<Entry>, intent: string) {
    exists i | 0 <= i < |log| :: log[i].Anchored? && log[i].intent == intent
  }

  lemma {:induction false} AnchoredOneMore(log: seq<Entry>, e: Entry, intent: string)
    ensures AnchoredIn(log + [e], intent) <==> AnchoredIn(log, intent) || (e.Anchored? && e.intent == intent)
  {
    assert (log + [e])[|log|] == e;
    assert forall i | 0 <= i < |log| :: (log + [e])[i] == log[i];
  }

  lemma {:induction false} AnchoredAsRead(log: seq<Entry>, intent: string)
    ensures StateOf(log, intent).anchored <==> AnchoredIn(log, intent)
  {
    if log != [] {
      var front, last := log[..|log| - 1], log[|log| - 1];
      assert log == front + [last];
      AnchoredAsRead(front, intent);
      AnchoredOneMore(front, last, intent);
    }
  }

  /** What a call appends: nothing, one grant, one release of what the log holds and has not settled, or one record. */
  lemma {:induction false} Appends(calls: seq<Call>, call: Call)
    ensures var was, now := Run(calls).log, Run(calls + [call]).log;
            && (now == was || |now| == |was| + 1) && was <= now
            && (now != was && now[|was|].Released? ==>
                  call.Release? && now[|was|].intent == call.intent && !AnchoredIn(was, call.intent)
                  && Recorded(was, call.intent))
  {
    var m := Run(calls);
    assert (calls + [call])[..|calls|] == calls;
    if call.Release? {
      MemoryIsTheLog(calls, call.intent, Bucket("", "", ""));
      AnchoredAsRead(m.log, call.intent);
    }
  }

  /** Over every run, the file reopened at any time, a release never follows an anchoring of its intent. */
  lemma {:induction false} SettledIsNotReleased(calls: seq<Call>, i: nat, j: nat)
    requires i < j < |Run(calls).log|
    ensures var log := Run(calls).log; log[i].Anchored? && log[j].Released? ==> log[i].intent != log[j].intent
  {
    if calls != [] {
      var before, call := calls[..|calls| - 1], calls[|calls| - 1];
      assert calls == before + [call];
      Appends(before, call);
      var was, now := Run(before).log, Run(calls).log;
      if j < |was| {
        SettledIsNotReleased(before, i, j);
      }
    }
  }

  lemma {:induction false} StaysAmongOthers(live: seq<Entry>, of: string, e: Entry)
    requires e in live && e.intent != of
    ensures e in WithoutIntent(live, of)
  {
    WithoutIntentKeeps(live, of);
  }

  lemma {:induction false} StaysLiveAfter(was: seq<Entry>, last: Entry, e: Entry)
    requires e in LiveGrants(was) && (last.Released? ==> last.intent != e.intent)
    ensures e in LiveGrants(was + [last])
  {
    hide LiveGrants, WithoutIntent;
    LiveAfter(was, last);
    if last.Released? {
      StaysAmongOthers(LiveGrants(was), last.intent, e);
    }
  }

  lemma {:induction false} OneCallKeepsSettled(calls: seq<Call>, call: Call, e: Entry)
    requires e in LiveGrants(Run(calls).log) && AnchoredIn(Run(calls).log, e.intent)
    ensures e in LiveGrants(Run(calls + [call]).log) && AnchoredIn(Run(calls + [call]).log, e.intent)
  {
    hide Run, LiveGrants, AnchoredIn, Recorded;
    Appends(calls, call);
    var was, now := Run(calls).log, Run(calls + [call]).log;
    if now != was {
      assert now == was + [now[|was|]];
      StaysLiveAfter(was, now[|was|], e);
      AnchoredOneMore(was, now[|was|], e.intent);
    }
  }

  /** So a payment counted when its intent settles is counted for ever after. */
  lemma {:induction false} SettledStaysLive(calls: seq<Call>, more: seq<Call>, e: Entry)
    requires e in LiveGrants(Run(calls).log) && AnchoredIn(Run(calls).log, e.intent)
    ensures e in LiveGrants(Run(calls + more).log) && AnchoredIn(Run(calls + more).log, e.intent)
    decreases |more|
  {
    hide Run, LiveGrants, AnchoredIn;
    if more == [] {
      assert calls + more == calls;
    } else {
      var before, call := more[..|more| - 1], more[|more| - 1];
      SettledStaysLive(calls, before, e);
      assert calls + more == (calls + before) + [call];
      OneCallKeepsSettled(calls + before, call, e);
    }
  }

  /** While one process does it all, a release is appended exactly for an intent that counts and has not settled, and gives
      back its grant's own subject, currency, amount and day. */
  lemma {:induction false} ReleasedExactlyWhen(calls: seq<Call>, intent: string, reason: string)
    requires OneProcess(calls)
    ensures var was, now := Run(calls).log, Run(calls + [Release(intent, reason)]).log;
            if Recorded(was, intent) && !AnchoredIn(was, intent) then
              var g := StateOf(was, intent).granted.value;
              now == was + [Released(g.subject, intent, g.currency, g.amount, g.at, reason)]
            else now == was
  {
    assert (calls + [Release(intent, reason)])[..|calls|] == calls;
    MemoryIsTheLog(calls, intent, Bucket("", "", ""));
    AnchoredAsRead(Run(calls).log, intent);
  }

  /** And a spend is appended exactly for an amount that reads, of an intent that does not count yet. */
  lemma {:induction false} RecordedExactlyWhen(
      calls: seq<Call>, subject: string, intent: string, currency: string, amount: string, at: string)
    requires OneProcess(calls)
    ensures var was, now := Run(calls).log, Run(calls + [Record(subject, intent, currency, amount, at)]).log;
            now == if !Recorded(was, intent) && ScaleAmount(amount).Ok? then was + [Granted(subject, intent, currency, amount, at)]
                   else was
    ensures var r := AfterRecord(Run(calls), subject, intent, currency, amount, at);
            && (r.Err? <==> !Recorded(Run(calls).log, intent) && ScaleAmount(amount).Err?)
            && (r.Err? ==> r == Err(InvalidAmount))
  {
    assert (calls + [Record(subject, intent, currency, amount, at)])[..|calls|] == calls;
    MemoryIsTheLog(calls, intent, Bucket("", "", ""));
  }

  /** Anchors and refusals are always appended, and opening the file appends nothing. */
  lemma {:induction false} OthersAreLogged(calls: seq<Call>, call: Call)
    ensures var was, now := Run(calls).log, Run(calls + [call]).log;
            && (call.RecordAnchor? && call.entry.Anchored? ==> now == was + [call.entry])
            && (call.RecordRefusal? && call.entry.Refused? ==> now == was + [call.entry])
            && (call.Reopen? ==> now == was)
  {
    assert (calls + [call])[..|calls|] == calls;
  }

  /** The amounts taken: up to seven decimals, no leading zero, read for what they are worth. */
  lemma {:induction false} AmountsTaken(a: Amount, value: string)
    requires Spells(a, value)
    ensures var plain := |a.whole| == 1 || a.whole[0] != '0';
            var short := a.fraction.None? || 1 <= |a.fraction.value| <= 7;
            && (ScaleAmount(value).Ok? <==> plain && short)
            && (plain && short ==> ToUnits(value).Ok? && ScaleAmount(value).value == ToUnits(value).value)
  {
    if a.fraction.None? || 1 <= |a.fraction.value| <= 7 {
      SpellingIsFound(a, value, 1, 7);
    } else if ScaleAmount(value).Ok? {
      SpellingIsFound(a, value, 0, |value|);
      SpellingIsFound(MatchAmount(value, 1, 7).value, value, 0, |value|);
    }
  }
}
