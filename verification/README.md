# Verified models of AgentPey's money, dispute and deployment logic

AgentPey lets software agents buy from stores and pay on Stellar. This project models the parts of it whose
correctness spans many steps or any text, and proves what they keep:

- **The daily-allowance race** (`Allowance`): processes compete for one limit, under the vault's lock, without it in any
  order, and without it in the coordinator's rounds. Runs are schedules; the worst case is exact.
- **The store's escrow** (`Escrow`): the Soroban contract as a timed machine over whole states. A call returns a new
  state or an error, and an error changes nothing, as the host rolls it back. Deposits, payments to either side and the
  token balance are counted, so solvency and conservation are proved for every run. A log of what was paid (`paid`,
  `deposited`, `left`) is kept beside the contract's own storage, only to be spoken about.
- **Disputes read off chain** (`DisputeVenue`): the scripts' and the chat's guards, compared second by second with what
  the contract would do.
- **Verdicts** (`VerdictFolder`, `VerdictProtocol`): the numbered files, which of them sorts last, and the interleaving
  of deciding (with crashes between its writes), of any number of confirmations read by read, of everyone else's calls
  on the ledger, and of the landings.
- **Configuration files** (`Text`, `EnvFile`, `Bootstrap`): the `.env` reader and printer, setting one key, and the
  whole-file rewrite that must keep every other key and be repeatable.
- **Quotes** (`Quotes`, `Budget`): the insertion-ordered book of unpaid quotes, and the budget each one reserves on the
  ledger until it is given back.
- **The vault and the month's summary** (`Vault`, `MonthSummary`): what the append-only log means, what a process and a
  reopened file remember of it, and the arithmetic of the monthly table.
- **The conformance kit's charge** (`Conformance`): one signature against a store that may answer anything and settle
  whatever it holds whenever it likes.
- **Gateway supervision** (`Gateway`): which apps are routed to, and what brings the service down, in every order of
  events.
- **Text refinements** (`Html`, `Redaction`, `Decimal`): escaping, redaction and exact decimal amounts.

Code that works step by step in the original is a method with a loop or a class with fields here (the `.env` reader and
renderer, the coordinator, the quote book, the file vault, the month's summary, the kit, the supervisor), each proved
against a function whose properties are then lemmas. Pure code is functions.

## What the proofs found

Where a promise does not hold of the code, the exact condition is proved, with the inputs that break it:

- Setting a key that two lines set rewrites the first line, while the reader takes the last
  (`EnvFile.UpsertIsMapUpdate`, `EnvFile.UpsertMissesDuplicate`).
- The arbiter's script closes its window one second before the contract does. At that second it says that only `expire`
  is valid, but the contract still resolves and refuses to expire (`DisputeVenue.OnlyExpireIsValidExceptAtLastSecond`);
  without an answer the script has one second less than the window (`DisputeVenue.UsableSecondsCount`).
- Numbers padded to three digits sort by name only up to 999; from 1000 on the name that sorts last is an older
  verdict's, which can then be confirmed and paid (`VerdictFolder.NameThatSortsLast`,
  `VerdictProtocol.StaleVerdictCanBePaid`).
- `execute` takes a folder it cannot read for an empty one, and an empty one lets every hash through: an older verdict
  that is still in `verdict.json` is then paid (`VerdictProtocol.UnreadFolderPaysOlder`). Paying the verdict whose name
  sorts last is certain exactly when the folder was read or `verdict.json` already held that one
  (`VerdictProtocol.SureToPayLastWhen`).
- A verdict archived between `execute`'s checks and its landing is not seen (`VerdictProtocol.ArchiveBetweenIsNotSeen`).
- `execute` reads the escrow first and the clock later. When it reads no answer at or before the second the answer is
  due, the store's answer can land in between, the later clock lets the verdict through, and the escrow pays a verdict
  that did not hear that answer (`VerdictProtocol.AnswerCanGoUnheard`). Having heard the answer is certain exactly when
  the escrow was read with one, or past that second, or the windows leave no second to go on with none
  (`VerdictProtocol.SureToHearWhen`).
- A file vault that is opened again forgets that an intent was granted again after a release, against the comment in
  `packages/vault/src/postgres-vault.ts` that both vaults agree: the intent then counts twice, and cannot be released
  (`Vault.ReloadForgetsWhen`, `Vault.ForgottenIntentCountsTwice`). Over runs with reopenings, each intent counts once
  exactly while no call records a forgotten one (`Vault.EachCountsOnceWhen`).
- The month's summary leaves out payments granted again after a release (`MonthSummary.SummaryAgainstVault`,
  `MonthSummary.RegrantIsMissed`).
- Redaction is complete only for secrets that share no text with the marker (`Redaction.RedactionIsComplete`), and a
  page shows a sentence for certain only when what precedes it does not stop inside an entity
  (`Html.PageSaysWhatWasEscaped`).
- The quote book's ceiling is not kept when it is set below one (`Quotes.CeilingHoldsWhen`).
- No app the pilot can run without brings the gateway down by exiting or by being late, but one whose process cannot be
  spawned does: nothing handles that error (`Gateway.SpawnErrorIsFatal`).
- The two printers of amounts differ below zero (`Decimal.PrintersAgree`).

## Assumptions

- One monotone clock serves the scripts and the ledger (`VerdictProtocol`). On the network the ledger's clock can trail
  the scripts' by some seconds.
- The arbiter's key calls `resolve` for a dispute only through `execute`, and one `decide` is under way at a time. Archived
  files are not removed and `verdict.json` is written only by `decide`; a read that fails stops `execute`, except the
  listing of the folder, which may fail at any time. Each read of a file,
  of the folder, of the escrow or of the clock is a step of its own, and anything may happen between two of them. The
  escrow's config is read whenever it is needed, since no call changes it (`Escrow.EveryFactIsAuthorised`).
- Hashes are a parameter. Only verdicts that were archived are assumed not to collide, and every hash has 64 characters.
- Quote ids are fresh, as random identifiers are. Keypairs are a function from secrets to addresses.
- `vault.atomically` is one indivisible step.
- A ledger's call is given who signed and who can receive the token; signatures verify or not as a parameter says.

## Model

| member | source | states |
|---|---|---|
| Allowance.RunIsSound | scripts/loadtest-perday.ts:201-252 | in every schedule, locked or not, the total is the records times the amount, the accepted attempts are the records, and records plus decisions on their way stay under the mode's ceiling |
| Allowance.AtomicStaysWithinLimit | scripts/loadtest-perday.ts:201-226 | under the lock the recorded total is within the limit at every moment of every schedule |
| Allowance.AtomicIsExact | scripts/loadtest-perday.ts:201-226 | a finished locked run accepted exactly min(attempts, limit / amount), and accepted plus rejected are all the attempts |
| Allowance.RacyIsBounded | scripts/loadtest-perday.ts:228-252 | no unlocked schedule leaves more records than the worst case |
| Allowance.WorstCaseHappens | scripts/loadtest-perday.ts:228-252 | some unlocked schedule leaves exactly that many records |
| Allowance.RacyOvershoot | scripts/loadtest-perday.ts:228-252 | no unlocked schedule takes the total past the limit by more than one amount for each other process |
| Allowance.OvershootIsMetWhen | scripts/loadtest-perday.ts:228-252 | a schedule meets that bound exactly when the amount divides the limit and the earlier rounds can fill all its places but one |
| Allowance.RacyIsSafeOnlyWhen | scripts/loadtest-perday.ts:228-252 | every unlocked schedule stays within the limit exactly for one process, an amount that never fits, or a limit that holds every attempt |
| Allowance.AllDecide | scripts/loadtest-perday.ts:370-374 | whatever order the processes read in, all take the one decision the total at the start of the round calls for, and nothing is written |
| Allowance.AllAct | scripts/loadtest-perday.ts:375-384 | each process gets the command its decision expects, and all of them record or none does |
| Allowance.RacyRound | scripts/loadtest-perday.ts:353-384 | a round in any order leaves the processes level, with the records the closed form gives for the next round |
| Allowance.AtomicRound | scripts/loadtest-perday.ts:357-368 | a locked round in any order is a schedule of locked steps in which every process makes one attempt |
| Allowance.ObeysOnly | scripts/loadtest-perday.ts:195-245 | a worker with an attempt left obeys one command only: to begin its own round, and then the one its decision calls for |
| Allowance.CoordinatorMain | scripts/loadtest-perday.ts:338-418 | the reported counts of a whole run in either mode, and exactly when it exits 0 |
| Allowance.ReferenceRun | scripts/loadtest-perday.ts:43-48 | with the file's numbers the rounds always record 12.0 against 10.0, the worst order 18.0, the lock 9.0 |
| Escrow.RunIsSound | contracts/purchase-escrow/src/lib.rs:311-567 | in every reachable state the allocation is the sum of what is owed, is covered by the balance, and every purchase is accounted for |
| Escrow.MoneyIsConserved | contracts/purchase-escrow/src/lib.rs:546-567 | for every purchase of every run, paid to the payer plus paid to the store plus still owed is the amount, and the refund never exceeds it |
| Escrow.PaymentsAreUnique | contracts/purchase-escrow/src/lib.rs:331-334 | one payment transaction backs one purchase |
| Escrow.HoldIsSound | contracts/purchase-escrow/src/lib.rs:311-363 | a hold that succeeds keeps the invariant and allocates exactly its amount, never more than has arrived |
| Escrow.HoldSucceedsWhen | contracts/purchase-escrow/src/lib.rs:311-363 | a hold is recorded exactly when the operator signed, the reference is new and of 1 to 64 bytes, the transaction is new, and the amount is positive and within what is not owed to anyone; and what is then recorded |
| Escrow.HoldRefusedFirst | contracts/purchase-escrow/src/lib.rs:311-338 | which of several reasons a refused hold is refused for |
| Escrow.PaymentIsNewWhen | contracts/purchase-escrow/src/lib.rs:331-334 | in every reachable state a payment is known exactly when some purchase holds it |
| Escrow.CloseEffect | contracts/purchase-escrow/src/lib.rs:546-567 | closing fails only when there is something to pay to a store that cannot receive; otherwise exactly the refund and the rest leave, and an undeliverable refund stays allocated |
| Escrow.StepMoves | contracts/purchase-escrow/src/lib.rs:366-535 | any call leaves a purchase as it was, moves it to a status of higher rank, or delivers its owed refund; its identity, claim and answer never change |
| Escrow.OutcomesAreFinal | contracts/purchase-escrow/src/lib.rs:520-535 | after a purchase is released, resolved or expired nothing changes it but the delivery of its owed refund |
| Escrow.EveryFactIsAuthorised | contracts/purchase-escrow/src/lib.rs:311-498 | in every reachable state each recorded fact came in a call of the run, signed or consented to by whoever may say it: the operator's hold of that amount, the payer's consent to that claim, the store's answer inside its window, the arbiter's verdict with the refund paid |
| Escrow.OpenPossible | contracts/purchase-escrow/src/lib.rs:401-433 | at which seconds a consenting payer can open a dispute |
| Escrow.MarkShippedSucceedsWhen | contracts/purchase-escrow/src/lib.rs:366-380 | a purchase is marked shipped exactly when the operator signed and it is held, and nothing else changes |
| Escrow.OpenSucceedsWhen | contracts/purchase-escrow/src/lib.rs:401-433 | a dispute opens exactly when the payer agrees and the purchase is held, or shipped with its window open; and only the claim, its date and the status change |
| Escrow.RespondSucceedsWhen | contracts/purchase-escrow/src/lib.rs:451-467 | an answer is taken exactly when the store signed, the dispute is unanswered and its window open; and what then changes |
| Escrow.ReleaseSucceedsWhen | contracts/purchase-escrow/src/lib.rs:382-395 | release succeeds exactly when shipped, past its window, and the store can receive: the money is always there |
| Escrow.ResolveSucceedsWhen | contracts/purchase-escrow/src/lib.rs:471-498 | exactly when the arbiter's verdict is taken |
| Escrow.ExpireSucceedsWhen | contracts/purchase-escrow/src/lib.rs:502-516 | past the deadline expiry needs no signature and nobody able to receive |
| Escrow.ClaimRefundSucceedsWhen | contracts/purchase-escrow/src/lib.rs:520-535 | an owed refund is delivered exactly when its payer can receive |
| Escrow.RefusalIsTrue | contracts/purchase-escrow/src/lib.rs:311-567 | whatever call is refused, the reason given holds of the state |
| Escrow.ShippedSeconds | contracts/purchase-escrow/src/lib.rs:386-412 | at every second a shipped purchase can be claimed or released, never both and never neither |
| Escrow.DisputeSeconds | contracts/purchase-escrow/src/lib.rs:451-516 | at every second exactly one of answering, resolving and expiring is possible for a dispute |
| Escrow.DatesAreInOrder | contracts/purchase-escrow/src/lib.rs:366-516 | over any run with a clock that never goes back the recorded dates are in order: the store is paid only past its window and never after a claim, a claim opens inside it, a verdict lands inside the arbiter's, unanswered only after the store's, and expiry only after both |
| Escrow.WaitingReleases | contracts/purchase-escrow/src/lib.rs:389-391 | waiting alone makes a shipped purchase payable to the store, at a computable second |
| Escrow.WaitingEndsDisputes | contracts/purchase-escrow/src/lib.rs:502-540 | waiting alone makes a dispute refundable, unless its saturated deadline is the last second of the clock |
| DisputeVenue.ExecutableIsDecidable | scripts/lib/dispute-venue.ts:124-158 | what may be executed may be decided, for any venue, view, windows and clock |
| DisputeVenue.ViewTells | scripts/lib/dispute-venue.ts:62-76 | the view keeps what the escrow holds, and its status says whether there is a dispute and how it ended |
| DisputeVenue.GuardsSayWhy | scripts/lib/dispute-venue.ts:91-173 | the reason each of the arbiter's checks refuses for, and exactly when |
| DisputeVenue.TooSoonOrTooLate | scripts/lib/dispute-venue.ts:142-158 | an execution is refused as pending before the second after the unanswered deadline, as closed from the last second on, and for nothing else |
| DisputeVenue.ResolveWindow | contracts/purchase-escrow/src/lib.rs:471-488 | the seconds at which the contract would take a verdict |
| DisputeVenue.ExecuteGuardAgrees | scripts/lib/dispute-venue.ts:142-158 | the script's guard passes exactly at those seconds but the very last |
| DisputeVenue.OnlyExpireIsValidExceptAtLastSecond | scripts/lib/dispute-venue.ts:153-157 | when the guard says only expire is valid, that is so except at the last second, where only resolving is |
| DisputeVenue.UsableSecondsCount | scripts/lib/dispute-venue.ts:142-158 | how many seconds the script leaves the arbiter, with and without an answer |
| DisputeVenue.ClaimGuardAgrees | apps/mcp/src/escrow-dispute.ts:94-137 | the chat's check passes exactly at the seconds the contract would open the dispute |
| DisputeVenue.RefusedExactlyFor | apps/mcp/src/escrow-dispute.ts:94-137 | whatever was read, each refusal of the check is given for its own mismatch and for no other |
| DisputeVenue.RefusedOpenIsTold | apps/mcp/src/escrow-dispute.ts:147-167 | whatever reason the contract refuses an opening for, with any signature, the chat tells that one |
| DisputeVenue.CheckedClaimLands | apps/mcp/src/escrow-dispute.ts:140-187 | after the check passed, whatever happens before the claim is sent and to the submission: an opening said is one; a refusal said for certain left the escrow as it was, for a purchase that moved on, a closed window, a failed consent or a network that did not take it; and the chat says it does not know exactly when the submission was not confirmed |
| DisputeVenue.MeaningAgrees | apps/mcp/src/escrow-state.ts:45-67 | the sentence shown, the chat's check and the contract pick the same side of every boundary |
| DisputeVenue.DatesSaid | apps/mcp/src/escrow-state.ts:45-67 | which sentence is said of a purchase that is not closed, and the date in it |
| DisputeVenue.DatesAreTheContracts | apps/mcp/src/escrow-state.ts:45-67 | the date in a sentence is the contract's own boundary at every second, for claiming, collecting, answering, deciding and expiring; and an answer is said exactly when the escrow holds one |
| DisputeVenue.MeaningOfOutcome | apps/mcp/src/escrow-state.ts:55-74 | what is said of a closed purchase is where its money went and what is still owed |
| VerdictFolder.NamesInOrder | scripts/resolve.ts:541 | how two numbered names compare, for any numbers and hashes |
| VerdictFolder.NameThatSortsLast | scripts/resolve.ts:695 | which verdict's name sorts last, for any number of verdicts |
| VerdictFolder.NewestSortsLastWhen | scripts/resolve.ts:538-542 | the newest name sorts last exactly up to 999, and then only in the last ten numbers of each width |
| VerdictFolder.NameEndsWith | scripts/resolve.ts:696 | a name ends with a hash's own ending exactly when it carries that hash |
| VerdictFolder.LatestCarriesWhen | scripts/resolve.ts:696-699 | a folder with no names lets every hash through, any other exactly the hash of the name that sorts last |
| VerdictProtocol.BoundProposal | packages/resolve/src/verdict.ts:83-92 | no proposal refunds more than is disputed; each outcome fixes its refund; a partial one within its bounds is kept as proposed; and a change is reported exactly when there is one |
| VerdictProtocol.ArchivedWereAsked | scripts/resolve.ts:480-563 | over every run each archived verdict was asked for in it: of this dispute as read, found in its window, with the answer the chain then showed or none past the store's deadline; its refund is the proposal bounded by the claim and the purchase: the lesser of the two in full, nothing when rejected, the proposal itself in between |
| VerdictProtocol.DecidePossibleWhen | scripts/resolve.ts:495-528 | exactly when each step of deciding goes through, in terms of the purchase and the clock |
| VerdictProtocol.ExecutePossibleWhen | scripts/resolve.ts:683-713 | exactly when each check of an execution goes through, in terms of the purchase and the clock |
| VerdictProtocol.OnlyDecideWrites | scripts/resolve.ts:532-543 | the archive grows by the verdict asked for and by nothing else, and verdict.json changes only as that verdict is published or torn |
| VerdictProtocol.StepKeeps | scripts/resolve.ts:480-726 | every step of deciding (stopped or torn anywhere), of any confirmation (its reads of the file, of the folder, read or not, of the escrow and of the clock, and its landing), or of anyone else on the ledger keeps the invariant |
| VerdictProtocol.ExecutionIsSafe | scripts/resolve.ts:683-723 | in every interleaving, what was paid is a confirmed, archived verdict's refund for this receipt and claim, in the window; if the folder could be read, the one whose name sorted last then; it had heard the answer on chain unless the escrow was read too early, and the chain matches it exactly if it had; and it was asked for in the run, its refund bounded by what was claimed |
| VerdictProtocol.ListingPassesWhen | scripts/resolve.ts:696-699 | a loaded verdict passes the folder's test when the folder cannot be read, and otherwise exactly when its name sorts last |
| VerdictProtocol.SureToPayLastWhen | scripts/resolve.ts:696-723 | past that test, whatever happens next, only the verdict whose name sorts last is paid if the folder was read or the loaded verdict is that one; and, for a verdict that could be paid now, only then |
| VerdictProtocol.UnreadFolderPaysOlder | scripts/resolve.ts:696-723 | from nothing decided, a run with two verdicts in which the folder cannot be read and the older is paid |
| VerdictProtocol.NewestIsPaidWhen | scripts/resolve.ts:538-543 | in every run that read the folder, the verdict paid is the newest archived by now exactly when the listed folder's last name carries the newest's hash; where no two are alike, exactly when none came since and the newest number sorts last |
| VerdictProtocol.OnlyExecuteResolves | scripts/resolve.ts:683-723 | the dispute is resolved exactly when a confirmed verdict was paid |
| VerdictProtocol.NoAnswerOnceSent | scripts/lib/dispute-venue.ts:148-152 | from the clock check of any execute on, the answer on chain never changes |
| VerdictProtocol.SureToHearWhen | scripts/resolve.ts:701-713 | a verdict read against the escrow is sure to be paid only if it heard the answer exactly when one was read, or none past the store's deadline, or the windows leave no second in between; otherwise some continuation pays it unheard |
| VerdictProtocol.AnswerCanGoUnheard | scripts/resolve.ts:701-723 | from nothing decided, a run in which the answer that lands at the second it is due is not heard by the verdict paid |
| VerdictProtocol.ArchiveBetweenIsNotSeen | scripts/resolve.ts:695-723 | a verdict archived before the landing is not seen, and the confirmed one is paid |
| VerdictProtocol.LandingSucceedsWhen | scripts/resolve.ts:713-723 | exactly when a confirmed verdict lands; its refund is always within the purchase |
| VerdictProtocol.VerifyAgreesWhen | scripts/lib/dispute-venue.ts:176-179 | verify's comparison holds exactly while verdict.json is the verdict that was paid and that verdict had heard the answer |
| VerdictProtocol.VerifyComparesAll | scripts/lib/dispute-venue.ts:176-179 | verify passes exactly when claim, hash, refund and heard answer are all the archived verdict's |
| VerdictProtocol.CurrentIsPaid | scripts/resolve.ts:683-723 | whatever verdict.json holds can be confirmed and paid when its name sorts last, newest or not, or when the folder cannot be read |
| VerdictProtocol.StaleVerdictCanBePaid | scripts/resolve.ts:538-543 | from nothing decided, a run in which 1000 different verdicts are archived, deciding stops before publishing the last, and the 999th is confirmed and paid |
| EnvFile.MatcherAgreesWithPattern | scripts/lib/env-file.ts:12 | the hand-written matcher accepts a line exactly when the pattern has a reading of it |
| EnvFile.PatternIsUnambiguous | scripts/lib/env-file.ts:12 | however the pattern splits a line, the key and the trimmed value are the matcher's |
| EnvFile.UnescapeUndoesEscape | scripts/lib/env-file.ts:14-25 | the reader's two replacements undo the printer's two, on every text |
| EnvFile.UnquotedExactly | scripts/lib/env-file.ts:14-25 | what a value stands for with either quote, with none, or with one side only, whatever white space surrounds it |
| EnvFile.ParseEnv | scripts/lib/env-file.ts:27-44 | the reading loop gives the entries that setting each line's pair in order gives |
| EnvFile.EnvRoundTrip | scripts/lib/env-file.ts:73-75 | what is printed is read back exactly for the values without a line terminator |
| EnvFile.UpsertEnvValue | scripts/lib/env-file.ts:84-96 | the text after one key is set |
| EnvFile.FindLine | scripts/lib/env-file.ts:87 | the first line of the key, or none |
| EnvFile.UpsertKeepsOtherLines | scripts/lib/env-file.ts:77-96 | every other line is left exactly as it was |
| EnvFile.UpsertTwice | scripts/lib/env-file.ts:84-96 | setting the same value again changes nothing |
| EnvFile.UpsertIsMapUpdate | scripts/lib/env-file.ts:84-96 | reading after setting is updating the map, exactly for one-line values and at most one line of the key, or a value the reader already saw |
| EnvFile.UpsertMissesDuplicate | scripts/lib/env-file.ts:87-95 | with two lines of the key the reader still sees the old last one |
| EnvFile.MatchedLinesAreNotSkipped | scripts/lib/env-file.ts:31-32 | a line the pattern reads never looks blank or like a comment |
| Bootstrap.ResolveAll | scripts/bootstrap.ts:68-104 | every role resolved in order, or the first refusal |
| Bootstrap.ResolvesExactlyWhen | scripts/lib/roles.ts:37-72 | on any file, a valid stored secret is the one kept, with its public key stored or not; with neither stored a key is minted; and each refusal is given exactly for its reason |
| Bootstrap.RenderEnvLocal | scripts/lib/roles.ts:78-113 | the lines pushed are the layout's, in order |
| Bootstrap.ItemsReadBack | scripts/lib/roles.ts:78-113 | a rendered file of clean, distinct settings is read back as exactly those, in order |
| Bootstrap.RewriteReadsBack | scripts/lib/roles.ts:78-113 | the rewritten file is read back as what was meant to be written |
| Bootstrap.RewriteKeepsUnmanaged | scripts/lib/roles.ts:106-110 | every key bootstrap does not own keeps its value, or its absence |
| Bootstrap.RewriteHoldsKeys | scripts/lib/roles.ts:95-99 | each role's keys are in the file under their names |
| Bootstrap.RewriteHoldsRegistry | scripts/lib/roles.ts:101-110 | the registry's contract id is what the file held, or empty when it held none, and with the carried entries survives a second rewrite |
| Bootstrap.RewriteHoldsNetwork | scripts/lib/roles.ts:78-93 | the rewritten file names the test network, by its five settings |
| Bootstrap.ResolvedAgain | scripts/lib/roles.ts:37-72 | resolving from the rewritten file reuses every key |
| Bootstrap.BootstrapTwice | scripts/lib/roles.ts:37-113 | from any file text, a second run reuses every key and writes the same text; the registry's id is kept from before the first |
| Quotes.QuoteBook.Issue | apps/mcp/src/quotes.ts:56-69 | the book after an issue: past quotes dropped, the oldest evicted for room, the new one last |
| Quotes.QuoteBook.Take | apps/mcp/src/quotes.ts:77-88 | the book and the answer after a take |
| Quotes.QuoteBook.Sweep | apps/mcp/src/quotes.ts:99-109 | the sweep keeps the live quotes in order and drops exactly the others |
| Quotes.LiveAreThose | apps/mcp/src/quotes.ts:99-109 | a sweep splits the book into what is inside its window, in order, and what is past it, each entry as often as it was there |
| Quotes.IssueMakesRoom | apps/mcp/src/quotes.ts:56-69 | over any run an issue evicts only for want of room, just as many of the oldest as leave the ceiling full, and the new quote is last with the earlier of its two ends |
| Quotes.TakeHandsOut | apps/mcp/src/quotes.ts:77-88 | over any run a live waiting quote is handed out when taken, one past its window is dropped as expired, and the others wait on |
| Quotes.UnknownIsNotTaken | apps/mcp/src/quotes.ts:77-81 | an id that does not wait is not found and changes nothing |
| Quotes.SweepDropsPast | apps/mcp/src/quotes.ts:99-109 | over any run a sweep leaves the live quotes and drops the others as expired |
| Quotes.RunConserves | apps/mcp/src/quotes.ts:56-109 | after any calls and for any measure, issued equals waiting plus taken plus dropped |
| Quotes.EachIdIsInOnePlace | apps/mcp/src/quotes.ts:56-109 | an issued id is waiting, taken or dropped, once in all |
| Budget.BudgetIsHeld | apps/mcp/src/runtime.ts:160-167 | over any run and for any days, what the ledger counts as spent, its live grants, is what the waiting quotes signed on those days reserved plus the taken and dropped ones not given back; no waiting quote is ever given back |
| Budget.DayIsHeld | apps/mcp/src/runtime.ts:160-167 | the ledger's own total of a day is what the quotes whose intents were signed that day hold |
| Quotes.TakenInTime | apps/mcp/src/quotes.ts:65-87 | a taken quote was issued and is paid before the earlier of its time to live and its intent's end |
| Quotes.OldestGoFirst | apps/mcp/src/quotes.ts:58-63 | what waits is in issue order, and an issue evicts a first part of it, none of it past its window |
| Quotes.CeilingHoldsWhen | apps/mcp/src/quotes.ts:58-63 | the ceiling holds after every run exactly when it is at least one |
| Vault.FileVault.constructor | packages/vault/src/vault.ts:302-318 | what a vault remembers of the file it opens |
| Vault.FileVault.Record | packages/vault/src/vault.ts:339-369 | an intent that counts is left alone; otherwise it is validated, appended, added to its day and live again |
| Vault.FileVault.Release | packages/vault/src/vault.ts:375-407 | a release is appended once, with its grant's own amount and day, never for a settled intent |
| Vault.MemoryIsTheLog | packages/vault/src/postgres-vault.ts:194-238 | in every run, reopenings included, the file vault's totals are the log's and its process knows of an intent what the database vault reads from the same log, unless it was granted again after a release; with one process it always does |
| Vault.ReloadForgetsWhen | packages/vault/src/vault.ts:302-318 | a reopened file has the same totals and forgets exactly the intents granted again after a release |
| Vault.ForgottenIntentCountsTwice | packages/vault/src/vault.ts:339-376 | such an intent then counts twice and cannot be released |
| Vault.EachCountsOnceWhen | packages/vault/src/vault.ts:302-369 | over any run with reopenings each intent counts once at every moment exactly when no call records one that the process forgot |
| Vault.SpentIsLiveGrants | packages/vault/src/vault.ts:291-296 | in every run that records no forgotten intent, however often the file is reopened, what any days have spent is exactly their grants that no later release gave back |
| Vault.SettledIsNotReleased | packages/vault/src/vault.ts:370-407 | over every run, reopenings included, no release follows an anchoring of its intent |
| Vault.SettledStaysLive | packages/vault/src/vault.ts:370-425 | a grant that counts when its intent is anchored counts for ever after |
| Vault.ReleasedExactlyWhen | packages/vault/src/vault.ts:370-401 | with one process, exactly when a release is appended, and what it holds, or which refusal is given |
| Vault.RecordedExactlyWhen | packages/vault/src/vault.ts:337-369 | with one process, a spend is appended exactly for an amount that reads, of an intent that does not count yet |
| Vault.OthersAreLogged | packages/vault/src/vault.ts:403-426 | anchors and refusals are always appended, and opening the file appends nothing |
| Vault.AmountsTaken | packages/vault/src/internal/amount.ts:24-30 | the amounts taken: up to seven decimals and no leading zero, read for what they are worth |
| MonthSummary.Collect | scripts/lib/team-summary.ts:86-91 | the last anchoring of each intent, and the intents ever released |
| MonthSummary.SummarizeMonth | scripts/lib/team-summary.ts:81-130 | when a month can be summarised, and every field of its summary |
| MonthSummary.SummaryIsTheLog | scripts/lib/team-summary.ts:86-130 | the payments are the log's grants dated in the month, each once and in order, with the last anchor of their intent and whether any release names it; the refusals likewise |
| MonthSummary.LinkIsLast | scripts/lib/team-summary.ts:86-90 | a payment's link is what the last anchor of its intent says, and none when there is none |
| MonthSummary.MonthsAre | scripts/lib/team-summary.ts:81-84 | the texts taken for a month |
| MonthSummary.DayRows | scripts/lib/team-summary-html.ts:66-90 | one row for each day with a payment or a refusal and no other, in day order; each shows exactly that day's spending, counts and share of the budget, the share rounded down; and when it fails |
| MonthSummary.TableConserves | scripts/lib/team-summary-html.ts:66-90 | the rows add up to the summary's spending, payments and refusals, and the days with payments are its active days |
| MonthSummary.EachPaymentOnce | scripts/lib/team-summary-html.ts:73-78 | the count of a day is the number of its payments that were not released |
| MonthSummary.SummaryParses | scripts/lib/team-summary-html.ts:73-78 | a summary that could be made can always be tabled |
| MonthSummary.MonthWithinBudget | scripts/team-summary.ts:124-125 | where no day spends past its budget the month spends at most that budget for each active day |
| MonthSummary.SpentIgnoresOrder | scripts/lib/team-summary.ts:93-127 | what a month spent does not depend on the order of its records |
| MonthSummary.ReleaseSubtracts | scripts/lib/team-summary.ts:86-121 | a release takes off exactly the grants of the intent it names |
| MonthSummary.SummaryAgainstVault | scripts/lib/team-summary.ts:1-9 | in every vault run that records no forgotten intent the vault's own total is the summary's plus the grants made again after a release |
| MonthSummary.RegrantIsMissed | scripts/lib/team-summary.ts:106-121 | granted, released and granted again: the vault counts it, the summary shows nothing |
| Conformance.OnePaymentAtMost | scripts/ucp-stellar-conformance/checks.ts:594-598 | with one signature at most its amount can leave, whatever the store does and however long it waits |
| Conformance.Market.Wait | scripts/ucp-stellar-conformance/checks.ts:594-598 | the store settles any of what it holds, each once, and the balance falls by as much |
| Conformance.SendAltered | scripts/ucp-stellar-conformance/checks.ts:650-679 | C1 passes exactly for the refusal the spec names with no fall of the balance seen; any other answer, or a fall, stops the run with everything after it skipped, an error while it waits included |
| Conformance.PayAndReplay | scripts/ucp-stellar-conformance/checks.ts:681-736 | C2 and C3 send only the one signed transaction; C2 passes only on an order given, and C3 fails on another order, on a fall above the amount, or when the store is not reached |
| Conformance.ChargeOnce | scripts/ucp-stellar-conformance/checks.ts:599-737 | one signature at most, for the amount asked and within the ceiling, wherever an error ends it; C1 is skipped exactly for a low or missing ceiling or an unread balance, and every outcome after it follows from the store's answers and the balance |
| Conformance.ProbeAmount | scripts/ucp-stellar-conformance/checks.ts:475-492 | R6 is skipped without a positive amount, and passes exactly for the refusal the spec names |
| Conformance.CheckCharge | scripts/ucp-stellar-conformance/checks.ts:494-526 | the charge is made exactly for a store that failed no check a payment depends on and asks for what it declares; otherwise everything is skipped and nothing signed |
| Conformance.ChecksAreInOrder | scripts/ucp-stellar-conformance/checks.ts:249-258 | the checks of every run come in the canonical order, none twice, wherever an error ended it |
| Conformance.EveryCheckOnce | scripts/ucp-stellar-conformance/checks.ts:411-526 | a run past the profile that did not throw reports each requirement, charge and receipt check once |
| Conformance.RunConformance | scripts/ucp-stellar-conformance/checks.ts:250-526 | all of this for the whole kit against any store, an error after any check included |
| Gateway.Supervisor.OnExit | apps/gateway/src/server.ts:121-141 | what an app's exit changes |
| Gateway.Supervisor.OnStartupWait | apps/gateway/src/server.ts:144-174 | what the end of a startup wait changes |
| Gateway.Supervisor.OnLateWait | apps/gateway/src/server.ts:161-171 | what the end of a late wait changes |
| Gateway.RoutedExactlyWhen | apps/gateway/src/server.ts:181-196 | a request reaches its app exactly when the app's port has answered and the app has never exited, is asked back in ten seconds exactly while the app's late wait has not ended and in three hundred otherwise; a host that names no app is not found |
| Gateway.WaitForPort | apps/gateway/src/supervisor.ts:61-70 | the wait gives up only after its window, and ends by a time its poll, one try and a late timer add to it |
| Gateway.WaitForLateApp | apps/gateway/src/supervisor.ts:98-106 | the late wait ends by such a time: the app answered and lives, or is gone, or its window passed |
| Gateway.StepKeeps | apps/gateway/src/server.ts:75-196 | every event keeps running apart from exited and from waited-for, and settled critical apps running |
| Gateway.ServingIsSafe | apps/gateway/src/server.ts:75-196 | in every order of events a serving gateway routes to every critical app, and to none that exited or was not started |
| Gateway.ExitedIsNeverRoutedTo | apps/gateway/src/server.ts:98-131 | once an app has exited no later request reaches it |
| Gateway.LateWaitsEnd | apps/gateway/src/server.ts:160-175 | no app is waited for exactly when every app that missed its window has had its late wait end, and an app taken out never returns |
| Gateway.WhatBringsItDown | apps/gateway/src/server.ts:110-155 | over these events, only a signal, a critical app, a child's unhandled error or the listener brings it down, and the exit code says which |
| Gateway.SpawnErrorIsFatal | apps/gateway/src/supervisor.ts:47-53 | a non-critical app whose process cannot be spawned brings the gateway down, though its exits, delays and waits never do |
| Gateway.AnsweringAppJoins | apps/gateway/src/server.ts:148-166 | an app that answers, early or late, and has not exited is routed to |
| Gateway.CriticalAreStarted | apps/gateway/src/hosts.ts:238-240 | a critical app is started whatever secrets are set |
| Gateway.StartedExactlyWhen | apps/gateway/src/hosts.ts:192-240 | an app the pilot can run without is started exactly when each secret it needs is set to something |
| Gateway.ServesOnceListening | apps/gateway/src/server.ts:212-215 | until it is brought down the gateway serves exactly from the moment it listens |
| Html.EscapesAgree | apps/realops/src/copy.ts:20-27 | five replacements in a row escape every text as the one pass does |
| Html.EscapeRoundTrip | scripts/lib/f9-acceptance.ts:112-123 | unescaping undoes both ways of escaping |
| Html.PageSaysWhatWasEscaped | scripts/lib/f9-acceptance.ts:160-162 | a page shows every escaped sentence put after a beginning exactly when that does not stop inside an entity |
| Html.TagEndsCleanly | scripts/lib/f9-acceptance.ts:160-162 | a beginning that ends with a tag never does |
| Redaction.SplitJoinReplaces | scripts/lib/f9-acceptance.ts:225 | splitting and joining replaces every leftmost occurrence |
| Redaction.RedactedIsGone | scripts/lib/f9-acceptance.ts:222-226 | a listed secret that shares no text with the marker is nowhere in the output, whatever the other secrets are |
| Redaction.RedactionIsComplete | scripts/lib/f9-acceptance.ts:222-226 | a secret is always removed exactly when it shares no text with the marker |
| Redaction.PlainSecretsAreSafe | scripts/lib/f9-acceptance.ts:222-226 | secrets without brackets that are not part of the marker's word are such |
| Redaction.TextWithoutSecretsIsKept | scripts/lib/f9-acceptance.ts:222-226 | a text that holds none of the secrets of eight characters or more is left as it was |
| Decimal.SpellingIsFound | scripts/lib/team-summary.ts:56 | the matcher finds the only reading an amount has |
| Decimal.UnitsRoundTrip | scripts/lib/team-summary.ts:55-65 | what is printed is read back by both readers |
| Decimal.PrintedAgain | scripts/lib/team-summary.ts:55-65 | printing what was read gives the text back exactly for seven decimals and no leading zero |
| Decimal.DisplayKeepsValue | scripts/lib/team-summary-html.ts:46-50 | shortening any amount never changes what it is worth |
| Decimal.PrintersAgree | scripts/loadtest-perday.ts:118-124 | the two printers agree exactly at and above zero, and below it on whole amounts |
| Decimal.ScaledRoundTrip | scripts/loadtest-perday.ts:118-132 | the scaled reader undoes its printer at and above zero and refuses below |
| Decimal.ScaledIsStricter | scripts/loadtest-perday.ts:126-132 | the scaled reader accepts exactly the amounts with seven decimals and reads them alike |

## Left out

- Network, Horizon, facilitator, Stellar CLI, Postgres and process spawning: only the answers or events they deliver.
- The `agent-resolve` contract and its guarantee: its disputes have no window, so its guards pass at once here.
- Cryptography, receipts, claims, JSON shapes and hash chains: parameters, or taken as checked.
- The escrow's events, entry lifetimes and the message a rail's owner signs.
- JavaScript numbers: seconds and amounts are unbounded here, so rounding beyond 2^53 is not modelled; the contract's
  64-bit saturating sums are.
- Time zones and calendars: a day is the first ten characters of an ISO instant.
- The coordinator's deadlines and the workers' message channel: a worker that stops is not modelled.
- Which store documents `decide` reads when a dispute lives with its order; the response it heard is a parameter.
- MonthSummary.DayRows: sorts days by their characters, which is how the source's locale order sorts ISO days; other
  texts are not days.
- Conformance.RunConformance: what makes a check pass or fail is a free choice of the store, except where the charge
  depends on it.
- Gateway.RoutedExactlyWhen: takes the app a host resolves to; host matching and environment filtering are not
  modelled.
- The Mandate and policy checks before a purchase, the OAuth and MCP plumbing, pages and translations.
