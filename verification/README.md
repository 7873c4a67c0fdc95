# A verified model of dcrgaming-sdk

dcrgaming-sdk is the money and agreement layer for peer-to-peer table games on
Decred. This project models its state machines and its algebra in Dafny and
proves what they are for: that peers who settle sit at one table, that a deposit
script is exactly its policy, that no payment is asked for or published twice, that
lying in the log gives a key away and opens a bond, that the wire files lose and
repeat nothing, that payouts conserve every atom, that the seat draw favours no
seating, and that a log's head fixes its history.

`dafny verify dfyconfig.toml` checks the whole project (Dafny 4.11).

## How it is laid out

- `bytes.dfy`, `sorting.dfy`: byte strings, hexadecimal and fixed-width encodings;
  sorting by a key and why the choice of sort cannot matter.
- `messages.dfy`, `formation.dfy`, `peer.dfy`, `confluence.dfy`, `window.dfy`,
  `tablestore.dfy`, `records.dfy`, `agreement.dfy`, `joins.dfy`, `silence.dfy`,
  `settling.dfy`: what peers sign, the five-state machine as step functions, the object
  that takes those steps in place, order-independence, the admission deadline, the
  restart and what it takes from a record, many such processes against an adversary,
  what a join proves, when a process falls silent, and how tables form and settle.
- `script.dfy`, `finance.dfy`, `witness.dfy`, `escrow.dfy`: a script evaluator, the
  deposit scripts as policies, the witness builders and the parsers.
- `spend.dfy`, `answers.dfy`, `book.dfy`: the game's spend book and its runs, what an
  answer may decide, and the object.
- `cashier.dfy`, `spendlog.dfy`, `payments.dfy`, `lifecycle.dfy`, `charges.dfy`,
  `caps.dfy`, `policy.dfy`, `tablehistory.dfy`, `tablecap.dfy`: the bridge's spend log,
  its object, at-most-once publication, what a step may make of an entry, one charge a
  deposit, the caps over runs, what settings decide, when a table's cap holds of all the
  log has ever held, and a run that gets past it.
- `dispatch.dfy`: the book and the log together, from a payment to the network.
- `scalars.dfy`, `forfeit.dfy`, `branches.dfy`, `logkey.dfy`: prime-field arithmetic,
  position-nonce Schnorr signatures and branch keys over a group, why a branch key
  cannot be cancelled, and the log key with its book.
- `wirefile.dfy`, `outbox.dfy`, `outboxfile.dfy`, `inbox.dfy`, `inboxonce.dfy`,
  `inboxfile.dfy`, `journal.dfy`, `journalonce.dfy`, `journalfile.dfy`, `fanout.dfy`:
  line files with torn tails, the outbox, the inbox, the journal, each with its object,
  why nothing is filed twice, and the subscribers.
- `payout.dfy`, `fees.dfy`, `payoutorder.dfy`, `settle.dfy`, `shares.dfy`, `seats.dfy`:
  payouts and what their fee covers, shares and the seat draw.
- `gamelog.dfy`, `transcript.dfy`, `logrules.dfy`: the hash-chained log, its transcript,
  and what an appended chain is.

Where the source changes state step by step, a class or a loop here does the same
and is proved to take the step of a specification function; the results are proved
of those functions, over all runs where the claim is about runs.

## What is idealised

- Digests are a function parameter. No function from all byte strings to 32 bytes
  is injective, so a result that needs distinct digests says so of the finite set
  of strings it is about (`NoCollision`; of nonces also that no digest is another's
  negative, `NoOpposites`), and the encodings are proved injective.
- In the agreement runs signatures are unforgeable for honest keys: a digest that
  verifies under such a key is the digest of something that key signed. Such a key
  signs joins, claims, commits and any announcement at any time. The curve
  is a group of prime order with an x-coordinate and a parity (`IsGroup`), which may
  be asked to tell points apart but for negation (`Tells`); `ThreeIsAGroup` shows that
  both can be met.
- Script signatures are a predicate of key, signature and hash type; the relative
  lock follows the "Specification" section of DCP0003.
- Whole-file writes end in one of three ways: done, failed with the file untouched,
  or failed after the new contents were in place. Appends may also be cut at any
  byte by a crash. JSON is a codec that reads back what it wrote and puts no
  newline in a line.
- Identifiers the source draws at random are fresh, and joined text keys (with NUL
  between the parts) are tuples.
- `strings.TrimSpace` and `strings.EqualFold` act on ASCII text.

## Where the code is narrower than its comments

- Accepting an invitation looks at the tables in memory and never at the record. A
  restart whose record is refused, by the game or the credentials, or a table dropped,
  leaves a key free to accept the invitation again and commit to a second table
  (`ForgettingCommitsTwice`). Agreement holds of every run that forgets no commitment;
  one step breaks it exactly when it does away with the record of a key that has let out
  a commit (`Agreement.NextKeeps`), and such a record always says so
  (`CommittedRecordsTell`), so looking at it is enough (`CarefulRunsNeverForget`).
- `Again` carries the attempt number's 32-bit wrap: a retry continues the chain of
  attempts exactly while the last number is not the greatest
  (`RetryContinuesUnlessCounterWraps`), and a run keeps every attempt apart exactly
  when it never retries the greatest (`NothingIsPaidTwice`).
- `writeSpendLog` keeps every day's total but not every table's, so of the log by itself
  the table cap is a cap on what it still holds (`TrimForgetsAnOldTable`,
  `TrimTakesFromTable`). The log's total counts all it ever held exactly while no write
  trims away a payment approved at the table, and then the cap holds of all of it
  (`TableCapHoldsOfHistory`); `TableIsPaidTwice` is a run of the log that pays a table
  twice its cap. In the code the funds ledger, which is not part of this model, puts
  approvals a trim dropped back into the log before the next request is judged
  (pkg/gaming/bridge/gaming_spend.go:427-450), so what is shown here is how much the cap
  owes to that ledger. An empty table name has no table cap.
- An outbox claim whose append failed after it was written must be made again with
  the same text, or the file is rejected at the next start
  (`ReaderRejectsOtherText`).
- An inbox append that failed that way leaves the file a number ahead of memory: the
  next new frame of the same game makes the file unreadable, frames of other games do
  not (`LateAppendPoisons`), and a prune that rewrites the file mends it (`PruneClears`),
  as a restart does. In the
  journal, which has one sequence, the next frame of any group does, and a prune mends
  it only when it deletes the frame that failed (`Journal.LateAppendPoisons`).
- Persist and broadcast are two steps, so a broadcast that overtakes an older frame of
  its game makes a live subscriber skip that frame, exactly when it has not reached it
  yet (`PassingSkips`, `OutOfTurnSkips`).
- The memory book of a log key protects one process only: past it a position is signed
  twice exactly when a different message is signed there again (`ForgettingIsExact`).
- A restart forgets the closed flag, the claims and a conflict proof
  (`RestartIsExact`).

## Model

| member | source | states |
|---|---|---|
| `Agreement.SettledPeersAgree` | pkg/membership/formation.go:553-599 | In every run that forgets no commitment, of any number of processes, with loss, repetition, reordering, crashes, refused records, failed writes and adversarial keys, two settled peers whose memberships share one honest member have equal terms, roster hash and canonical membership, provided no two of the strings those hashes were made of collide. (A run forgets a commitment when it drops, or writes a new invitation over, the record of a key that has let out a commit.) |
| `Agreement.HonestKeysCommitOnce` | pkg/runtime/seating.go:573-623 | A process whose key has let out a commit never lets out another, to any other roster or at any other terms, in any run that forgets no commitment, since it keeps before it publishes and binds again to what it kept. |
| `Agreement.HonestPeersAreNeverFramed` | pkg/membership/formation.go:282-312 | No run that forgets no commitment leaves any process holding a conflict proof against another honest key. |
| `Agreement.NextKeeps` | pkg/runtime/seating.go:56-138 | A deed of any process (accept an invitation whatever the file records, join, claim, commit, window, beacon, abandon, bind, keep, publish, announce, retire, drop, restart with the record taken or refused) keeps the invariant that ties what a key has said to what its process holds in memory and on disk exactly when it does not do away with the record of a key that has let out a commit. |
| `Agreement.ErasingIsExact` | pkg/runtime/seating.go:56-138 | Beginning anew, or dropping a table, leaves a process bound to all its key committed to exactly when it does away with no record or the key has committed to nothing. |
| `Agreement.CommittedRecordsTell` | pkg/runtime/tablestore.go:123-158 | Whenever a key has let out a commit its record says so: the table is bound, given up, or kept for recovery only. |
| `Agreement.CarefulRunsNeverForget` | pkg/runtime/seating.go:56-138 | A run from a fresh start that does away with no record saying one of these forgets no commitment, so the three results hold of it: what to look at before accepting an invitation is the record itself. |
| `Agreement.OnPeerKeeps` | pkg/membership/formation.go:321-338 | No step moves a bound formation to another roster: it stays pinned to it or gives up. |
| `Agreement.OnPeerCommits` | pkg/membership/formation.go:282-312 | Commits of other keys in a formation were there before or came with this message and verified; a conflict is two such commits of one key. |
| `Agreement.RestartVets` | pkg/runtime/tablestore.go:255-389 | A process that comes back holds a formation of its own terms, still pinned to what its key committed to, unless its table comes back for recovery only and bound to nothing. |
| `Agreement.MemberCommitted` | pkg/membership/formation.go:585-599 | Every honest member of a settled peer's membership has itself committed to that peer's roster under the same terms. |
| `Agreement.VouchedCommit` | pkg/membership/messages.go:489-504 | A commit digest vouched for by an honest key is a commit that key made, never a join, a claim or an announcement read as one. |
| `Agreement.RosterNamesTable` | pkg/membership/messages.go:767-783 | One roster hash and one terms hash name one set of terms and one membership. |
| `Silence.FailedWriteIsFound` | pkg/runtime/tablestore.go:190-220 | Storage is found to have failed by every write that did not end well and by nothing else. |
| `Silence.FailedWriteIsWhole` | pkg/runtime/tablestore.go:201-220 | A write that did not end well leaves the file as it was, or as it would have been, and memory as it was. |
| `Silence.FailureSilences` | pkg/runtime/tablestore.go:187-220 | Once storage has failed, no invitation is taken up, nothing is recorded and no commit leaves until the process restarts, whatever it hears. |
| `Silence.RecoveryIsSilent` | pkg/runtime/seating.go:325-336 | A table kept for recovery hears nothing and says no commit until it is dropped or the process restarts; giving it up is all that still changes it. |
| `Silence.RecoverySurvives` | pkg/runtime/tablestore.go:123-162 | A table kept for recovery, or given up, once written down comes back for recovery or not at all. |
| `Confluence.FormationIsConfluent` | pkg/membership/formation.go:207-274 | Before binding or closing, two deliveries that bring the same keys, in any order, with repeats and junk, end in the same state, membership and roster hash, and abort exactly when more keys than seats answered. |
| `Confluence.OutcomeIsVerdict` | pkg/membership/formation.go:553-599 | The outcome is a function of the set of keys that answered, and nothing else. |
| `Window.OnlyTimelyKeysDecide` | pkg/membership/formation.go:165-274 | The keys that answered before the window closed decide the outcome, in whatever order they came and whatever joins and claims come after: too few end the table as short by what is missing, as many as there are seats form it, too many had ended it. |
| `Window.FormedAtTheCloseStands` | pkg/membership/formation.go:242-274 | A table formed when its window closes keeps its joins and roster through whatever is done or heard afterwards, and never ends as oversubscribed, short or unusable: only a member bound to two rosters, or this peer, ends it. |
| `Window.ShortAtTheCloseEnds` | pkg/membership/formation.go:649 | A table not formed when its window closes ends there, and stays ended as short, whatever follows. |
| `Window.LateArrivalsChangeNothing` | pkg/membership/formation.go:242-274 | Once the window is closed, or the table bound or over, no sequence of joins and claims changes joins, phase, membership, roster or anything but the claims on file. |
| `Window.ClosedIsDecided` | pkg/membership/formation.go:165-176 | In every state a formation can reach, a closed table no longer waits for joins. |
| `Formation.NewIsConsistent` | pkg/membership/formation.go:92-112 | A new formation is consistent, open, joining, and holds exactly its own join. |
| `Formation.AdmitKeeps` | pkg/membership/formation.go:242-274 | Admitting a join keeps the formation consistent. |
| `Formation.AssertionKeeps` | pkg/membership/formation.go:207-234 | Taking a claim with its joins keeps the formation consistent. |
| `Formation.CommitKeeps` | pkg/membership/formation.go:282-312 | Taking a commit keeps the formation consistent: settled exactly when every member is bound to its roster. |
| `Formation.BindKeeps` | pkg/membership/formation.go:321-338 | Binding keeps the formation consistent and its roster, and always leaves a formed table bound. |
| `Formation.CloseWindowKeeps` | pkg/membership/formation.go:165-176 | Closing admission keeps the formation consistent. |
| `Formation.AbandonKeeps` | pkg/membership/formation.go:619-627 | Giving up keeps the formation consistent. |
| `Formation.BeaconKeeps` | pkg/membership/formation.go:374-385 | Setting the beacon keeps the formation consistent. |
| `Formation.AssertKeeps` | pkg/membership/formation.go:345-355 | Claiming a membership keeps the formation consistent. |
| `Formation.VerifiedKeysAreUsable` | pkg/escrow/script.go:68-90 | Joins that verify always make a usable membership, so no verified set of joins is refused as unusable. |
| `Formation.RecomputeSettled` | pkg/membership/formation.go:553-599 | Advancing a consistent formation again changes nothing. |
| `FormationPeer.TableFormation.NewFormation` | pkg/membership/formation.go:92-112 | Gives nothing exactly when terms, credentials or the own join are refused, and otherwise the new formation. |
| `FormationPeer.TableFormation.Recompute` | pkg/membership/formation.go:553-599 | The state machine in place takes the specified step, loops over members included. |
| `FormationPeer.TableFormation.AddJoin` | pkg/membership/formation.go:242-274 | In place, admits as specified, which after the window is not at all, and reports an error exactly when a live table is shown a join that does not verify. |
| `FormationPeer.TableFormation.AddAssertion` | pkg/membership/formation.go:207-234 | In place, files the claim and admits its joins one by one, or refuses the whole before changing anything. |
| `FormationPeer.TableFormation.AddCommit` | pkg/membership/formation.go:282-312 | In place, takes a commit as specified; a second one by the same key to another roster ends the table or, once settled, is recorded. |
| `FormationPeer.TableFormation.Bind` | pkg/membership/formation.go:321-338 | In place, binds as specified and returns this key's commit to the roster held, or none before a membership is formed. |
| `FormationPeer.TableFormation.CloseWindow` | pkg/membership/formation.go:165-176 | In place, closes admission as specified, ending a table that is short. |
| `FormationPeer.TableFormation.Agreed` | pkg/membership/formation.go:189-199 | True exactly when every member claimed this roster. |
| `FormationPeer.TableFormation.MakeAssertion` | pkg/membership/formation.go:345-355 | Claims the roster held, and records the claim, exactly when there is a membership. |
| `FormationPeer.TableFormation.SetBeacon` | pkg/membership/formation.go:374-385 | Keeps the first beacon and refuses an empty one. |
| `FormationPeer.TableFormation.Abandon` | pkg/membership/formation.go:619-627 | Ends a formed, committed or settled table and no other. |
| `Messages.TermsBytesInjective` | pkg/membership/messages.go:149-176 | The bytes the terms hash covers determine every field of valid terms, with or without bond terms. |
| `Messages.RosterBytesInjective` | pkg/membership/messages.go:767-783 | The bytes a roster hash covers determine the terms hash and the member list. |
| `Messages.CommitBytesInjective` | pkg/membership/messages.go:489-504 | The bytes a commit signs determine the terms hash and the roster. |
| `Messages.KindsAreSeparate` | pkg/membership/messages.go:24-40 | No bytes are of two kinds of thing digested: terms, rosters, joins, assertions, commits, announcements of stakes, bonds and payouts, and seat draws. |
| `Messages.AnnouncementBytesInjective` | pkg/membership/messages.go:571-736 | The bytes of an announcement of one kind determine the terms hash, the seat and what is announced. |
| `Joins.JoinBytesInjective` | pkg/membership/messages.go:305-330 | The bytes a join signs determine the table, both keys and the deposit cited. |
| `Joins.PopBytesInjective` | pkg/membership/messages.go:334-380 | The bytes a proof of possession signs determine the deposit and the session key that may cite it. |
| `Joins.AssertionBytesInjective` | pkg/membership/messages.go:450-462 | The bytes a claim signs determine the table and the roster. |
| `Joins.JoinProves` | pkg/membership/messages.go:334-380 | A join verifies exactly when it names two different readable keys, its session key signed this claim at these terms, and the deposit it cites is an admission script behind the agreed lock whose owner signed that this session key may cite it. |
| `Joins.HeldIsSigned` | pkg/membership/formation.go:242-315 | Every join and every commit in a formation was signed by the key it is filed under, at the formation's terms. |
| `Joins.VouchedJoin` | pkg/membership/messages.go:276-380 | A join that an honest key vouches for is one that key made: for the same table, with the same log key, citing the same deposit. |
| `Joins.SittingDownNeeds` | pkg/membership/formation.go:92-112 | A seat is claimed exactly under valid terms, by credentials whose log key is apart, whose deposit is named, and whose own claim verifies. |
| `Joins.OwnJoinVerifies` | pkg/membership/messages.go:276-300 | Honest credentials' own claim verifies, when their deposit is behind the agreed lock and theirs. |
| `Joins.OthersTakeNoInvitation` | pkg/runtime/seating.go:56-138 | A process that has a table, knows the session's end or whose storage failed takes up no invitation and says nothing. |
| `Joins.ValidTermsAreBuildable` | pkg/membership/messages.go:107-145 | Terms are valid exactly when they name a game and a session, have a deadline and a bond of coins there are, and the refundable deposit and the reclaimable bond they call for can be built for as many distinct keys as there are seats. |
| `Joins.ValidLocksCanBeMet` | pkg/membership/messages.go:107-145 | Every lock that valid terms state can be met by the sequence that shows it; no transaction at all meets one longer than a sequence holds. |
| `TableStore.RestartRebuilds` | pkg/runtime/tablestore.go:123-389 | The record of any formation that has not ended, when credentials and game load, rebuilds its state, joins, membership, roster, commits and beacon, and whether it is kept for recovery only. |
| `TableStore.RestartIsExact` | pkg/runtime/tablestore.go:123-389 | What comes back as a usable table equals the formation itself exactly when credentials and game load, it had not ended, its window was open, no claim was filed and no conflict proved. |
| `TableStore.ResumedStandsByItsRoster` | pkg/runtime/tablestore.go:317-352 | Any record at all is refused or makes a consistent formation, and one that says its key committed to a roster never comes back bound to another. |
| `TableStore.JoinsComeBack` | pkg/runtime/tablestore.go:308-316 | Recorded joins given again one at a time are all admitted and leave the same joins. |
| `TableStore.CommitsComeBack` | pkg/runtime/tablestore.go:341-352 | Recorded commits given again one at a time are all taken and settle what was settled. |
| `TableStore.Snapshot` | pkg/runtime/tablestore.go:123-158 | The record lists joins by key, commits by signer, the roster exactly when bound, and whether the table is kept for recovery only. |
| `TableStore.Resume` | pkg/runtime/tablestore.go:255-389 | The replay loops and their refusals, the credentials' and the game's own among them, give the specified outcome: a consistent formation, one for recovery only when the table was given up or retired, a table not joined yet, a session that is over, or a refusal. |
| `TableStore.AbortedComesBackForRecovery` | pkg/runtime/tablestore.go:274-376 | A table given up comes back only while money is held at it and credentials and game load, and then for recovery only: consistent, bound to nothing, holding commits it held before and no proof of a conflict. |
| `TableStore.RebuildTable` | pkg/runtime/tablestore.go:305-362 | Replaying joins, the own commitment, commits and beacon gives the specified formation or none. |
| `Records.RebuiltIsVerified` | pkg/runtime/tablestore.go:255-395 | A table that comes back and had not ended holds exactly this peer's own join and those recorded, and exactly the recorded commits and its own if it was bound, and each of them verifies at the recorded terms, whatever the record was made to say. |
| `Records.AcceptedIsEmpty` | pkg/runtime/tablestore.go:255-300 | A table comes back as accepted and not yet joined exactly when its record shows no join, no commitment and no beacon, under valid terms that load, and was not abandoned without money held. |
| `Finance.CooperativeScriptIsItsPolicy` | pkg/finance/descriptor.go:136-169 | For any witness stack the script runs to a clean true stack exactly when the stack is every member's signature in order and a true flag, or the owner's alone and a false flag with the lock met. |
| `Finance.AdmissionScriptIsItsPolicy` | pkg/finance/descriptor.go:124-135 | For any witness stack the script accepts exactly the owner's signature with the lock met. |
| `Finance.CooperativeSize` | pkg/finance/descriptor.go:136-169 | A cooperative script of n members is at most 45 + 35n bytes, so 500 at thirteen. |
| `Witness.CanonicalSpellsKeys` | pkg/finance/descriptor.go:53-105 | A canonical descriptor spells its keys in lower case, in the order the script sorts their bytes. |
| `Witness.CanonicalHasScript` | pkg/finance/descriptor.go:107-122 | Every descriptor with a canonical form has a script of at most 500 bytes, the script of its keys in order. |
| `Witness.MemberKeysAreSorted` | pkg/finance/descriptor.go:83 | The script's own sort of the members changes nothing. |
| `Witness.Canonicalize` | pkg/finance/descriptor.go:53-105 | The loops over keys, the sort and the roster scan give the specified canonical form or refusal. |
| `Witness.ScanRoster` | pkg/finance/descriptor.go:84-90 | Finds a repeated member, the game identity among members, and whether the owner is one, exactly. |
| `Witness.BuildCooperativeScript` | pkg/finance/descriptor.go:136-169 | The builder's loop gives the specified script or refusal. |
| `Witness.BuildSettlementWitness` | pkg/finance/transaction.go:116-138 | The loop over members in reverse gives the specified witness or refusal. |
| `Witness.SettlementWitnessSpends` | pkg/finance/transaction.go:116-138 | Every witness the settlement builder makes spends the output. |
| `Witness.SettlementNeedsEverySignature` | pkg/finance/transaction.go:116-138 | The settlement builder makes a witness exactly when every member's signature is there and valid. |
| `Witness.RefundWitnessSpends` | pkg/finance/transaction.go:79-98 | A refund witness spends the output exactly when the lock is met. |
| `Witness.RefundGoesThrough` | pkg/finance/transaction.go:24-39 | The refund transaction the module itself builds meets the lock, so its witness spends. |
| `Escrow.ParseBondInvertsAdmissionScript` | pkg/escrow/bond.go:29-51 | A script is parsed to some terms exactly when it is the admission script of those terms. |
| `Escrow.MembersOfCooperativeScript` | pkg/escrow/script.go:94-150 | Reading a cooperative script back gives its canonical members and their number. |
| `Escrow.Members` | pkg/escrow/script.go:123-150 | The tokenizer's loop gives the specified members or refusal. |
| `Escrow.MemberCount` | pkg/escrow/script.go:94-115 | The tokenizer's loop gives the specified count or refusal. |
| `Escrow.SortMembers` | pkg/escrow/script.go:68-90 | Copies, checks and sorts the members as specified. |
| `Escrow.CanonicalMembersAre` | pkg/escrow/script.go:68-90 | There is a canonical list exactly for one to thirteen readable compressed keys, no two alike, and it is those keys in order. |
| `Escrow.ReadLittleEndian` | pkg/escrow/bond.go:59-76 | The loop over a push's bytes reads the number they spell. |
| `Script.TokenizeInvertsFlat` | pkg/escrow/script.go:123-150 | Tokenizing a script gives back exactly the tokens it was built from. |
| `Spend.NothingIsPaidTwice` | pkg/spend/obligation.go:10-66 | In every run from an empty book, whatever answers come, writes fail and restarts happen, the file holds a chained book after every step exactly when no step retries an attempt numbered with the greatest 32-bit number; and in every such run the attempts at one payment are 0 to n without a repeat, each below the last was refused with no transaction or output, and each is sent to the bridge at most once. |
| `Spend.RetryContinuesUnlessCounterWraps` | pkg/spend/obligation.go:44-66 | A permitted retry continues the chain of attempts exactly when the last attempt is not the greatest 32-bit number. |
| `Spend.OnlyTheLastAttemptIsAlive` | pkg/spend/obligation.go:44-66 | A request that is not its payment's last attempt is terminal and unpaid. |
| `Spend.NextKeeps` | pkg/runtime/fund.go:106-181 | Asking, dispatching, retrying, adopting, noting, locating and reopening all keep the chain of attempts and the once-only permits, but for a retry of the attempt with the greatest number. |
| `Spend.ReserveKeepsChain` | pkg/spend/obligation.go:10-40 | A granted reservation is the first attempt at its payment. |
| `Spend.RetryKeepsChain` | pkg/spend/obligation.go:44-66 | A granted retry is one new attempt after the refused last one. |
| `Spend.AdoptKeepsChain` | pkg/spend/book.go:221-253 | Naming a waiting request loses and repeats no attempt. |
| `Spend.ChangeKeepsChain` | pkg/spend/book.go:153-217 | Recording an answer or an output loses and repeats no attempt, and never touches one refused for good. |
| `Spend.NotedKeepsIdentity` | pkg/spend/book.go:153-199 | An answer changes only an open request, and nothing of what it is for. |
| `Answers.UnreachableClosesNothing` | pkg/spend/book.go:153-217 | From any book a run leads to, a request open in memory and in the file stays open through every run in which no answer refuses it, however often the bridge is out of reach, writes fail and the process restarts; its approval is then taken with the transaction it names, and the payment can be located. |
| `Answers.RefusedIsForGood` | pkg/spend/state.go:84-120 | From any book a run leads to, a request refused in memory and in the file is never changed again, whatever is answered later. |
| `Answers.OnlyRefusalsClose` | pkg/spend/book.go:153-199 | An answer changes only an open request, and closes it exactly when the bridge denied it, failed, or let it expire. |
| `Answers.AnswersTell` | pkg/spend/book.go:153-199 | Which state, transaction, error and unreachable note each answer leaves: not being reached leaves an approved request approved and any other unknown; trouble and answers not understood leave it alone. |
| `Answers.OnlyPaidIsLocated` | pkg/spend/book.go:202-217 | Locating works on an approved or located request and on no other. |
| `Answers.FaultStops` | pkg/spend/book.go:313-331 | A write that did not land, or landed unknown to the process, stops the book: until it is opened again nothing changes and no permission to pay is given. |
| `Answers.OnlyWholeRequestsAreKept` | pkg/spend/obligation.go:10-40 | No run puts a request on the book, in memory or in the file, that does not say where to, for what, under which terms and how much. |
| `SpendBook.RendersOneLedger` | pkg/spend/book.go:86-106 | A file of records is the rendering of one book only, so what was saved is what is read. |
| `SpendBook.Book.OpenBook` | pkg/spend/book.go:86-106 | Reads the book a file renders, and refuses a file that no well-formed book renders. |
| `SpendBook.Book.SaveLocked` | pkg/spend/book.go:313-331 | Writes the whole book; memory follows only a write that worked, and a failure latches. |
| `SpendBook.Book.CommitLocked` | pkg/spend/book.go:299-311 | Adds or replaces one record and saves. |
| `SpendBook.FindExisting` | pkg/spend/obligation.go:17-32 | Finds the latest attempt at the same payment when all agree on its terms; on a chained book it refuses exactly a conflict. |
| `SpendBook.Book.Reserve` | pkg/spend/obligation.go:10-40 | Grants a fresh record exactly when the request is complete, none exists for the payment, and the write worked; otherwise returns the latest attempt or refuses. |
| `SpendBook.Book.Retry` | pkg/spend/obligation.go:44-66 | Grants one more attempt exactly after a proven refusal with no later attempt. |
| `SpendBook.Book.Adopt` | pkg/spend/book.go:221-253 | Names the one waiting request, exactly when there is exactly one. |
| `SpendBook.Book.Note` | pkg/spend/book.go:153-199 | Takes the specified step on an answer, and says whether it was taken and written. |
| `SpendBook.Applied` | pkg/spend/book.go:153-199 | Field by field, changes what the specification of the answer changes. |
| `SpendBook.Book.Locate` | pkg/spend/book.go:202-217 | Records the output of an approved payment, overwrites that of a located one, and says whether it was written. |
| `Payments.NothingIsPublishedTwice` | pkg/gaming/bridge/gaming_spend.go:731-893 | In every interleaving of approvals, denials, expiry, settings changes, reconciliation, failed writes and crashes, no request is handed to the network twice, and none ever recorded denied or expired is handed to it at all. |
| `Payments.NextKeeps` | pkg/gaming/bridge/gaming_spend.go:685-968 | Every operation keeps the invariant that ties the log to what was published. |
| `Payments.MarkedAwaitsNothing` | pkg/gaming/bridge/gaming_spend.go:863-893 | An entry marked publishing awaits no answer in the log any more, trimmed or not. |
| `Payments.RewritesFollow` | pkg/gaming/bridge/gaming_spend.go:899-968 | Every rewrite of the log keeps identifiers distinct, makes nothing await that did not, and refuses only what awaited. |
| `Charges.OneDepositIsChargedOnce` | pkg/gaming/bridge/gaming_spend.go:452-457 | In every run from the empty log, of any two entries for one deposit the earlier has failed: one funding obligation, never a second charge. |
| `Charges.ChargedIsNotFiledAgain` | pkg/gaming/bridge/gaming_spend.go:534-543 | A request for a deposit that has an entry which did not fail, or whose funding stands, files nothing whatever policy says; at most what had expired is written down. |
| `Charges.FailedIsAskedAnew` | pkg/gaming/bridge/gaming_spend.go:452-610 | When every entry for a deposit failed and its funding was let go, a request for it is filed exactly when policy, the ceiling and both caps carry it and the write lands. |
| `Charges.NextKeepsOneCharge` | pkg/gaming/bridge/gaming_spend.go:491-968 | Every step of every kind, trims among them, keeps it so that of two entries for one deposit the earlier has failed. |
| `Lifecycle.EntriesGoOn` | pkg/gaming/bridge/gaming_spend.go:205-968 | After any step every entry of the log is one that was there, as it was or one lawful step on, or a request just asked for: a pending one expires in time, falls to changed settings, is denied or goes out; only what is out or the chain has shown is approved; what was asked for never changes. |
| `Lifecycle.NothingStaysPending` | pkg/gaming/bridge/gaming_spend.go:212-230 | No request outlives its time as pending in what a look writes down, and none of a game whose settings changed stays pending. |
| `Lifecycle.DecisionsStand` | pkg/gaming/bridge/gaming_spend.go:685-938 | A denial, a payment on its way and what the network said of it are each written of their own entry and change nothing else of it. |
| `Lifecycle.ChainAnswersStand` | pkg/gaming/bridge/gaming_financial_worker.go:610-647 | What the chain has answered is written of every request it is about. |
| `Policy.RequestIsFiledExactly` | pkg/gaming/bridge/gaming_spend.go:305-610 | In every state a run reaches, a request for a new deposit is filed exactly when its game may ask for that much, has fewer than eight in flight, and the atoms moved or pending leave room in the day's and the table's cap. |
| `Policy.ApprovalStartsExactly` | pkg/gaming/bridge/gaming_spend.go:731-777 | In every state a run reaches, an approval starts exactly for a request pending in time, that nobody is approving, and that the settings as they are now leave room for, itself left out. |
| `Policy.CapsLeaveTheRoom` | pkg/gaming/bridge/gaming_spend.go:234-374 | The saturating totals the code keeps refuse exactly what the atoms themselves leave no room for. |
| `Dispatch.OnePaymentReachesTheNetwork` | pkg/gaming/bridge/gaming_spend.go:491-893 | In every run of a game's book and the bridge's log together, with answers lost, writes failing and both sides crashing and restarting, of all requests ever filed for one table, purpose and seat at most one is ever handed to the network, and that once; provided each attempt sent arrives at most once, the book is given true names and told only of refusals the bridge recorded, and the attempt counter does not wrap. |
| `Dispatch.NextKeeps` | pkg/runtime/fund.go:106-181 | Every step of either side, and every arrival of a request, keeps the invariant that ties the book's attempts to the bridge's requests: each named attempt is filed under its name, under no other, and refused in the book only if the bridge refused it. |
| `Dispatch.LowerWasRefused` | pkg/spend/obligation.go:44-66 | A request filed for an attempt below one that was sent was refused by the bridge. |
| `Caps.CapsHold` | pkg/gaming/bridge/gaming_spend.go:180-374 | With fixed positive caps and a clock that does not go back, in every reachable log and at every later time, the atoms a game moved in the last day or still may are within its day's cap, those it paid at a named table or still may within the table's, and at most eight requests are in flight; and the code's totals are those sums. |
| `Caps.AdmittedStaysCapped` | pkg/gaming/bridge/gaming_spend.go:545-610 | A request that is admitted stays within both caps and the ceiling. |
| `Caps.TrimForgetsAnOldTable` | pkg/gaming/bridge/gaming_spend.go:180-208 | Of any log headed by an approved payment more than a day old, with five hundred other entries none of which counts at its table, the trim drops the payment and its table's total with it. |
| `TableCap.TableIsPaidTwice` | pkg/gaming/bridge/gaming_spend.go:180-374 | Of the log alone, without what the funds ledger puts back into it: for any game, table and cap, a run from the empty log, with fixed caps and a clock that does not go back, pays the table its whole cap, and a day and five hundred refused requests later pays it the whole cap again. |
| `TableHistory.TableCapHoldsOfHistory` | pkg/gaming/bridge/gaming_spend.go:234-278 | With fixed caps and a clock that does not go back, the log's total still counts everything a run ever recorded approved at a named table, and not failed since, exactly when no write of the run trims away a payment approved there; and then all of that is within the table's cap. |
| `TableHistory.GoneIsPaid` | pkg/gaming/bridge/gaming_spend.go:180-208 | From any log within its caps, what the trims of a run take from a table's total is the payments approved there that they drop, and nothing exactly when no write drops one. |
| `TableCap.Fill` | pkg/gaming/bridge/gaming_spend.go:491-715 | Five hundred requests each denied leave the log with none of the payments made before them. |
| `TableCap.Approve` | pkg/gaming/bridge/gaming_spend.go:731-935 | An approval that begins, marks, publishes and records leaves its entry approved and handed to the network once. |
| `Cashier.DropTakesOldestUncounted` | pkg/gaming/bridge/gaming_spend.go:180-208 | The trim drops exactly the oldest entries that no longer count, as many as there are to drop, and everything that counts stays. |
| `Cashier.TrimKeepsDayTotals` | pkg/gaming/bridge/gaming_spend.go:180-255 | No game's day total at any later time notices a trim. |
| `Cashier.TrimTakesFromTable` | pkg/gaming/bridge/gaming_spend.go:260-278 | A trim keeps a table's total exactly when, of the oldest entries that no longer count, as many as the log is over its bound, none is a payment approved there. |
| `Cashier.DropParts` | pkg/gaming/bridge/gaming_spend.go:180-208 | Of every total, what is left and the oldest uncounted entries dropped are between them the whole, however many are dropped. |
| `SpendLog.ExpireLocked` | pkg/gaming/bridge/gaming_spend.go:212-222 | Expires exactly the pending entries past their time and says whether any was. |
| `SpendLog.AddUp` | pkg/gaming/bridge/gaming_spend.go:234-278 | The saturating loop computes the exact sum, or the greatest number for a negative or uncountable total. |
| `SpendLog.OutstandingFor` | pkg/gaming/bridge/gaming_spend.go:541-549 | Counts a game's requests still in flight. |
| `SpendLog.Bridge.WriteSpendLog` | pkg/gaming/bridge/gaming_spend.go:180-208 | Writes the trimmed log as specified. |
| `SpendLog.Bridge.RequestGamingSpend` | pkg/gaming/bridge/gaming_spend.go:491-611 | A deposit's first entry that did not fail, or its first entry at all while its funding stands, is the answer whatever policy says, once what expired is written down, and nothing else changes; otherwise one is filed exactly when policy, ceiling and caps carry it. |
| `SpendLog.Bridge.ExistingFundingSpend` | pkg/gaming/bridge/gaming_spend.go:459-485 | Writes down what expired and then gives the deposit's first entry that did not fail, or its first at all while its funding stands, and none when there is none; fails exactly when that write does. |
| `SpendLog.Bridge.FileRequest` | pkg/gaming/bridge/gaming_spend.go:521-610 | Under the lock, a request policy carries is answered with that entry, or filed exactly when the backlog and both caps carry it and the write worked; when every entry for the deposit failed it is answered with the new one or refused. |
| `SpendLog.AnswerIsTold` | pkg/gaming/bridge/gaming_spend.go:452-543 | The entry that answers for a deposit is what both looks find and tell, and when it cannot be written down as expired nothing is told. |
| `SpendLog.Bridge.DenyGamingSpend` | pkg/gaming/bridge/gaming_spend.go:685-715 | Denies a pending request nobody is approving, and nothing else, and says whether the denial was written. |
| `SpendLog.Bridge.InvalidatePendingSpends` | pkg/gaming/bridge/gaming_spend.go:944-968 | Retires exactly the pending requests of the games named. |
| `SpendLog.Bridge.BeginApproval` | pkg/gaming/bridge/gaming_spend.go:731-802 | Starts an approval exactly when the request is pending, not being approved, and still within policy. |
| `SpendLog.Bridge.MarkSpendPublishing` | pkg/gaming/bridge/gaming_spend.go:863-893 | Lets an approval go on exactly when the request was still pending and its mark was written. |
| `SpendLog.Bridge.RecordSpendOutcome` | pkg/gaming/bridge/gaming_spend.go:904-935 | Gives an outcome to a publishing entry and to no other, and reports success exactly when an approval was written. |
| `SpendLog.Bridge.Poll` | pkg/gaming/bridge/gaming_spend.go:617-645 | Writes down what has expired, and nothing else. |
| `Forfeit.EquivocationYieldsTheKey` | pkg/forfeit/sign.go:371-428 | Two position signatures by one key at one position recover exactly that key when their challenges differ, whatever the parity of the nonce point, and nothing when they do not. |
| `Forfeit.EquivocationOpensTheBond` | pkg/forfeit/key.go:371-392 | From two such signatures the branch's spending key follows, and it is the discrete logarithm of the key the bond pays to. |
| `Forfeit.BranchSecretOpensBranchKey` | pkg/forfeit/key.go:261-392 | A branch has a spending key exactly when it has a public key, and the one is the discrete logarithm of the other. |
| `Branches.RogueHalfGainsNothing` | pkg/forfeit/key.go:212-261 | A punisher who announces whatever point makes its key and the log key add up to a point of its own gets no branch key of its own, when the strings the branch's weights are drawn from do not collide. |
| `Branches.RogueLogKeyGainsNothing` | pkg/forfeit/key.go:212-261 | Nor does an owner who chooses its log key after seeing the punisher's. |
| `Branches.AnnouncedHalfIsExact` | pkg/forfeit/key.go:261-303 | A punisher's half announced as a G + b L, for any a and b, leaves nothing of the log key in the branch key exactly when the two weights meet b, or the log key is nothing. |
| `Branches.AnnouncedLogKeyIsExact` | pkg/forfeit/key.go:261-303 | A log key announced as a G + b P leaves nothing of the punisher's key exactly when the two weights meet b, or that key is nothing. |
| `Branches.HalvesWeighDifferently` | pkg/forfeit/key.go:316-338 | The two halves of one branch key never weigh the same, when the strings their weights are drawn from do not collide. |
| `Branches.WeightsAreOwn` | pkg/forfeit/key.go:338-357 | Two halves, two tables, two seats or two pairs of keys never share a weight, under the same proviso. |
| `Branches.WeightBytesInjective` | pkg/forfeit/key.go:338-357 | What a try at a weight is made of determines the half, the table, the seat, both keys and the try. |
| `Branches.BranchKeyIs` | pkg/forfeit/key.go:261-303 | A branch key is the point of its two halves' secrets, weighed and added. |
| `Branches.OwnKeyMakesNoBranch` | pkg/forfeit/key.go:268-285 | The log key, or its negation, as the punisher's half makes no branch. |
| `Branches.BranchIsNamed` | pkg/forfeit/key.go:191-310 | A branch key is of a named table, without space around the name, of a readable compressed seat key, between two different points of the curve, and is not nothing. |
| `Forfeit.SignaturesVerify` | pkg/forfeit/sign.go:274-327 | Whatever the nonce, what is signed verifies with the stock verifier under the signer's own key. |
| `Forfeit.RecoveredIsTheSecret` | pkg/forfeit/sign.go:371-428 | Whatever is recovered is the secret of the key asked about. |
| `Forfeit.SignedWith` | pkg/forfeit/sign.go:274-327 | A signature is the x-coordinate of a nonce point of even y and one response under that nonce. |
| `Forfeit.DeriveScalar` | pkg/forfeit/sign.go:187-203 | The counter loop finds the first digest that is a scalar and not zero. |
| `Forfeit.NonceBytesInjective` | pkg/forfeit/sign.go:187-194 | What a try at a nonce is made of determines the key, the match, the domain, the number and the try. |
| `Forfeit.CommittedNonceBytesInjective` | pkg/forfeit/sign.go:211-244 | What a try at a committing nonce is made of determines the key, the match, the domain, the number, the message and the try. |
| `Forfeit.SourcesHaveOwnNonces` | pkg/forfeit/sign.go:169-245 | One key's nonces at two positions, for two messages committed to, or for one of each, differ when the strings they are drawn from do not collide. |
| `Forfeit.SourcesKeepTheKey` | pkg/forfeit/sign.go:207-272 | From two signatures of one key whose nonces come from different sources nothing is recovered: two positions, two messages committed to, or a position and a message committed to, when the digests their nonces are drawn from neither collide nor are each other's negatives. |
| `Forfeit.CommittingKeepsTheKey` | pkg/forfeit/sign.go:211-244 | From an honest key's signatures committing to two messages, at one position or at two, nothing is recovered, under the same provisos. |
| `Forfeit.PositionsKeepTheKey` | pkg/forfeit/sign.go:61-70 | From an honest key's signatures at two different positions, an entry and a head at one number among them, nothing is recovered, when the digests their nonces are drawn from neither collide nor are each other's negatives. |
| `Forfeit.NonceKindsAreApart` | pkg/forfeit/sign.go:183-216 | No bytes make a nonce both with and without the message. |
| `Forfeit.DomainsKeepTheirWay` | pkg/forfeit/sign.go:75-147 | Each of the nine domains is signed in one way only: what commits to its message never by its position alone, and what its position fixes never with a nonce of its message. |
| `Forfeit.ThreeIsAGroup` | pkg/forfeit/sign.go:61-70 | Everything the results on keys ask of a group is met by one: it is of prime order with a parity, and its x-coordinates tell points apart but for negation. |
| `Scalars.TwoResponsesSolve` | pkg/forfeit/sign.go:412-419 | Two responses under one nonce and different challenges determine the key. |
| `Scalars.InverseCancels` | pkg/forfeit/sign.go:419 | Modulo a prime every nonzero scalar has the inverse computed for it. |
| `LogKeys.NeverTwoAtOnePosition` | pkg/forfeit/key.go:123-148 | With a book that outlives the process, no run of signing, failing to record and restarting signs two messages at one position. |
| `LogKeys.HonestKeysAreNotRecovered` | pkg/forfeit/key.go:123-154 | So nothing such a key lets out recovers it, in any run: no two signatures by position, no two committing to messages, at one position or at two, and no one of each, when their nonces' digests do not collide or cancel. |
| `LogKeys.ForgettingSignsTwice` | pkg/forfeit/key.go:48-63 | For one: after forgetting, the next different message at a signed position is signed too. |
| `LogKeys.ForgettingIsExact` | pkg/forfeit/key.go:48-63 | A book that dies with its process does not protect past it: after forgetting, a run signs some position twice exactly when, from an empty book, it signs a different message at a position signed before. |
| `LogKeys.LogKey.Sign` | pkg/forfeit/key.go:123-148 | Records before it signs, and signs exactly when the position was free or held this message and the book took it. |
| `LogKeys.LogKey.SignCommitted` | pkg/forfeit/key.go:152-154 | Gives the committing signature, at any position and number of times, and leaves the book alone. |
| `WireFiles.ReadsWholeRecords` | pkg/gaming/bridge/gaming_wire_inbox.go:40-85 | Whatever part of one more record a crash left, reading gives exactly the records written whole. |
| `WireFiles.HealTornTail` | pkg/gaming/bridge/gaming_wire_inbox.go:40-85 | Walking back a chunk at a time drops exactly what follows the last newline. |
| `WireFiles.AppendFiles` | pkg/gaming/bridge/gaming_wire_outbox.go:133-156 | However an append ends, the file is whole records and at most a piece of one. |
| `Outbox.TakenAtMostOnce` | pkg/gaming/bridge/gaming_wire_outbox.go:54-255 | In every run, with crashes at any byte and appends that fail before or after they are written, the reader accepts the file and gives the map as of the last whole record, and of one message's sends all but the last were refused for certain. |
| `Outbox.ReaderRejectsOtherText` | pkg/gaming/bridge/gaming_wire_outbox.go:103-131 | A claim whose append failed after it was written, made again, leaves a readable file exactly when it is made with the same text. |
| `Outbox.LateClaimIsReached` | pkg/gaming/bridge/gaming_wire_outbox.go:103-131 | A run from nothing reaches such a claim: one claim whose append failed once written leaves the key in the file and not in memory. |
| `Outbox.OperateKeeps` | pkg/gaming/bridge/gaming_wire_outbox.go:103-207 | Claiming, marking and releasing keep memory, file and calls in step. |
| `Outbox.SendKeeps` | pkg/gaming/bridge/gaming_wire_outbox.go:241-255 | The one send a fresh claim allows keeps a possibly taken message claimed or sent. |
| `Outbox.LoadKeeps` | pkg/gaming/bridge/gaming_wire_outbox.go:39-96 | Rereading the healed file after a restart gives exactly the records written whole. |
| `Outbox.OneMessageHasOneText` | pkg/gaming/bridge/gaming_wire_outbox.go:54-207 | In every run the records of one message carry one text, and none takes back a message that stood as sent. |
| `OutboxFile.ReadClaims` | pkg/gaming/bridge/gaming_wire_outbox.go:54-96 | The scan folds lines into the map and rejects a damaged line, another text and a sent message taken back, as specified. |
| `OutboxFile.BridgeOutbox.ClaimSend` | pkg/gaming/bridge/gaming_wire_outbox.go:103-131 | Grants the send exactly when the message was never claimed, or released, and the claim was written. |
| `OutboxFile.BridgeOutbox.MarkSent` | pkg/gaming/bridge/gaming_wire_outbox.go:158-182 | Marks a claimed message sent, and reports success exactly when it already stood as sent with this text or its mark was written. |
| `OutboxFile.BridgeOutbox.Release` | pkg/gaming/bridge/gaming_wire_outbox.go:186-207 | Releases an open claim and nothing else, and reports success exactly when the release was written. |
| `Inbox.PruningIsDeletion` | pkg/gaming/bridge/gaming_wire_inbox.go:115-299 | After any run of persists, prunes, failed writes and crashes, the reader accepts the file; every frame handed out is in it under its number unless its group was pruned since, each game's frames in order and its highest number kept; and no number is handed out twice. When no write failed after it reached the file, the file says exactly what appending and deleting alone would. A frame may be persisted whenever memory and file agree on its game's last number. |
| `Inbox.PruneIsExact` | pkg/gaming/bridge/gaming_wire_inbox.go:165-215 | Pruning deletes exactly the group's frames and keeps the highest number. |
| `Inbox.RewriteFolds` | pkg/gaming/bridge/gaming_wire_inbox.go:185-208 | The rewritten file passes the reader's own check and reads back as it was written, whatever order the games are in. |
| `Inbox.LateAppendPoisons` | pkg/gaming/bridge/gaming_wire_inbox.go:259-299 | After an append that failed once it was in the file, the next new frame in the same process leaves a file the reader accepts exactly when it is another game's. |
| `Inbox.LevelIsExact` | pkg/gaming/bridge/gaming_wire_inbox.go:259-299 | In every reachable state a new frame leaves a readable file exactly when memory and file agree on the last number of its game. |
| `Inbox.PruneClears` | pkg/gaming/bridge/gaming_wire_inbox.go:165-215 | A prune after such an append rewrites the file from memory: the frame is gone from it, and every frame may be persisted again. |
| `Inbox.PlainStep` | pkg/gaming/bridge/gaming_wire_inbox.go:115-299 | While memory is what the file says and no write fails late, every complete frame may be persisted, and each step is the append or the deletion it stands for and keeps memory and file in step. |
| `Inbox.FoldOrders` | pkg/gaming/bridge/gaming_wire_inbox.go:132-150 | Reading keeps every game's numbers rising and within its highest. |
| `InboxFile.ReadInbox` | pkg/gaming/bridge/gaming_wire_inbox.go:115-153 | The scan fills the maps of numbers, frames and events seen as specified, or refuses. |
| `InboxFile.WireInbox.PersistFrame` | pkg/gaming/bridge/gaming_wire_inbox.go:259-299 | Numbers and appends a frame exactly when it is new, and ignores an exact duplicate. |
| `InboxFile.WireInbox.PruneGroup` | pkg/gaming/bridge/gaming_wire_inbox.go:165-215 | Loads if need be, rewrites the file without the group exactly when it has frames of it, in the order of the games' names, and counts what it removed; a failed write removes nothing from memory and counts nothing. |
| `InboxOnce.NothingIsFiledTwice` | pkg/gaming/bridge/gaming_wire_inbox.go:259-299 | In every run, with failed and late writes, prunes and crashes, no two frames of one game in the file are one sender's one text in one group. |
| `InboxOnce.OthersAreFiled` | pkg/gaming/bridge/gaming_wire_inbox.go:259-299 | And only such a frame is taken as a repeat: any other gets its game's next number and is kept. |
| `InboxOnce.ReaderTakes` | pkg/gaming/bridge/gaming_wire_inbox.go:115-153 | The reader takes a line exactly when its number passes its game's and its parts are there, and then changes that game alone. |
| `InboxFile.RewriteGame` | pkg/gaming/bridge/gaming_wire_inbox.go:186-204 | Keeps the other frames in order and ends with a mark when they end too low. |
| `Journal.JournalIsDeletion` | pkg/gaming/bridge/gaming_frame_journal.go:39-203 | After any run of appends, prunes, failed writes and crashes that tear the last line anywhere, the reader accepts the journal; every frame recorded is in it under its number, oldest first, unless its group was pruned since; and no number is issued twice. When no write failed after it reached the file, the journal says exactly what recording and deleting alone would, its last number untouched by any deletion. A frame may be appended whenever memory and file agree on the last number. |
| `Journal.LateAppendPoisons` | pkg/gaming/bridge/gaming_frame_journal.go:102-203 | After an append that failed once it was in the file, the next frame spoils the file; a prune in between mends that exactly when it deletes the frame that failed, and a restart always does. |
| `Journal.LevelIsExact` | pkg/gaming/bridge/gaming_frame_journal.go:102-141 | In every reachable state a complete frame leaves a journal the reader accepts exactly when memory and file agree on the last number. |
| `Journal.RewriteFolds` | pkg/gaming/bridge/gaming_frame_journal.go:170-195 | The rewritten journal passes the reader's own check and reads back as the journal with the group deleted; its last number is at least the last one issued. |
| `Journal.PlainStep` | pkg/gaming/bridge/gaming_frame_journal.go:102-203 | While memory is what the file says and no write fails late, every complete frame may be appended, and each step is the record or the deletion it stands for and keeps memory and file in step. |
| `Journal.AppendKeeps` | pkg/gaming/bridge/gaming_frame_journal.go:102-141 | Appending keeps the journal readable, its numbers rising and everything recorded in it, however the append ends. |
| `Journal.PruneKeeps` | pkg/gaming/bridge/gaming_frame_journal.go:162-203 | Pruning keeps it so at any time, whether the rewrite worked, failed, or failed once in place. |
| `Journal.LoadKeeps` | pkg/gaming/bridge/gaming_frame_journal.go:39-68 | Healing and rescanning after a restart gives memory the file's last number and exactly the frames in it. |
| `JournalFile.ScanJournal` | pkg/gaming/bridge/gaming_frame_journal.go:71-98 | Passes on every record in order, and refuses a damaged line, a number that does not rise, and a frame without group, sender or text. |
| `JournalFile.FrameJournal.LoadLocked` | pkg/gaming/bridge/gaming_frame_journal.go:39-68 | Installs the last number and the frames seen only once the healed file scanned cleanly. |
| `JournalFile.FrameJournal.AppendFrame` | pkg/gaming/bridge/gaming_frame_journal.go:102-141 | Numbers and appends a frame exactly when it was not seen, and reports it new exactly when the append worked. |
| `JournalFile.FrameJournal.History` | pkg/gaming/bridge/gaming_frame_journal.go:144-158 | Gives one group's frames, oldest first, or nothing when the file does not scan. |
| `JournalFile.FrameJournal.PruneGroup` | pkg/gaming/bridge/gaming_frame_journal.go:162-203 | Rewrites the file from a scan of it exactly when it holds frames of the group, counts what it removed, keeps the last number in memory, and takes the frames seen from those kept only when the write worked. |
| `JournalOnce.NothingIsRecordedTwice` | pkg/gaming/bridge/gaming_frame_journal.go:102-141 | In every run, with failed and late writes, prunes and crashes, no two frames of the journal are one sender's one text in one group. |
| `JournalOnce.ReaderTakes` | pkg/gaming/bridge/gaming_frame_journal.go:71-98 | The reader takes a record exactly when its number passes the last and its parts are there. |
| `JournalOnce.PruneIsExact` | pkg/gaming/bridge/gaming_frame_journal.go:162-203 | A prune deletes exactly the group's frames, keeps the rest rising and never hands a number out again. |
| `JournalFile.LeftOver` | pkg/gaming/bridge/gaming_frame_journal.go:170-194 | The lines a prune writes: the other frames in order, and a mark when they end below the last number issued. |
| `JournalFile.HistoryIsWhatPruneTakes` | pkg/gaming/bridge/gaming_frame_journal.go:144-185 | A group's history and what pruning the group leaves are between them the whole journal. |
| `JournalFile.ScanSaysDisk` | pkg/gaming/bridge/gaming_frame_journal.go:71-98 | In every reachable state of a running process, what a scan of the file passes on is what the journal holds. |
| `Fanout.HandedRises` | pkg/gaming/bridge/gaming_bridge.go:103-172 | In every run, with broadcasts in any order and prunes at any time, what a subscriber is handed rises strictly from its cursor. |
| `Fanout.HandedIsAPrefix` | pkg/gaming/bridge/gaming_bridge.go:103-235 | While nothing is pruned, every subscriber has a prefix of its game's frames past its cursor all along a run exactly when no broadcast of the run reaches somebody whom an older frame of the game has not reached; and then what an open one was handed and what still waits to be broadcast to it are together everything it wants. |
| `Fanout.PassingSkips` | pkg/gaming/bridge/gaming_bridge.go:153-172 | Of an open subscriber with room, broadcasting a waiting frame makes it skip a frame for good exactly when an older waiting frame of its game is past its last number. |
| `Fanout.InTurnIsClear` | pkg/gaming/bridge/gaming_bridge.go:218-235 | Broadcasting each game's frames in the order they were persisted is enough, however intakes overlap. |
| `Fanout.ClearRuns` | pkg/gaming/bridge/gaming_bridge.go:103-235 | From any state in step, a run keeps every subscriber a prefix exactly when none of its broadcasts passes over a frame still owed. |
| `Fanout.OutOfTurnSkips` | pkg/gaming/bridge/gaming_bridge.go:218-235 | Two intakes that broadcast out of turn make a subscriber skip the first frame. |
| `Fanout.Hub.SubscribeFrom` | pkg/gaming/bridge/gaming_bridge.go:103-132 | Registers a listener with its whole backlog queued, on a channel that never fills while queuing; when the inbox cannot be read, gives a closed channel and registers nobody. |
| `Fanout.Queued` | pkg/gaming/bridge/gaming_bridge.go:116-125 | Queuing a backlog always finds room. |
| `Fanout.Hub.BroadcastFrame` | pkg/gaming/bridge/gaming_bridge.go:153-172 | Queues, skips or closes each listener of the game as specified. |
| `Fanout.CollectBacklog` | pkg/gaming/bridge/gaming_wire_inbox.go:103-110 | Collects exactly the non-financial frames past the cursor, in order. |
| `Payouts.PayoutConserves` | pkg/finance/payout.go:49-166 | Whenever a payout is built, net outputs and fee are the stakes to the atom; the transaction spends exactly the outpoints proposed for what is staked there; and each output pays a key that owns one of them, at that key's own destination, its payment less an even part of the fee (the first bearing the remainder), positive and not dust there. |
| `Fees.FeeCoversTheSigned` | pkg/finance/payout.go:126-150 | The fee is the one for a size that the signed transaction, with its own outputs and whatever signatures its members make, does not pass. |
| `Fees.WitnessFitsItsFee` | pkg/finance/payout.go:126-141 | A settlement witness is never longer than the script its fee was reckoned for. |
| `Payouts.OutputPaysOwner` | pkg/finance/payout.go:103-166 | One output: its key owns an input, its script is that key's destination's, its value the payment less the key's part of the fee. |
| `PayoutOrder.BuildIgnoresOrderAndCase` | pkg/finance/payout.go:57-67 | Permuting inputs, payments or any member list, or changing the case of any key in an input's terms, changes neither whether a payout is built nor what it is. |
| `PayoutOrder.AnySortBuildsTheSame` | pkg/finance/payout.go:67-102 | Any sorted permutation gives the same payout, stable or not. |
| `PayoutOrder.CanonicalOfPlain` | pkg/finance/descriptor.go:53-105 | A descriptor's canonical form does not depend on case or member order. |
| `PayoutOrder.TwinsAreRefused` | pkg/finance/payout.go:73-109 | Two inputs of one owner, or two payments to one key, are refused. |
| `Settlement.BuildPayout` | pkg/finance/payout.go:49-166 | Step by step in 64-bit arithmetic, with no step out of range, builds the specified payout or refuses. |
| `Settlement.ScanInputs` | pkg/finance/payout.go:73-92 | Accepts exactly inputs that fit, one stake an owner and one owner a stake, and adds them up without overflow. |
| `Settlement.ScanPayments` | pkg/finance/payout.go:103-122 | Accepts exactly payments to distinct owners that can be counted and paid, adds them up without overflow, and gathers each one's own destination script. |
| `Settlement.Deduct` | pkg/finance/payout.go:152-164 | Splits the fee evenly with the remainder on the first, and refuses a payment that cannot cover its part or is left as dust. |
| `Settlement.RosterCovered` | pkg/finance/payout.go:96-100 | True exactly when every member is funded and has a destination. |
| `Shares.AcceptedSharesConserve` | pkg/runtime/settle.go:87-123 | Accepted shares, void or divided, add up to what the table holds, and the payments they become over inputs with the same stakes always pass the conservation check. |
| `Shares.SharesAreAccepted` | pkg/runtime/settle.go:87-123 | Shares are accepted exactly when every seat has staked, the total is within all the coins there are, and the outcome is void or pays only seats at the table, nothing negative, and all that is held; a void table gives each seat its own stake back. |
| `Shares.PaymentsAreShares` | pkg/runtime/settle.go:16-70 | Every payment is one seat's share, to its owner, and more than nothing, and no seat that is due anything is left out. |
| `Shares.DivideTable` | pkg/runtime/settle.go:87-123 | The loops over stakes and shares accept and refuse exactly as specified, without overflow. |
| `Shares.AddsUp` | pkg/runtime/settle.go:105-117 | True exactly when only seats at the table are paid, nothing negative, and the sum is what is held, whatever order the map is walked in. |
| `Seats.EverySeatingHasOneDraw` | pkg/membership/seats.go:113-116 | For distinct members every seating is reached by exactly one vector of draws, and every vector gives a seating. |
| `Seats.ShufflePermutes` | pkg/membership/seats.go:113-116 | A shuffle seats every member exactly once. |
| `Seats.DrawsAreTold` | pkg/membership/seats.go:113-116 | Different draws seat differently. |
| `Seats.DrawsReach` | pkg/membership/seats.go:113-116 | The draws computed for a seating lead to it. |
| `Seats.BlocksDecideSeats` | pkg/membership/seats.go:113-136 | Two different blocks may seat one membership in any two orders whatever: there is a hash under which each gives its own. |
| `Seats.BlocksDecideDraws` | pkg/membership/seats.go:128-136 | For two different blocks and any two draw vectors there is a hash that draws the one from the one and the other from the other. |
| `Seats.SeatBytesInjective` | pkg/membership/seats.go:128-136 | The bytes a step of the drawing digests determine the roster, the block and the position. |
| `Seats.SeatOrder` | pkg/membership/seats.go:103-124 | The swaps in place give the shuffle of the digests' draws, and nothing only for no members or no beacon. |
| `GameLog.HeadFixesHistory` | pkg/gamelog/chain.go:116-152 | Two chains with one head are the history of one match, entry by entry the same up to signature bytes, provided no two of the strings hashed collide. |
| `GameLog.SigningBytesInjective` | pkg/gamelog/entry.go:157-176 | The bytes an entry signs determine everything in it but its signature. |
| `GameLog.GenesisIsApart` | pkg/gamelog/entry.go:274-279 | No entry's bytes are a match's first link, nor one match's another's. |
| `GameLog.TwoEntriesAtOnePlaceCostTheKey` | pkg/gamelog/chain.go:171-229 | A seat that signs two different entries at one place has made a proof that verifies on its own and recovers its log key, unless the two challenges coincide. |
| `GameLog.SignedEntryVerifies` | pkg/gamelog/entry.go:199-238 | An entry signed by its seat verifies. |
| `GameLog.AppendBuilds` | pkg/gamelog/chain.go:116-152 | Appending to a built chain gives a built chain. |
| `Transcripts.TranscriptRoundTrip` | pkg/gamelog/transcript.go:47-145 | A transcript read back is the chain it was written from. |
| `Transcripts.OnlyBuiltChainsAreRead` | pkg/gamelog/transcript.go:77-111 | Whatever the container says, only a chain that appending could have built is read from it. |
| `LogRules.OnlyRuledChainsAreRead` | pkg/gamelog/transcript.go:77-111 | What is read from any container is a chain of the match it names, at its roster and version, its lines one by one, in which every entry is in its place and signed. |
| `LogRules.BuiltIsRuled` | pkg/gamelog/chain.go:116-152 | A chain was built by appending exactly when every entry is by its own seat's key, next in number, linked to the one before, not behind it in height, of a legal shape and signed. |
| `LogRules.ProofIsTwoPlays` | pkg/gamelog/chain.go:171-208 | A proof of equivocation verifies exactly when it holds two different plays, each signed, of one seat under one key at one number, when their bytes do not collide. |
| `LogRules.StreetsAreNamed` | pkg/gamelog/transcript.go:147-159 | The four streets' names are told apart and no other text names one. |
| `Transcripts.LineRoundTrip` | pkg/gamelog/transcript.go:113-159 | An entry in transcript form reads back as itself. |
| `Transcripts.MatchLog.Start` | pkg/gamelog/chain.go:41-63 | Starts a chain exactly when the match is named and every seat's key is readable. |
| `Transcripts.MatchLog.Add` | pkg/gamelog/chain.go:116-152 | Adds exactly an entry of the seat's own key, next in number, linked, not behind in height, and verified. |
| `Transcripts.MatchLog.Render` | pkg/gamelog/transcript.go:47-73 | Writes the chain's transcript. |
| `Transcripts.MatchLog.Read` | pkg/gamelog/transcript.go:77-111 | Rebuilds the chain a transcript verifies as, or nothing. |
| `Sorting.SortedUnique` | pkg/finance/payout.go:67 | There is one sorted permutation of elements their keys identify. |
| `ByteStrings.HexKeepsOrder` | pkg/finance/descriptor.go:83 | Sorting lower-case hexadecimal text is sorting the bytes it spells. |
| `Settling.SettledPairIsReached` | pkg/runtime/seating.go:573-623 | Two honest peers with the same two-seat terms do reach a state where both have settled on one roster and membership, in a run that forgets nothing: it begins, meets, binds, keeps, publishes and hears. |
| `Settling.ForgettingCommitsTwice` | pkg/runtime/seating.go:56-138 | For any two-seat terms and three honest keys, a run from a fresh start in which one commits to a table with another, has its record refused at a restart, accepts the invitation again and commits to a table with the third: both peers settle with it, on different tables. |
| `Settling.MeetingForms` | pkg/membership/formation.go:553-584 | A peer of a table of any size that has heard joins under exactly as many keys as there are seats, its own among them, is formed, on the roster of those keys. |
| `Settling.HearingSettles` | pkg/membership/formation.go:585-599 | A bound peer of a table of any size that hears commits to its roster settles exactly when every member is among those heard. |
| `FormationPeer.TableFormation.Keys` | pkg/membership/formation.go:635-641 | Lists every join's key once, in whatever order the map gives. |
| `FormationPeer.TableFormation.GiveUp` | pkg/membership/formation.go:629-633 | Aborts with a reason and no membership. |
| `FormationPeer.SameMembers` | pkg/membership/formation.go:635-641 | The order a map is walked in does not reach the membership. |
| `TableStore.SortedKeys` | pkg/membership/formation.go:129-153 | The keys of a map, walked in any order, come out in canonical order. |
| `TableStore.Collect` | pkg/runtime/tablestore.go:131-136 | The entries of a map in canonical key order. |
| `TableStore.ReplayJoins` | pkg/runtime/tablestore.go:308-316 | Takes recorded joins one by one and stops at one that is refused, as specified. |
| `TableStore.ReplayCommits` | pkg/runtime/tablestore.go:341-352 | Takes recorded commits one by one and stops at one that is refused, as specified. |
| `SpendBook.Book.AllLocked` | pkg/spend/book.go:286-294 | Every record once, in the order of their ids. |
| `SpendBook.Flatten` | pkg/spend/book.go:317-321 | Pending and named records together, each once, in the order of their ids. |
| `SpendLog.Find` | pkg/gaming/bridge/gaming_spend.go:744-750 | The first entry under an id, or none. |
| `OutboxFile.BridgeOutbox.LoadLocked` | pkg/gaming/bridge/gaming_wire_outbox.go:39-51 | Installs the map only once the whole file read cleanly, healing it first. |
| `OutboxFile.BridgeOutbox.AppendLocked` | pkg/gaming/bridge/gaming_wire_outbox.go:133-156 | Appends one line; memory follows only an append that worked. |
| `Outbox.LineKeepsSteady` | pkg/gaming/bridge/gaming_wire_outbox.go:103-207 | A line of any kind, landed or not, keeps what the file, memory, calls and sends say of each other. |
| `InboxFile.WireInbox.LoadLocked` | pkg/gaming/bridge/gaming_wire_inbox.go:91-111 | Installs the maps only once the whole file read cleanly, healing it first. |
| `InboxFile.CountGroup` | pkg/gaming/bridge/gaming_wire_inbox.go:171-181 | Counts the frames of a group over all games: none exactly when no game holds one. |
| `InboxFile.CountFrames` | pkg/gaming/bridge/gaming_wire_inbox.go:173-177 | Counts what deleting the group from one game's frames takes away. |
| `InboxFile.RewriteAll` | pkg/gaming/bridge/gaming_wire_inbox.go:185-208 | Writes every game's surviving frames and marks, in the order of games given. |
| `InboxFile.SortedGames` | pkg/gaming/bridge/gaming_wire_inbox.go:182-186 | Every game once, in the order of their names. |
| `InboxFile.FilingFolds` | pkg/gaming/bridge/gaming_wire_inbox.go:138-151 | Filing one line in the three maps is folding it into the lanes. |
| `Settlement.Normalize` | pkg/finance/payout.go:57-66 | Gives every input its canonical terms, or refuses when one has none. |
| `Settlement.BuildInOrder` | pkg/finance/payout.go:68-166 | From sorted canonical inputs and sorted payments, builds or refuses as specified. |
| `Seats.Numbered` | pkg/membership/seats.go:118-121 | Every position gets its member. |
| `Caps.RunsStayCapped` | pkg/gaming/bridge/gaming_spend.go:491-968 | Every step of every run keeps the caps. |
| `Caps.TrimStaysCapped` | pkg/gaming/bridge/gaming_spend.go:180-208 | A trim passes no cap. |
| `Spend.RunKeeps` | pkg/spend/book.go:299-331 | Every run without such a retry keeps the chain of attempts on file and in memory. |
| `Spend.RunStaysChained` | pkg/spend/obligation.go:44-66 | From any chained book, the file stays chained after every step of a run exactly when no step of it is such a retry. |
| `Spend.WrappingBreaksTheChain` | pkg/spend/obligation.go:44-66 | A granted retry of the attempt with the greatest number always leaves a file whose attempts are no longer a chain. |
| `Payments.FileKeeps` | pkg/gaming/bridge/gaming_spend.go:180-208 | A write that succeeds, fails, or fails late keeps what was published apart from what awaits or was refused. |
| `Inbox.PersistKeeps` | pkg/gaming/bridge/gaming_wire_inbox.go:259-299 | Persisting a frame of a game on which memory and file agree keeps the file readable and everything handed out in it, however the append ends and whatever other games lag. |
| `Inbox.PruneKeeps` | pkg/gaming/bridge/gaming_wire_inbox.go:165-215 | Pruning keeps them so at any time, whether the rewrite worked, failed, or failed once in place. |
| `Fanout.DeliverTurns` | pkg/gaming/bridge/gaming_bridge.go:153-172 | A broadcast that passes over nobody leaves every open subscriber owed exactly the rest, and closes one that is full. |
| `Fanout.IntakeTurns` | pkg/gaming/bridge/gaming_bridge.go:218-226 | A persist leaves every open subscriber owed one frame more, and no other change. |
| `Scalars.BezoutHolds` | pkg/forfeit/sign.go:419 | The combination computed for two numbers is a common divisor of both. |
| `LogKeys.RunsRemember` | pkg/forfeit/key.go:135-147 | In every run that forgets nothing, the book holds everything signed. |

## Left out

- The funds ledger, its recovery of approvals into the spend log, deposits and previews: a request gets a fresh identifier and starts pending.
- What a table kept for recovery does with its money: here it only stays silent.
- Drop's look at the coin still held at a table, and the admission deadline of an invitation: a table may be dropped, and an invitation taken up, at any time.
- Record fields beside the formation: version, match, group chat, stakes found, payouts and what the game's own state says, beyond whether it loads.
- Put, Watch, Get and OpenRecords of the spend book: direct writes and reads around the modelled operations.
- The funding, landing and reconciliation waits and all node, wallet and relay calls: outcomes are parameters of the steps.
- Settle, Fund and the bridge's RPC surface: plumbing around the modelled steps.
- ConflictingHeads, AttestHead and RecoverKeyFromHeads: the same algebra as two conflicting entries, under another domain.
- Verifying stake, bond and payout announcements: their bytes are modelled, and the checks of their outputs are the chain's.
- Subscribe, the listener without a cursor: a subscriber of number 0 with no backlog.
- BeaconHeight, FundingDeadline and BondingDeadline: sums of constants.
- Approval timeouts, reason lengths and address decoding: a request's expiry and the address script are given.
- The script engine's limits on operations and script size, beyond the 2048-byte element bound: no script built here comes near them.
- Transaction encoding: a payout's size is a function of its scripts, and a spend shows the script its version, sequence and signatures.
- Line length limits of the wire files: a frame too long is refused before it is numbered.
- An append that stops part-way in a process that goes on, as on a full disk: a piece of a line stays only where a crash left it.
- Wrap-around of the 64-bit frame numbers: they are unbounded here.
- Wall clocks, file locks, permission bits and fsync: see the write outcomes above.
- Liveness: nothing here says that a table forms, is funded or settles.
