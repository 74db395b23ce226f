# antiproton: protocols, logs and ledgers

A Dafny model of the parts of antiproton whose correctness spans many steps and many actors, and proofs about them.
`dafny verify dfyconfig.toml` checks everything.

Each core has a machine or a specification, the source's own imperative code proved against it, and theorems over every
input, run or reachable state:

- **Connector renewal.** Several agents' objects share one GitHub connector row whose refresh token is single-use
  (refusals are those of section 5.2 of RFC 6749). `ConnectorTable` is the row's SQL; `Renewal` the machine, one step for
  each await, with GitHub, lost answers and failing writes; `RenewalSafety` its invariant; `RenewalTheorems` what is
  promised, `RenewalActs` when a renewal has to act; `RenewConnector` the imperative code as runs of the machine; `MountRenewal` the mount's side, `RenewThrough`
  the two together, and `RenewalGuard` the guard inside an object.
- **Trace log.** `TraceLog` is the outbox, its cursors, the export and the prune; `TraceWindow` the page reader;
  `TraceExport` both together over a live log, `TraceFollow` a whole walk over it.
- **Base64 forms.** `Base64` (sections 4 and 5 of RFC 4648), `SecretForms` and `Base64Runs`.
- **Approvals.** `ApprovalIndex` is the provider-wide copy and its retention, `ApprovalWrites` what its statements write, `ApprovalPaging` its keyset pages,
  `ApprovalPublish`, `ApprovalPublishSafety` and `ApprovalPublishTheorems` the publishing machine, `ApprovalPublishActs` what a pass has to do, `ApprovalLink` the copy's
  statements as its steps, `PublishApprovals` the imperative pass.
- **Main conversations.** `MainTables` (table names), `MainArchive`, `MainTheorems` and `MainHost`.
- **Image attempts.** `ImageAttempts` (cleaning and capping), `ImageShapes` (what is read as a report) and `ImageEvidence` (recording).
- **Retail benchmark.** `Retail` and `RetailShop` (the actions), `RetailRecords` (when each is
  accepted and what it writes), `RetailLaws`, `RetailItems` and `RetailCancel` (their laws), `BenchReplay` and `Bench` (live state against replay), `Arithmetic` and `ArithmeticGrammar` (the calculator).
- **pass^k.** `Binomial`, `PassK`, `PassKRise` and `PassKFirst`.
- **Hook routes.** `HookRoute` (the machine), `HookRouteActs` (what a push has to be answered), `HookRouteBound` (how long a revoked hook is routed) and `RouteHook` (the lookup).

The imperative code is proved with everything that may happen at an await left open: a method that waits calls one that
lets the others take any steps, and knows of them only that they are a run of theirs.

Where the code falls short of what its documentation or its reader would expect, the code is modelled as it is, and when it
holds, or a case where it does not, is proved:

- A page of the trace reader can say nothing is left while rows are, when a damaged row was among a full scan
  (`TraceExport.HiddenExactlyWhen`).
- Such a page can also pass over a row of a batch it has not read, when a batch it found gone reaches over the beginning of
  one still there (`TraceWindow.ReadBatches`, `TraceWindow.GoneBatchHidesAnother`).
- A refused retail action can leave a change behind, exactly when a payment's method is gone
  (`RetailLaws.RefusedButChangedExactlyWhen`). So a task's replay can differ from what was live: exactly from a base some run
  of which reaches such an action (`BenchReplay.CanDifferExactlyWhen`), which no sound base does.
- A cancellation gives a method back what was taken from it exactly when the order held no refund of it
  (`RetailCancel.CancelGivesBackExactlyWhen`); so it goes wrong after a payment change, and over runs only then
  (`RetailCancel.OverRefundsExactlyWhen`).
- The charge for modified items is the change of the total exactly when the prices quoted for the items swapped out add up
  to the prices they were recorded at (`RetailItems.ChargedForTheChangeExactlyWhen`).
- An order's payment can be changed after its items, exactly when its history was empty till then and the items' change was
  charged for (`RetailLaws.PaymentAfterItemsExactlyWhen`).
- Cleaning an image report is idempotent exactly while its dropped count is a safe integer
  (`ImageAttempts.CleanAgainExactlyWhen`).
- The hook route's bound runs from the answer of the index read, not from the read (`HookRoute.SlowReadOutlastsTheTtl`); past
  it a revoked hook can be routed exactly where `HookRouteBound.RoutedPastExactlyWhen` says.
- The guard of a mount's renewal excludes others exactly as long as no runtime starts while another's renewal has outlasted
  its guard (`RenewalGuard.JoinedExactlyWhen`).
- pass^k can rise with k exactly when a task ran k trials and no more while another ran more (`PassKRise.RisesExactlyWhen`).
- The first-k reading depends on the order of the trials exactly when some task with k trials has both a failure and k
  passes (`PassKFirst.FirstKIsOrderFreeExactlyWhen`).
- Failed writes of the copy count as tries: a hint can be given up after a single refusal, six failed tries in all
  (`ApprovalPublishActs.OneHintCanBeAll`, `ApprovalPublishActs.GivenUpAfterSix`).
- Fifty older unpublished holds keep a younger one out of a pass (`ApprovalPublishTheorems.TakenUpExactlyWhen`).

## Model

| member | source | states |
|---|---|---|
| `RenewalTheorems.BrokenOnlyWhenRefused` | cf/src/github-refresh.ts:273-287 | In every reachable interleaving of renewals, lease expiries, lost answers and reconnects, a connector marked broken stores a refresh token GitHub has refused, so one GitHub still accepts is never marked broken |
| `RenewalTheorems.PairNeverLost` | cf/src/github-refresh.ts:245-266 | After a trade, whichever writes throw before or after committing: the pair is still being written, or the call ended carrying it, or the connector holds it or one traded on from it, or a reconnect or removal has come since |
| `RenewalTheorems.StoredPairsFormOneChain` | cf/src/control-plane.ts:846-857 | Between reconnects the stored refresh tokens are one chain, each traded from exactly the one it replaced, and none is ever stored twice |
| `RenewalTheorems.TradesNeverOverlap` | cf/src/github-refresh.ts:230-251 | Two requests for one stored token are never out at once when each went out early enough in its lease for its timeout to fall inside it |
| `RenewalTheorems.ReconnectOvertakes` | cf/src/control-plane.ts:691-706 | A reconnect overtakes every renewal that has read the connector: asking about its token, at or waiting for the lease, or past it |
| `RenewalTheorems.OvertakenEarlyNeverTrades` | cf/src/github-refresh.ts:240-244 | One overtaken before its reading under the lease never trades, however the run goes on |
| `RenewalActs.GivenForAReason` | cf/src/github-refresh.ts:216-231 | However a run goes, a call that ends with a token given found it good when it read the connector: nothing renews it, it was adopting, more than five minutes were left, or it was another pair than the one it set out with |
| `RenewalActs.TradesExactlyWhen` | cf/src/github-refresh.ts:216-245 | A renewal nothing disturbs comes to trade exactly when at most five minutes are left, or GitHub refused the very token stored, not renewed within the last minute, and calls it dead |
| `RenewalActs.EndsAsItMust` | cf/src/github-refresh.ts:216-291 | And ends with the stored token exactly when it need not trade, but for a throw |
| `RenewalActs.HandedOutIsStored` | cf/src/github-refresh.ts:245-268 | The pair handed out is stored over the one spent, with its expiry and the time, and the call's own lease ends |
| `RenewalActs.RefusedIsMarked` | cf/src/github-refresh.ts:273-287 | A refusal over the token still stored marks the connector broken |
| `RenewalActs.RefusedFindsTheNew` | cf/src/github-refresh.ts:275-276 | After a refusal another's new pair is given |
| `RenewalActs.UnmarkedFinds` | cf/src/github-refresh.ts:279-284 | Where the mark changed nothing, another's new pair is given, a connector gone is gone, and any other is broken |
| `RenewalActs.LeaseIsTakenOrWaitedFor` | cf/src/github-refresh.ts:230-235 | A free lease is taken for half a minute, a held one waited for up to the deadline |
| `RenewalActs.WaitingFinds` | cf/src/github-refresh.ts:236-239 | What a waiting call finds and ends with |
| `RenewalActs.WriteIsTriedThrice` | cf/src/github-refresh.ts:252-260 | A write that throws is tried three times, and then the pair is carried |
| `RenewalActs.NoAnswerGivesBack` | cf/src/github-refresh.ts:288-291 | Without an answer the lease is given back and nothing renewed |
| `RenewalActs.RipeSetsOut` | cf/src/github-refresh.ts:226-233 | A reading that has to renew leads to the lease, with its deadline |
| `RenewalActs.AnswerInTime` | cf/src/github-refresh.ts:30-31 | An answer is received within the request's time and then only |
| `RenewalTheorems.OvertakenStays` | cf/src/github-refresh.ts:273-284 | A renewal once overtaken stays so through every further run |
| `RenewalTheorems.OvertakenChangesNothing` | cf/src/control-plane.ts:846-872 | Whatever runs in between, an overtaken renewal's step changes neither the pair nor the broken mark, and no lease but its own or a free one |
| `RenewalSafety.RunInv` | cf/src/github-refresh.ts:209-291 | Every run keeps: spent tokens never live, broken only when refused, one chain, one holder of the lease, each handed-out pair with one renewal |
| `RenewalSafety.StepInv` | cf/src/github-refresh.ts:209-291 | Every single step of a renewal, of GitHub, of a reconnect or removal and of the clock keeps that |
| `RenewConnector.Deployment.Renew` | cf/src/github-refresh.ts:209-291 | The imperative renewal, with anything happening at its awaits and any call to D1 throwing, is a run of the machine the theorems are about; an adopting one takes no trade step; a token is given as it is only where the connector, as read, shows why |
| `RenewConnector.Deployment.WinLease` | cf/src/github-refresh.ts:230-240 | The lease loop ends with the lease won over the pair it saw, or with an answer |
| `RenewConnector.Deployment.StorePair` | cf/src/github-refresh.ts:249-266 | The write loop ends rotated or carrying the pair unstored, and in nothing else |
| `RenewConnector.Deployment.AfterRefusal` | cf/src/github-refresh.ts:273-287 | What follows a refusal, read and mark included, ends the call as a run of the machine |
| `RenewConnector.Deployment.TradeIt` | cf/src/github-refresh.ts:245-291 | A trade and all that follows any of GitHub's answers ends the call |
| `ConnectorRow.ConnectorTable.LeaseFor` | cf/src/control-plane.ts:836-841 | The lease is won exactly when none is held or the held one has run out, and touches no other row or column |
| `ConnectorRow.ConnectorTable.Release` | cf/src/control-plane.ts:842-845 | Only the holder's own lease is given back |
| `ConnectorRow.ConnectorTable.RotateOver` | cf/src/control-plane.ts:846-857 | Compare-and-swap: written exactly when the expected refresh token is stored, releasing only the writer's own lease |
| `ConnectorRow.ConnectorTable.MarkBrokenAs` | cf/src/control-plane.ts:858-872 | Marked only if not marked before and, when a spent token is named, only over that one |
| `ConnectorRow.ConnectorTable.ReconnectAs` | cf/src/control-plane.ts:691-706 | Written exactly for the same account, by its number where the row has one and by its name only where it has none; and clears the lease whoever holds it |
| `ConnectorRow.ConnectorTable.Remove` | cf/src/control-plane.ts:718-721 | The row goes and no other does |
| `MountRenewal.Mount.Renew` | cf/src/github-refresh.ts:454-532 | A mount of its own sends its token exactly when it has to be traded, and GitHub's answer is what becomes of it; no renewal of a connector's mount writes a connector mark (the mark at line 560 is unreachable) or spends the mount's own token; a pair left unstored, or stored, is on the mount before the error or the answer goes on; a broken answer keeps the token |
| `RenewThrough.RenewThrough` | cf/src/github-refresh.ts:467-508 | A mount's renewal and the connector's together: a pair D1 would not take is on the mount, access and refresh token, before the error goes on; a stored or adopted pair is what the mount holds and answers; any other throw leaves the mount |
| `MountRenewal.Mount.Broken` | cf/src/github-refresh.ts:553-564 | The broken mark keeps the record, and D1 is written only where asked |
| `MountRenewal.Mount.Write` | cf/src/github-refresh.ts:538-550 | Access token and record are written together, the broken mark cleared |
| `RenewalGuard.OneAtATime` | cf/src/github-refresh.ts:431-446 | One renewal runs at a time in an object, as long as none outlasts its guard |
| `RenewalGuard.JoinedExactlyWhen` | cf/src/github-refresh.ts:431-446 | From an object nobody renews in, a run comes to two renewals at once exactly when at some point of it a runtime starts while another's renewal has outlasted its guard |
| `RenewalGuard.OutlastedLetsAThirdIn` | cf/src/github-refresh.ts:443-445 | The guard is deleted by name: an outlasted renewal that ends deletes the next one's guard and lets a third in beside it |
| `TraceWindow.ReadTraceWindow` | cf/src/eval-read.ts:575-620 | The page there is, exactly (`IsPage`): of the rows read, those of the window up to the frontier, in order, cut at the limit, and where it goes on; so it is in order, past the cursor, and with nothing of it missing up to its own end or its next cursor, unless a batch gone since the listing reaches over the beginning of one still there |
| `TraceWindow.StopsOnlyAtABound` | cf/src/eval-read.ts:597-618 | A page with less than the limit goes on exactly when the object's scan was full or due batches were left at a bound |
| `TraceWindow.WalkIsComplete` | cf/src/eval-read.ts:570-574 | Following the cursor to null returns every row of the window logged before the walk exactly once, in seq order, whatever moves meanwhile |
| `TraceWindow.WalkEnds` | cf/src/eval-read.ts:617-618 | Every cursor is larger than the last, so the walk ends |
| `TraceWindow.ReadBatches` | cf/src/eval-read.ts:593-613 | The batch loop stops at its bounds, passing over batches that have gone; every due batch still there is read below the frontier exactly when the batches left unread hold nothing more below it |
| `TraceWindow.GoneBatchHidesAnother` | cf/src/eval-read.ts:601-605 | A result: whatever the bound on batches, that many gone ones let the page answer past a row of a batch it has not read |
| `TraceWindow.FoundUpTo` | cf/src/eval-read.ts:615-616 | The page's rows are the window's rows found, up to the frontier, in order |
| `TraceLog.NothingLost` | cf/src/activity-raft.ts:106-134 | At every point of any run each logged row is in the outbox or in a batch, and leaves the outbox only after every reader has passed it, also when the activity send throws |
| `TraceLog.ObjectFirstBucketSecond` | cf/src/eval-read.ts:9-12 | Reading the object first and listing the bucket later misses no row logged by the first read |
| `TraceLog.RunInv` | cf/src/trace-r2.ts:122-160 | Every step of append, drain, export, prune and of a put landing keeps it, in its pass or after the pass threw or was evicted |
| `TraceLog.NothingSkipped` | cf/src/trace-r2.ts:129-129 | A bounded read leaves nothing behind the seq it says it read through |
| `TraceExport.HiddenExactlyWhen` | cf/src/eval-read.ts:535-538 | A result: damaged rows are dropped after the scan limit, so a full scan is told exactly when none of its rows is damaged or none is left behind; otherwise the rows past it are taken for none |
| `TraceExport.DamagedRowHidesTheNext` | cf/src/eval-read.ts:595-595 | A result: whatever the scan's limit, that many damaged rows make the reader answer an empty page that says nothing is left, though the known row behind them is in the window |
| `TraceExport.SourceHolds` | cf/src/eval-read.ts:576-592 | Between the two reads of a page the live log gives it a sound source, whenever the scan hides no row |
| `TraceExport.ReadLive` | cf/src/eval-read.ts:575-620 | A page of the live log is in order and in the window whatever is damaged, and complete exactly where no row is hidden by the scan |
| `TraceFollow.FollowLive` | cf/src/eval-read.ts:570-620 | Following the cursor while the log grows: its pages are read at points of one run from the start, each from where the last ended, until the end, the bound or a listing too long; and the rows are theirs |
| `TraceFollow.WalkedRows` | cf/src/eval-read.ts:570-574 | The rows of any such readings come once each, in seq order, of the window; and hold every known row of it logged before the first, up to the cursor or in all at the end, if no scan hid any |
| `TraceExport.TraceObject.FlushActivity` | cf/src/activity-raft.ts:72-93 | The activity cursor moves exactly when the send has returned, and then past every row read; the hold is the lower of it and the forward's |
| `TraceExport.TraceObject.FlushTrace` | cf/src/trace-r2.ts:122-160 | What was read is in the bucket by the time the cursor is past it; after an export that ended well the outbox holds no row at or below both cursor and hold, and has lost no other; a put that throws moves neither cursor nor outbox |
| `TraceExport.TraceObject.FlushActivityThenTrace` | cf/src/activity-raft.ts:106-134 | The alarm's two drains are a run of the log's steps, with the unmoved cursor as hold when the send throws; with nothing thrown, every row all readers have passed is gone |
| `SecretForms.CoreStandsInside` | cf/src/eval-read.ts:191-196 | For any bytes p, v, s the form of alignment len(p) mod 3 stands in base64(p+v+s) at the computed offset |
| `SecretForms.UrlCoreStandsInside` | cf/src/eval-read.ts:197-197 | The same in base64url; a value too short to end the group it begins in has the empty form |
| `SecretForms.CoreIsItsOwnGroups` | cf/src/eval-read.ts:193-196 | A form depends on the value alone and holds no padding |
| `SecretForms.NoAlignmentDropped` | cf/src/eval-read.ts:200-200 | A value of eight bytes or more keeps all three alignments: none is too short for the list |
| `Base64.AlphabetsAre` | cf/src/eval-read.ts:159-164 | The two alphabets are those of tables 1 and 2 of RFC 4648 |
| `Base64.VectorsAre` | cf/src/eval-read.ts:159-163 | The test vectors of section 10 of RFC 4648 |
| `SecretForms.PaddedCore` | cf/src/eval-read.ts:192-196 | The form as made from an array with the value set into it |
| `SecretForms.Base64Forms` | cf/src/eval-read.ts:189-201 | The list built: whole and aligned forms, each in both alphabets, exactly those long enough |
| `SecretForms.SomeFormIsFound` | cf/src/eval-read.ts:173-179 | Any base64 or base64url of bytes holding the value holds a listed form |
| `SecretForms.DecodesToHolding` | cf/src/eval-read.ts:335-344 | A run is found exactly when, from one of its first four characters, it decodes to bytes holding the value |
| `SecretForms.RunOnIsFound` | cf/src/eval-read.ts:335-344 | A value encoded after any characters run on into it is found |
| `Base64.RoundTrip` | cf/src/eval-read.ts:159-164 | Decoding what was encoded gives the bytes back (sections 4 and 5 of RFC 4648) |
| `Base64.WholeGroups` | cf/src/eval-read.ts:159-163 | Whole groups encode on their own whatever follows |
| `Base64.SameValuesDecodeAlike` | cf/src/eval-read.ts:164-164 | Either alphabet reads the same |
| `Base64Runs.EachBase64Run` | cf/src/eval-read.ts:231-248 | The scan's output is the text with each run replaced by what the rewriter says of it |
| `Base64Runs.StretchIsHandedOver` | cf/src/eval-read.ts:230-248 | A maximal run within the bounds is handed over whole, and the text around it rewritten as if alone |
| `Base64Runs.RewriteApart` | cf/src/eval-read.ts:235-246 | Texts with no run across their border rewrite apart |
| `Base64Runs.NothingSwapped` | cf/src/eval-read.ts:247-247 | A rewriter that replaces nothing leaves the text |
| `ApprovalIndex.MarkedCarryNoText` | cf/src/approvals.ts:243-288 | In every reachable state a copy marked as a deleted agent's carries no arguments text and its agent is deleted in the registry |
| `ApprovalWrites.FirstCopyIsWritten` | cf/src/approvals.ts:243-257 | A hold's first copy is what was sent: marked, and without its text, exactly when its agent is deleted |
| `ApprovalWrites.LaterStateIsWritten` | cf/src/approvals.ts:243-257 | A later state is written over an earlier one, its beginning and its first mark kept |
| `ApprovalWrites.OtherStatesAreNot` | cf/src/approvals.ts:235-257 | No other offer changes the copy |
| `ApprovalWrites.LiveTextStays` | cf/src/approvals.ts:243-310 | While its agent is not deleted a copy keeps its text through every statement but a later state's own |
| `ApprovalWrites.MarkIsWritten` | cf/src/approvals.ts:284-288 | A mark is the first there was and takes the text of the agent's copies, and of no other |
| `ApprovalWrites.DeliveryIsNoted` | cf/src/approvals.ts:289-297 | A delivery is noted on its copy alone, the description only in that state |
| `ApprovalWrites.RegistryTakes` | cf/src/control-plane.ts:484-502 | The registry takes every write of a line it has but one that brings a deleted one back |
| `ApprovalWrites.RanksAre` | cf/src/approvals.ts:235-239 | Pending before approved before the four ends, which are alike |
| `ApprovalIndex.FirstMarkAndRankStay` | cf/src/approvals.ts:235-254 | While it is there a copy keeps its first mark, never steps back in rank, and within a rank does not change state |
| `ApprovalIndex.FurthestOfferWins` | cf/src/approvals.ts:235-257 | Under any order and repetition a copy ends at least as far as every state offered |
| `ApprovalIndex.StateWasOffered` | cf/src/approvals.ts:243-257 | And at a state that was offered |
| `ApprovalIndex.DeletedIsFinal` | cf/src/control-plane.ts:484-502 | Deleted is final in the registry |
| `ApprovalIndex.PrunedExactly` | cf/src/approvals.ts:298-310 | A prune removes exactly a deleted agent's copies past the year bound and a live agent's ended holds past the other |
| `ApprovalIndex.KeptForTheYear` | cf/src/approvals.ts:298-310 | No run of prunes up to the year bound removes a deleted agent's copy |
| `ApprovalIndex.UnfinishedIsKept` | cf/src/approvals.ts:298-310 | No run of prunes removes a live agent's unfinished hold |
| `ApprovalIndex.ApprovalTable.UpsertHold` | cf/src/approvals.ts:243-257 | The statement in place: forward only, marked and without text for a deleted agent |
| `ApprovalIndex.ApprovalTable.MarkAgentDeleted` | cf/src/approvals.ts:284-288 | Every copy of the agent marked once and cleared, no other touched |
| `ApprovalIndex.ApprovalTable.SetDelivery` | cf/src/approvals.ts:289-297 | Delivery onto the item, the description only while the states agree |
| `ApprovalIndex.ApprovalTable.PruneBoth` | cf/src/approvals.ts:298-310 | The three statements in one transaction |
| `ApprovalIndex.ApprovalTable.UpdateAgent` | cf/src/control-plane.ts:484-502 | The registry write, refused on a deleted row for any other status |
| `ApprovalPaging.WalkIsTheRows` | cf/src/approvals.ts:258-283 | The pages together are exactly the filtered rows past the start, in order, none repeated or skipped |
| `ApprovalPaging.WalkGoesForward` | cf/src/approvals.ts:266-283 | However rows change between pages, the pages go strictly forward |
| `ApprovalPaging.GrowingRowIsMet` | cf/src/approvals.ts:258-283 | A row whose updated_at only grows during the walk is answered by some page |
| `ApprovalPaging.SpelledExactly` | cf/src/approvals.ts:266-269 | The nested cursor condition is exactly the order of the ORDER BY |
| `ApprovalPaging.PageLeavesFewer` | cf/src/approvals.ts:279-282 | Each page but the last leaves fewer rows, so the walk ends |
| `ApprovalPaging.PageTells` | cf/src/approvals.ts:279-282 | What a page's limit-plus-one rows say of what is left |
| `ApprovalPaging.List` | cf/src/approvals.ts:258-283 | The page the statement and the slice make |
| `ApprovalPaging.Follow` | cf/src/approvals.ts:258-283 | Following the cursor ends, and is a walk |
| `ApprovalPublishTheorems.PublishedIsCopied` | cf/src/approvals.ts:431-436 | A hold marked published at its current state has that very state in the copy, exactly unless the prune took that copy or it was marked without a registry row, and no write has copied it since |
| `ApprovalPublishTheorems.ExcusedExactlyBy` | cf/src/approvals.ts:471-476 | Only the prune, of a copy at that state or past it, and a pass that reads no registry row, of a row it read, make such an exception |
| `ApprovalPublishTheorems.CopiedAgain` | cf/src/approvals.ts:243-257 | And a later write of that state that lands ends it |
| `ApprovalLink.StatementIsARun` | cf/src/approvals.ts:243-310 | Whatever statement the copy's table or the registry takes, the publishing machine has a run of others' steps that does the same to an agent's part: a late write, drops, a provisioning, a delete or nothing |
| `ApprovalLink.UpsertIsMerge` | cf/src/approvals.ts:243-257 | The upsert, seen from one agent, is the machine's forward-only merge, and another agent's upsert leaves it |
| `ApprovalPublishTheorems.CopyOnlyMovesForward` | cf/src/approvals.ts:235-239 | No step, late and repeated writes included, takes a copy back |
| `ApprovalPublishTheorems.CopyIsAPastState` | cf/src/approvals.ts:485-492 | The copy only holds states its hold has had |
| `ApprovalPublishTheorems.HintsAreBounded` | cf/src/approvals.ts:515-522 | At most HINT_ATTEMPTS hints per state of a hold, and one more for each cut-off mid-send |
| `ApprovalPublishTheorems.ChangeIsUnpublished` | cf/src/approvals.ts:455-458 | A change of state landing during a pass leaves the hold unpublished |
| `ApprovalPublishTheorems.OnlyItsOwnReadingPublishes` | cf/src/approvals.ts:446-458 | And only a pass that read it in that state publishes it |
| `ApprovalPublishTheorems.OthersLeaveItUnpublished` | cf/src/approvals.ts:446-458 | No step outside a pass publishes a hold |
| `ApprovalPublishTheorems.NoHintForTheDeleted` | cf/src/approvals.ts:477-493 | A silent pass sends no hint |
| `ApprovalPublishTheorems.SilentExactlyWhen` | cf/src/approvals.ts:477-493 | A pass is silent exactly when it read the agent as deleted or found nowhere to send hints |
| `ApprovalPublishActs.FailedHintIsKept` | cf/src/approvals.ts:513-525 | A hint that fails with fewer than five failed tries before it leaves the hold as published as it was, and keeps one try more, its copy written, due the backoff of that number after the pass began |
| `ApprovalPublishActs.FailedHintIsGivenUp` | cf/src/approvals.ts:518-522 | With five or more it is marked published, and its tries forgotten |
| `ApprovalPublishActs.FailedWriteIsKept` | cf/src/approvals.ts:513-525 | A failed write is kept likewise and never given up |
| `ApprovalPublishActs.AcceptedIsPublished` | cf/src/approvals.ts:509-512 | A hint accepted, or none to send, publishes the row at the state read |
| `ApprovalPublishActs.WrittenIsHinted` | cf/src/approvals.ts:484-508 | A copy written leads on to the hint, and a hint sent is counted |
| `ApprovalPublishActs.PublishedOnlyBy` | cf/src/approvals.ts:473-522 | A hold is published only by a hint accepted, nowhere to send one, six failed tries of that state, or an agent without a registry row |
| `ApprovalPublishActs.GivenUpAfterSix` | cf/src/approvals.ts:515-522 | Over any run, one published though its hint failed has seen that state fail six times |
| `ApprovalPublishActs.OneHintCanBeAll` | cf/src/approvals.ts:430-434 | A result: after five failed writes one hint refused is the only one there ever is, where the documentation says six failed hints |
| `ApprovalPublishActs.BackoffIs` | cf/src/approvals.ts:404-405 | The six waits |
| `ApprovalPublishActs.HoldsMove` | cf/src/approvals.ts:235-239 | The ways a hold moves on |
| `ApprovalPublishTheorems.TakenUpExactlyWhen` | cf/src/approvals.ts:446-454 | A hold is taken up exactly when fewer than fifty older ones are unpublished and it is new to the tries or due |
| `ApprovalPublishTheorems.BackoffGrows` | cf/src/approvals.ts:404-405 | The wait grows from half a minute to a quarter of an hour and no further |
| `ApprovalPublishSafety.RunInv` | cf/src/approvals.ts:437-534 | Every run of passes, changes, late writes, deletes and cut-offs keeps the invariant behind these |
| `PublishApprovals.AgentObject.Publish` | cf/src/approvals.ts:437-534 | The imperative pass is a run of the machine; its counts add up; every row it read but those that failed is published at the state read, and every hold due among the fifty oldest is such a row; it says when to come back, and nothing only when nothing is left |
| `PublishApprovals.AgentObject.NextTry` | cf/src/approvals.ts:530-533 | The earliest time of an unpublished hold, no earlier than now |
| `PublishApprovals.AgentObject.WorkThrough` | cf/src/approvals.ts:480-528 | The loop over the rows: each published at the state read, or one of those counted as failed |
| `MainTheorems.EndedReadsBack` | cf/src/fresh-context.ts:103-148 | The conversation that ends reads back, after any further run, the transcript it had |
| `MainTheorems.OneIsCurrent` | cf/src/fresh-context.ts:50-54 | Always exactly one conversation is current; ids and archives are pairwise distinct |
| `MainTheorems.OneIsCurrentFromTheFirst` | cf/src/fresh-context.ts:50-54 | So it is after any run from an object that has never begun afresh |
| `MainTheorems.ReadExactlyWhen` | cf/src/fresh-context.ts:99-107 | After any run from such an object a text is read as a conversation exactly when it is the current one's id or an archived one's |
| `MainTheorems.OthersAreNowhere` | cf/src/fresh-context.ts:99-107 | A text that is no main conversation's id is read nowhere |
| `MainTheorems.ErasedIsNowhere` | cf/src/fresh-context.ts:158-177 | The conversation erased is read nowhere, and another is current |
| `MainTheorems.ErasesTheEnding` | cf/src/fresh-context.ts:158-177 | None of its tables or model jobs is left, main is empty, and others' jobs stay |
| `MainTheorems.ErasesExactlyWhen` | cf/src/fresh-context.ts:162-166 | An erasure ends the conversation exactly when it has an entry or a model job, be its transcript empty |
| `MainTheorems.BeginningIsWritten` | cf/src/fresh-context.ts:143-146 | What a beginning writes of the conversations: the ended one with its time and archive, the next with its cause, the others as they were |
| `MainTheorems.ErasureIsWritten` | cf/src/fresh-context.ts:167-172 | And an erasure: the same, without the archive |
| `MainTheorems.ErasesOnlyTheEnding` | cf/src/fresh-context.ts:158-177 | Every other conversation's line and archive stay as they were |
| `MainTheorems.ErasingIsIdempotent` | cf/src/fresh-context.ts:162-166 | Erasing again with nothing said since changes nothing |
| `MainTheorems.RebuildContinues` | cf/src/fresh-context.ts:86-97 | A rebuild keeps the conversation as readers know it and adds a transcript |
| `MainTheorems.FreshContextBegins` | cf/src/fresh-context.ts:86-97 | A fresh context begins another conversation |
| `MainTheorems.PhysicalIs` | cf/src/fresh-context.ts:99-107 | Where each conversation's tables are: main's, its archive's, or nowhere once erased |
| `MainTheorems.ArchivesStay` | cf/src/fresh-context.ts:112-148 | An archived conversation stays as archived whatever comes after |
| `MainTheorems.RunInv` | cf/src/fresh-context.ts:118-177 | Every run of writes, fresh contexts, rebuilds and erasures keeps rows and tables in step |
| `MainTables.ArchivesApart` | src/store/pi-storage.ts:72-82 | Two archived tables of one name are the same table of the same conversation, whatever the hashes |
| `MainTables.MainApart` | src/store/pi-storage.ts:73-80 | No archived table has a name of main's |
| `MainTables.IdsApart` | cf/src/fresh-context.ts:132-132 | Conversation ids are pairwise distinct |
| `MainTables.SafeIntegersFit` | src/store/pi-storage.ts:80-80 | The cut of the slug never reaches a generation's digits |
| `MainHost.Host.FreshMain` | cf/src/fresh-context.ts:123-148 | The steps in place: all of them, or none when a rename fails |
| `MainHost.Host.EraseMain` | cf/src/fresh-context.ts:158-177 | The erasure in place, and nothing when there is nothing to erase |
| `MainHost.Host.RenameTables` | cf/src/fresh-context.ts:141-141 | The loop of renames moves every table or leaves all |
| `MainHost.Host.CurrentMainId` | cf/src/fresh-context.ts:51-54 | The newest conversation not ended |
| `MainHost.Host.PhysicalSession` | cf/src/fresh-context.ts:103-107 | The session whose tables hold a conversation |
| `MainHost.Host.LogicalMainOf` | cf/src/fresh-context.ts:91-97 | The loop back over rebuilds |
| `ImageEvidence.RunTells` | cf/src/image-evidence.ts:201-230 | Through any deliveries: numbers are 1 to n, n at most the bound, each record is the ended report if delivered and else the prepared one, and one is left out only at the bound |
| `ImageEvidence.OrderDoesNotMatter` | cf/src/image-evidence.ts:102-108 | The same deliveries reordered or repeated record the same, up to the number |
| `ImageEvidence.AllAreKept` | cf/src/image-evidence.ts:218-220 | Up to the bound every attempt named is kept |
| `ImageEvidence.CompletedStays` | cf/src/image-evidence.ts:215-217 | A completed record never changes; another changes once, by the report that completes it |
| `ImageEvidence.RecordedNumbers` | cf/src/image-evidence.ts:221-222 | A new attempt's number is the next one and no number moves |
| `ImageEvidence.ImageTable.RecordImageAttempt` | cf/src/image-evidence.ts:207-230 | The write in place: only of a recorded call and a clean report |
| `ImageEvidence.ImageTable.Highest` | cf/src/image-evidence.ts:222-222 | The largest number given |
| `ImageAttempts.CapConserves` | cf/src/image-evidence.ts:74-78 | Kept plus truncated is what was reported, and the newest are kept |
| `ImageAttempts.CapTwice` | cf/src/image-evidence.ts:74-78 | Capping again changes nothing |
| `ImageAttempts.CleanAgainExactlyWhen` | cf/src/image-evidence.ts:182-199 | A result: cleaning is idempotent exactly while the truncated count is a safe integer |
| `ImageAttempts.CountCanBeLost` | cf/src/image-evidence.ts:192-192 | A report that cleans to one more dropped than the safe limit, and whose count is none when that is cleaned again |
| `ImageAttempts.SomeCountIsLost` | cf/src/image-evidence.ts:182-199 | With a clock that reads times as the engine must, such a report there is |
| `ImageAttempts.CleanBeforeTheEnd` | cf/src/image-evidence.ts:124-133 | The prepared report of an attempt cleans to the ended one without its end |
| `ImageAttempts.CleanIsOk` | cf/src/image-evidence.ts:165-199 | What is kept has the fixed shape, whatever was sent |
| `ImageShapes.CleansExactlyWhen` | cf/src/image-evidence.ts:153-199 | Whatever was sent cleans to a report exactly when it spells that report, field by field, and to nothing when it spells none |
| `ImageShapes.NamesAre` | cf/src/image-evidence.ts:113-151 | What an attempt and an error can be named |
| `RetailLaws.RefusedChangesNothing` | bench/tau2/retail.ts:131-256 | From a sound database a refused action leaves it unchanged |
| `RetailRecords.ExchangedExactlyWhen` | bench/tau2/retail.ts:230-250 | An exchange is accepted exactly when the order is delivered, the swaps can be made and their difference paid |
| `RetailRecords.ExchangeRecords` | bench/tau2/retail.ts:250-256 | It records as given back the items asked, as wanted the new ones, and the sum of their prices less the items'; nothing else changes but the status |
| `RetailRecords.ReturnedExactlyWhen` | bench/tau2/retail.ts:213-224 | A return is accepted exactly when the order is delivered and holds the items, and is refunded to a gift card or to how it was first paid |
| `RetailRecords.ReturnRecords` | bench/tau2/retail.ts:224-229 | It records the items asked and where to refund them |
| `RetailRecords.ItemsModifiedExactlyWhen` | bench/tau2/retail.ts:157-180 | An items change is accepted exactly when the order is pending, each swap can be made and the difference paid |
| `RetailRecords.ItemsModifiedRecords` | bench/tau2/retail.ts:176-190 | It adds a payment or a refund of the difference, and nothing else of the order changes but items and status |
| `RetailRecords.ItemsModifiedItems` | bench/tau2/retail.ts:180-187 | Every item is as it was, or one of the new ones in its place, with its variant's price and options |
| `RetailRecords.PaymentModifiedExactlyWhen` | bench/tau2/retail.ts:191-205 | A payment change is accepted exactly when the order was paid once and another method can pay |
| `RetailRecords.PaymentModifiedRecords` | bench/tau2/retail.ts:205-212 | It adds the payment and the refund and changes nothing else of any order |
| `RetailRecords.CancelledExactlyWhen` | bench/tau2/retail.ts:131-141 | A cancellation is accepted exactly when the order is pending, for one of the two reasons, every method there |
| `RetailRecords.CancelRecords` | bench/tau2/retail.ts:136-145 | It writes status, reason and a refund of every entry in turn |
| `RetailRecords.OrderReaddressedExactlyWhen` | bench/tau2/retail.ts:146-151 | An order's address changes exactly while it is pending |
| `RetailRecords.UserReaddressedExactlyWhen` | bench/tau2/retail.ts:152-156 | A user's address changes for any user there is |
| `RetailRecords.QuotedFor` | bench/tau2/retail.ts:166-176 | A quote is the variants asked and the sum of what they cost more |
| `RetailRecords.PendingStatuses` | bench/tau2/retail.ts:146-148 | Which statuses hold the word |
| `RetailLaws.RefusedButChangedExactlyWhen` | bench/tau2/retail.ts:131-212 | From any database, a refused action has changed it exactly when it stopped half-way: a cancellation that credited a card before meeting a missing method, or a payment change whose old method is gone |
| `RetailLaws.CancelCanStopHalfWay` | bench/tau2/retail.ts:136-140 | Such a cancellation |
| `RetailLaws.SoundKept` | bench/tau2/retail.ts:131-256 | Every action keeps that all payments name methods of the order's user |
| `RetailLaws.LedgersKept` | bench/tau2/retail.ts:131-256 | Conservation: for every gift card, balance plus what the orders' histories have taken from it stays the same through every accepted action |
| `RetailLaws.RunKeeps` | bench/tau2/retail.ts:131-256 | Soundness and every ledger are kept over whole runs |
| `RetailLaws.RunSolvent` | bench/tau2/retail.ts:157-212 | Over any run no gift card goes below zero |
| `RetailLaws.RunFinal` | bench/tau2/retail.ts:131-256 | Cancelled, return-requested and exchange-requested orders never change again |
| `RetailLaws.RunSettles` | bench/tau2/retail.ts:131-256 | Once an order has left pending and delivered its status and items stay and its history only grows |
| `RetailLaws.ItemsModifiedOnce` | bench/tau2/retail.ts:157-190 | At most one action of a run modifies an order's items |
| `RetailLaws.PaymentModifiedOnce` | bench/tau2/retail.ts:191-212 | At most one changes its payment method, and none after its items were modified, unless the history was empty till then and that change was charged for |
| `RetailLaws.PaymentAfterItemsExactlyWhen` | bench/tau2/retail.ts:157-212 | A result: after an items change a payment change is accepted exactly when the history was empty, the difference was positive and the other method can pay it |
| `RetailCancel.CancelGivesBackExactlyWhen` | bench/tau2/retail.ts:136-143 | A result: an accepted cancellation gives a method back exactly what was taken from it when, and only when, no refund of it was held before |
| `RetailCancel.CancelledTakes` | bench/tau2/retail.ts:136-143 | And otherwise twice every refund held is given beyond that |
| `RetailCancel.OverRefundsExactlyWhen` | bench/tau2/retail.ts:131-212 | A result over runs: from a database whose pending orders hold no refund, an accepted cancellation is off for some method exactly when an earlier action was an accepted payment change of that order, of some amount |
| `RetailCancel.CancelAfterPaymentChange` | bench/tau2/retail.ts:136-143 | So a payment changed and then cancelled is given back three times over |
| `RetailItems.ModifiedItemIds` | bench/tau2/retail.ts:162-187 | Once the checks pass the second loop always finds an item, and the item ids become old minus asked plus new, repeats and overlaps included |
| `RetailItems.ChargedForTheChange` | bench/tau2/retail.ts:166-187 | Where items are recorded at listed prices, the entry added is the change of the order's total |
| `RetailItems.ChargedForTheChangeExactlyWhen` | bench/tau2/retail.ts:166-187 | A result: the entry added is the change of the order's total exactly when the prices of the items swapped out and the prices quoted for them add up alike |
| `RetailItems.ChangeIsChargeAndGap` | bench/tau2/retail.ts:166-187 | The change of the total is the charge and the sum, over the swaps, of the recorded price less the quoted one |
| `RetailItems.ChargeCanMissTheChange` | bench/tau2/retail.ts:168-176 | Two items of one id at different prices: the charge is not the change |
| `RetailItems.HoldsIsInclusion` | bench/tau2/retail.ts:161-164 | The counting loop is multiset inclusion |
| `RetailShop.RetailDb.Apply` | bench/tau2/retail.ts:67-260 | Each action in place, step by step, refused part-way included |
| `RetailShop.RetailDb.CancelOrder` | bench/tau2/retail.ts:131-145 | The refund loop, credits before a missing method included |
| `RetailShop.RetailDb.ModifyItemsOf` | bench/tau2/retail.ts:157-190 | The check, quote and swap loops |
| `RetailShop.RetailDb.ModifyPaymentOf` | bench/tau2/retail.ts:191-212 | The history is pushed before the old method is looked up |
| `RetailShop.RetailDb.ReturnItems` | bench/tau2/retail.ts:213-229 | The return and its order of checks |
| `RetailShop.RetailDb.ExchangeItems` | bench/tau2/retail.ts:230-256 | The exchange, which moves no money |
| `RetailShop.RetailDb.PriceSwaps` | bench/tau2/retail.ts:166-176 | The quoting loop |
| `Bench.BenchState.Invoke` | cf/src/bench.ts:102-107 | Every call is answered by the calls performed before it, kept up to the last one accepted; from a sound base as an object never evicted would answer |
| `Bench.BenchState.State` | cf/src/bench.ts:53-69 | Base and replay give the database of the calls performed, from a sound base that of all calls asked for |
| `Bench.BenchState.Evict` | cf/src/bench.ts:53-69 | A task is rebuilt as it was exactly when the replay of its calls up to the last accepted tells it |
| `Bench.BenchState.Reset` | cf/src/bench.ts:47-51 | The next state is the base |
| `Bench.UnsoundBaseCanDiffer` | cf/src/bench.ts:61-65 | There is an unsound base from which replay and live differ |
| `Bench.SoundBaseNeverDiffers` | cf/src/bench.ts:61-65 | From a sound one they never do |
| `BenchReplay.CanDifferExactlyWhen` | cf/src/bench.ts:61-65 | A result, for any base: some run of calls is not told by its replay exactly when some run reaches a database in which an action stops half-way |
| `BenchReplay.DiffersExactlyWhen` | cf/src/bench.ts:61-65 | For one run: exactly when a call refused last stops half-way and the later ones never undo it |
| `BenchReplay.DiffersWhenSolventExactlyWhen` | cf/src/bench.ts:61-65 | Where no card is below zero and no amount negative, exactly when a call refused last stops half-way |
| `Bench.RefusedMayBeForgotten` | cf/src/bench.ts:104-106 | A call refused last may be forgotten |
| `Arithmetic.PrintedEvaluates` | bench/tau2/retail.ts:278-325 | The printed form of any expression tree, however spaced, evaluates to the tree's value |
| `ArithmeticGrammar.EvaluatesExactlyWhen` | bench/tau2/retail.ts:278-325 | A text evaluates to a value exactly when, but for spaces, it is how some expression of that value is written |
| `ArithmeticGrammar.SignsAre` | bench/tau2/retail.ts:293-321 | Each sign is the one it is written as, and products bind closer |
| `Arithmetic.Evaluate` | bench/tau2/retail.ts:279-325 | It ends on every text, with the grammar's value or an error |
| `Arithmetic.Evaluator.Expression` | bench/tau2/retail.ts:313-321 | Left-associative sums over the shared index |
| `Arithmetic.Evaluator.Term` | bench/tau2/retail.ts:304-312 | Left-associative products |
| `Arithmetic.Evaluator.Factor` | bench/tau2/retail.ts:293-303 | Signs, parentheses and numbers |
| `Arithmetic.ExpressionIsRead` | bench/tau2/retail.ts:313-321 | A tree written for an expression is read as the front of one |
| `Arithmetic.TermIsRead` | bench/tau2/retail.ts:304-312 | A tree written for a term likewise |
| `Arithmetic.FactorIsRead` | bench/tau2/retail.ts:293-303 | And one written for a factor |
| `Binomial.Choose` | bench/tau2/passk.ts:46-52 | The loop computes the binomial coefficient, an integer after every step |
| `Binomial.DrawsCount` | bench/tau2/passk.ts:46-52 | Which counts the draws of k members of a set |
| `PassK.ShareIsTheFraction` | bench/tau2/passk.ts:54-67 | A task's share is the fraction of all draws of k of its trials in which all pass |
| `PassK.PassAllKTrials` | bench/tau2/passk.ts:60-69 | The mean of the shares over tasks with at least k trials |
| `PassK.PassFirstKTrials` | bench/tau2/passk.ts:76-84 | The tasks whose first k trials passed |
| `PassK.ByTask` | bench/tau2/passk.ts:37-44 | A task's rows in order, tasks as first seen |
| `PassK.OrderFree` | bench/tau2/passk.ts:54-59 | Invariant under permuting the rows |
| `PassK.FirstKIsNotOrderFree` | bench/tau2/passk.ts:71-75 | Which the first-k reading is not |
| `PassKFirst.FirstKIsOrderFreeExactlyWhen` | bench/tau2/passk.ts:71-84 | A result, for k of at least one: it is the same in every order exactly when no task with k trials has both a failure and k passes |
| `PassK.RateFalls` | bench/tau2/passk.ts:60-69 | Does not rise with k where every task with k trials has one more |
| `PassK.RateCanRise` | bench/tau2/passk.ts:63-63 | And can rise where a task drops out |
| `PassKRise.RisesExactlyWhen` | bench/tau2/passk.ts:60-69 | A result: some results of the same trials make the rate rise from k to k + 1 exactly when some task ran k trials and no more while another ran more |
| `PassK.AgreesAtAllTrials` | bench/tau2/passk.ts:10-11 | The two readings agree where every task ran exactly k trials |
| `PassK.PassOneIsTheShareOfTrials` | bench/tau2/passk.ts:114-123 | pass^1 is the share of all trials where every task ran as many |
| `HookRoute.EveryRouteWasFoundLive` | cf/src/hook-route.ts:49-90 | Every route returned is the index's row of that hook, found live by a read whose answer came less than the TTL before |
| `HookRouteActs.FindsTheLive` | cf/src/hook-route.ts:57-90 | With no copy at hand a call whose read is answered finds the hook exactly when the index has it live |
| `HookRouteActs.NoHookForAReason` | cf/src/hook-route.ts:73-74 | However a run goes, a call is told there is no hook only when its own reading found none live |
| `HookRouteActs.MemoryAnswers` | cf/src/hook-route.ts:59-61 | A copy in memory with time left answers at once, and only such a one |
| `HookRouteActs.CacheAnswers` | cf/src/hook-route.ts:62-72 | A copy in the cache with time left answers, and is kept in memory as it is |
| `HookRouteActs.IndexIsRead` | cf/src/hook-route.ts:73-73 | The index is read as it is |
| `HookRouteActs.IndexAnswers` | cf/src/hook-route.ts:74-89 | A row read is answered, and kept for an hour |
| `HookRoute.NoCopyExtends` | cf/src/hook-route.ts:64-69 | Every entry in a memory, a cache, a write on its way or a call's hand carries the expiry of such a read: no copy or late write extends it |
| `HookRoute.RevokedIsRoutedNoLonger` | cf/src/hook-route.ts:10-19 | A revoked hook is routed for less than the TTL and the longest wait of a read |
| `HookRoute.SlowReadOutlastsTheTtl` | cf/src/hook-route.ts:73-75 | A result: the bound runs from the answer, so a hook can be routed more than the TTL after it was revoked |
| `HookRouteBound.RoutedPastExactlyWhen` | cf/src/hook-route.ts:49-90 | A result, for any reachable state and any bound: a revoked hook can still be routed at or past it exactly when an entry that lasts past it is in a memory, a cache or a deferred write, or a call has one in hand or has read the row live and not had its answer |
| `HookRouteBound.PastTheTtlIsStraddled` | cf/src/hook-route.ts:10-19 | Every route at or past the TTL after the revocation comes of a read made before it and answered after it |
| `HookRouteBound.StraddlingReadCanRoutePast` | cf/src/hook-route.ts:73-75 | And wherever a run makes such a read, it could have gone on to a route past the TTL |
| `HookRoute.StepInv` | cf/src/hook-route.ts:57-97 | Every step of isolates, caches, deferred writes and revocations keeps it |
| `RouteHook.Worker.Route` | cf/src/hook-route.ts:57-90 | The imperative lookup, memory then cache then index, is a run of the machine, whether its cache write is deferred or waited for; it says no hook only where its own reading of the index found none live |
| `RouteHook.Worker.AskCache` | cf/src/hook-route.ts:62-72 | A cache hit is returned only while fresh |
| `RouteHook.Worker.AskIndex` | cf/src/hook-route.ts:73-89 | The index's answer, whenever it comes |
| `RouteHook.Worker.ForgetHookRoute` | cf/src/hook-route.ts:92-97 | Forgetting drops the isolate's entry |

## Left out

- RenewalTheorems.PairNeverLost: a ciphertext is identified with the pair it seals, because each pair is sealed once, before its write is tried; what a later reconnect or removal does with the pair's place is theirs.
- RenewalTheorems.TradesNeverOverlap: nothing is said of two requests of which one went out too late in its lease, since the source sets no bound on that.
- RenewConnector.Deployment.Renew: the account-id fill, the granted scope, trace rows and log lines, which never touch the pair or the broken mark; some refused paths leave the lease to run out, and nothing is claimed of giving it back; a mark or a release that lands while its call throws is taken for one that answered.
- MountRenewal.Mount.Renew: what GitHub and the registry answer are parameters, and so is the connector's answer but in `RenewThrough`; the object's own two rows are written by its local SQL, whose failure is not modelled; handing the pair on to other agents is not modelled.
- TraceWindow.ReadTraceWindow: keys are already parsed and bodies are rows, or none when the batch has gone, so the JSON, the key syntax and rows of other agents are not modelled.
- TraceFollow.FollowLive: nothing is removed from the bucket during a walk over the live log; a batch gone between its listing and its reading is `TraceWindow`'s.
- TraceLog.NothingLost: damaged rows are dropped by the export as the source does; the day index, drop records and status clock are not modelled.
- SecretForms.DecodesToHolding: what a run decodes to is searched for the value's bytes; the source reads it as text and searches that for the value's forms, so those of its other spellings are not modelled.
- SecretForms.Base64Forms: the value is its bytes; the URL, JSON, HTML, hex and escaped spellings, letter case and the regular expressions built of the forms are not modelled.
- Base64Runs.EachBase64Run: the rewriter is any function of the run.
- ApprovalIndex.ApprovalTable.UpsertHold: the item's other fields are one text; how it is redacted and worded is not modelled.
- ApprovalPublishTheorems.PublishedIsCopied: an agent without a registry row has its holds marked without a copy, as the source does; the model keeps which states those are, and which the prune took, until a write of that state or a later one lands.
- PublishApprovals.AgentObject.Publish: one pass runs at a time, as an object's alarm does; the hint's body, its signature and the hand-off column are not modelled, and holds of one creation time keep the order they were made in.
- ApprovalPaging.List: the statement's plan is not modelled; rows are their sort keys.
- MainHost.Host.FreshMain: indexes, start times and the overflow backstop's count are not modelled; a transaction is all or nothing.
- ImageEvidence.ImageTable.RecordImageAttempt: what the engine reads as a date is a parameter with one law; the consumer's waiting and logging are not modelled.
- RetailShop.RetailDb.Apply: amounts are whole cents and arguments are typed; read tools are one action that changes nothing; the sorted lists a return or exchange keeps are multisets; error texts are kinds.
- Bench.BenchState.Invoke: calls run one after another; two that find a task not live at the same time, and the loading of the base, are not modelled.
- Arithmetic.Evaluate: numbers are those of any arithmetic, so what the engine's own text reading and rounding do is not modelled, nor the rounding of the answer to cents.
- PassK.PassAllKTrials: shares are exact; k is not negative.
- HookRoute.EveryRouteWasFoundLive: one clock serves all isolates; the shape check of a cached entry and the cache's own headers are not modelled, since a cache may answer any entry ever written.
- HTTP routes, pages and admin handlers, sockets and bench runners: they check arguments and render, with no state of their own.
- Sealing, signing and hashing: a sealed value is named by what it seals, and the table-name hash is computed but nothing rests on it.
