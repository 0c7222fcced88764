# Verified model of the venue-booking back end

A municipal venue-booking service: LINE users ask for rooms, staff approve, book directly and cancel, and
two minute-by-minute jobs expire stale requests and claim reminders. Beside it stand an announcement
sender, an incident ring with storm control, a Thai text sanitiser with its backfill planner, and a CSV
export. This project models the parts of it that carry state, races or rewriting, and proves what they keep.

`dafny verify dfyconfig.toml` asks Dafny's verifier to prove every contract of the project.

## How it is built

| files | what they hold |
|---|---|
| `BookingModel`, `BookingInvariant`, `BookingCancel`, `BookingInsert`, `BookingRuns` | the two booking tables as maps, what each transaction does to them when it runs alone, the invariant of the whole state, and what follows over any sequence of transactions |
| `BookingStatements`, `BookingService` | the database statements as scans over rows with row-by-row contracts, and the services and jobs as a class over the two tables, each method proved against the transaction it stands for |
| `BookingRace`, `BookingRaceSafety`, `BookingRaceSteps`, `BookingRaceResults`, `BookingRaceReport`, `BookingRaceSlots`, `BookingRaceCounts`, `BookingRaceSchedule`, `BookingRaceWitness` | the same transactions interleaved under READ COMMITTED: row locks, guarded updates, the hashed venue lock, failure at any point |
| `BookingOverlap`, `ErrorChain`, `EcmaDate`, `BookingCode`, `BookingWindow`, `CodeCounter` | the overlap rule and slot parser, the error-graph walk, ECMA-262 calendar arithmetic, booking numbers, the calendar window, and the concurrent code counter |
| `AnnouncementSend` | send, PATCH and DELETE of one announcement, interleaved |
| `IncidentStore`, `StormControl` | the Redis ring and its detail hash, and the per-signature rate limit |
| `ThaiSanitizer`, `ThaiSecondPass`, `Backfill` | the ordered rewrite rules, exactly when one pass of them is enough, and the planner that applies them to stored rows |
| `Csv`, `LikeEscape` | the CSV printer with a reader of RFC 4180 section 2, and the LIKE escaper with LIKE's own meaning |
| `Decimal`, `Sorting`, `Text`, `Wrappers` | shared numerals, a stable sort, trimming and the optional value |

Time is integer milliseconds. Clocks, minted ids, database look-ups of other tables, the outcome of a LINE
multicast and the order in which requests run are parameters, so every result holds for all of them.

## Where the code does not do what its documentation says

Each of these is kept as the code has it, with a lemma that exhibits it and the exact condition where one exists.

- The sanitiser is described as idempotent (`src/common/sanitize-thai.util.ts:76-93`). It is not: zero-width
  characters are stripped after the pair rules, and crowded marks need a second pass. For every string,
  `ThaiSecondPass.OnePassIsFinalExactly` tells, by a scan of the input after its two folds, whether one pass is
  final. The backfill plan therefore can give two active rows one name (`Backfill.ThaiPlanCanCollide`).
- `bangkokDayRange` and `resolveWindow` go through `Date.UTC`, which reads the years 0 to 99 as 1900 to 1999.
  In those years the range does not hold its own instant (`BookingCode.DayRangeHoldsItsInstant`). Equal labels
  mean equal ranges exactly outside those years and the years 1900 to 1999, on which their ranges land
  (`BookingCode.AgreementExactly`).
- A retention cap of 0 keeps the whole ring, because `LTRIM 0 -1` does, while every detail is deleted
  (`IncidentStore.AgreementAfterAdd`).
- A booking is labelled and counted by the application's `now` but stamped by the database's default
  `createdAt`. The codes of every day are consecutive exactly when each row is stamped on the day it is
  labelled with (`CodeCounter.ConsecutiveExactlyWhenLabelled`); when one is not, a lone submission of the new
  day can give up (`CodeCounter.LabelAheadOfStampStarves`).
- The venue lock orders decisions, but a LINE user's slot cancellation does not take it. Two of them can
  leave a request APPROVED with nothing live (`BookingRaceWitness.SlotCancelsCrossFromEmpty`), though never a
  room booked twice. The request follows its slots throughout a run exactly when no cancellation of it commits
  over a count that has gone stale at either end (`BookingRaceCounts.FollowsExactly`); cancellations that do not
  run beside each other never do (`BookingRaceSchedule.RequestFollowsSlots`).
- The list of auto-rejected requests is the list that was asked for. It never misses a row, and it is the set
  of rows that changed exactly when all of them are still PENDING at the commit
  (`BookingRaceReport.ReportIsChangedSetExactly`); a run where one is not:
  `BookingRaceWitness.ReportGoesWrongFromEmpty`.

## Model

| member | source | states |
|---|---|---|
| `BookingRaceResults.NeverDoubleBooked` | src/bookings/admin-bookings.service.ts:340-429 | in every interleaving of approve, direct booking, staff cancel, submit, reject, withdraw, slot cancel and expiry, with any lock hash and no exclusion constraint, two live slots of APPROVED requests at one venue share no instant |
| `BookingRaceSteps.RaceKeepsInv` | src/bookings/admin-bookings.service.ts:693-788 | every reachable interleaved state is safe, and so is what each open transaction would commit; only the holder of the venue lock makes a slot occupy the venue |
| `BookingRaceSteps.ApprovalFits` | src/bookings/admin-bookings.service.ts:379-407 | under the lock, a re-read that shows no approved clash over spans covering the live slots makes the flip safe |
| `BookingRaceSteps.InsertedFits` | src/bookings/admin-bookings.service.ts:734-782 | a direct insert under the lock after a clear read, and a pending insert without any lock, both keep the venue safe |
| `BookingRaceSafety.HoldsBehind` | src/bookings/admin-bookings.service.ts:1095-1100 | across two transactions, a slot that holds a room after one commits held it in either view, unless the transaction that had the lock took it |
| `BookingRaceSafety.CommitKeepsTx` | src/bookings/admin-bookings.service.ts:187-190 | whatever a transaction has read or written under READ COMMITTED is still good enough after any other one commits |
| `BookingRaceSteps.NextKeeps` | src/bookings/bookings.service.ts:504-527 | each statement of each transaction takes only rows nobody else holds and keeps the invariant |
| `BookingRaceResults.DecisionsStand` | src/bookings/admin-bookings.service.ts:395-411 | in every interleaving REJECTED, CANCELLED and EXPIRED are final and APPROVED can only become CANCELLED |
| `BookingRaceResults.ReportIsSettled` | src/bookings/admin-bookings.service.ts:798-816 | after a decision commits, every request it reports is no longer PENDING |
| `BookingRaceResults.ReportIsComplete` | src/bookings/admin-bookings.service.ts:798-816 | every request a commit turns to auto-rejected is in the reported list |
| `BookingRaceReport.ReportedRowChangesExactly` | src/bookings/admin-bookings.service.ts:798-816 | in every reachable state, committing a decision changes a request it reports if and only if that request is still PENDING in the committed tables, and then rejects it |
| `BookingRaceReport.ReportIsChangedSetExactly` | src/bookings/admin-bookings.service.ts:798-816 | the reported list is the set of rows the commit rejects if and only if every request on it is still PENDING when it commits |
| `BookingRaceWitness.ReportGoesWrongFromEmpty` | src/bookings/admin-bookings.service.ts:790-797 | a run from empty tables, for any lock hash, whose commit reports a request that an operator had rejected with a reason of their own |
| `BookingRaceResults.ReportMayNameAnothersRejection` | src/bookings/admin-bookings.service.ts:790-797 | from any such state, an operator's rejection that lands between the read and the update stands, and the request is reported as auto-rejected all the same |
| `BookingRaceResults.SlotCancelsMayCross` | src/bookings/bookings.service.ts:584-645 | from any state with an approved request of two live slots, two concurrent slot cancellations can both succeed and leave it APPROVED with none |
| `BookingRaceCounts.FollowsExactly` | src/bookings/bookings.service.ts:608-643 | in every interleaving, under any hash, the request follows its slots at every moment of a run if and only if no cancellation of it, the owner's or the staff's, commits when none of the slots still left starts as early, or none ends as late, as one it counted |
| `BookingRaceCounts.CommitKeepsExactly` | src/bookings/bookings.service.ts:608-643 | with the request in order so far, committing a cancellation of it keeps it in order if and only if some slot still left starts as early as any it counted and some ends as late, or the request already is CANCELLED |
| `BookingRaceCounts.CommitStrandsExactly` | src/bookings/bookings.service.ts:608-643 | and it strands an APPROVED request with nothing live if and only if it counted some remaining slot and, but for those it cancels itself, no slot of the request is live in the committed tables any more |
| `BookingRaceSchedule.RequestFollowsSlots` | src/bookings/bookings.service.ts:584-645 | so in every interleaving in which no owner's slot cancellation of a request is open, from its read of the slot to its commit, beside another cancellation of it: CANCELLED exactly when nothing is live, span the extremes of the live slots, PENDING, REJECTED and EXPIRED with every slot live |
| `BookingRaceCounts.CommitKeepsKnown` | src/bookings/admin-bookings.service.ts:571-604 | what an open cancellation counted covers all that is left of the request, and what it wrote stands, whatever another transaction commits |
| `BookingRaceWitness.SlotCancelsCrossFromEmpty` | src/bookings/bookings.service.ts:584-645 | a run from empty tables, for any lock hash, that ends with an APPROVED request and nothing live |
| `BookingRuns.RunKeepsInv` | src/bookings/bookings.service.ts:514-527 | with transactions atomic, every sequence of them keeps the invariant of slots, pairs and requests |
| `BookingRuns.NoDoubleBooking` | src/bookings/booking-overlap.ts:57-72 | in every reachable state no live slot of an approved or pending request shares an instant with a live approved slot at its venue |
| `BookingRuns.RequestSummarisesSlots` | src/bookings/admin-bookings.service.ts:585-604 | CANCELLED exactly when nothing is live; otherwise first start and last end are the extremes of the live slots; PENDING, REJECTED and EXPIRED requests have every slot live; stamps come together |
| `BookingRuns.FinalStatusIsFinal` | src/bookings/bookings.service.ts:496-520 | over any continuation a settled status stays and APPROVED only becomes CANCELLED |
| `BookingRuns.LaterMoves` | src/bookings/admin-bookings.service.ts:346-350 | venue, code, stamp and owner of a request never change, nor the place of a slot, and a cancelled slot stays as it was |
| `BookingRuns.ApproveOfPendingSucceeds` | src/bookings/admin-bookings.service.ts:379-403 | in serial runs approving a pending request always succeeds, never SLOT_TAKEN or ALREADY_CANCELLED |
| `BookingRuns.ApproveChangesExactly` | src/bookings/admin-bookings.service.ts:383-418 | an approval changes the winner and exactly the pending requests at the venue with a live slot sharing an instant with one of the winner's, and no slot |
| `BookingRuns.DirectChangesExactly` | src/bookings/admin-bookings.service.ts:737-787 | the same for a staff booking, which adds one request and its slots |
| `BookingInsert.DirectIsSubmitThenApprove` | src/bookings/admin-bookings.service.ts:741-782 | creation is the approval: a staff booking leaves the tables as submitting it and approving it at once would, but for who typed it |
| `BookingCancel.StaffCancelChangesExactly` | src/bookings/admin-bookings.service.ts:549-604 | staff cancel every live slot or exactly the named ones, none skipped, with all five columns; the request follows its slots and nothing else changes |
| `BookingCancel.FirstBadDecides` | src/bookings/admin-bookings.service.ts:555-566 | the first named slot that is foreign or already cancelled decides the refusal |
| `BookingCancel.NamedSlotsPass` | src/bookings/admin-bookings.service.ts:555-568 | named slots pass exactly when each is live and on the booking |
| `BookingCancel.SlotCancelChangesExactly` | src/bookings/bookings.service.ts:584-645 | an owner's slot cancellation frees that one slot, which starts after the cutoff, and the request is CANCELLED only with its last |
| `BookingRuns.ConflictsPredictApprove` | src/bookings/admin-bookings.service.ts:901-934 | in reachable states the conflicts block of a pending request is clear and lists exactly whom approving it rejects |
| `BookingService.PreflightPredictsCreate` | src/bookings/admin-bookings.service.ts:958-991 | with nothing written in between, preflight and direct booking refuse the same bodies for the same reason; without a clash the booking is made and rejects exactly the listed requests |
| `BookingRuns.PreflightPredictsDirect` | src/bookings/admin-bookings.service.ts:1025-1031 | one booking attempt succeeds exactly when no approved slot overlaps, with the losers the shared picture names |
| `BookingRuns.RunKeepsCodes` | src/bookings/booking-code.ts:83-92 | in serial runs every code is its day's, at a position below that day's count, if and only if every row's default stamp falls on the day its code names |
| `BookingRuns.NextCodeIsFree` | src/bookings/booking-code.ts:63-69 | and then the counted code is free, so a retry never happens |
| `BookingRuns.TakenAsString` | prisma/schema.prisma:851 | a code is taken as day and number exactly when its string is, which is what the unique index compares |
| `BookingRuns.RemindedAtMostOnce` | src/bookings/booking-reminder.cron.ts:60-98 | over any run of sweeps a slot is claimed at most once, and exactly when its row says so |
| `BookingRuns.ExpiredByOneSweep` | src/bookings/booking-expiry.cron.ts:82-92 | over any run a request is EXPIRED exactly when one sweep took it while PENDING and overdue, and none is taken twice |
| `BookingRuns.WithdrawnOnce` | src/bookings/bookings.service.ts:496-529 | over any run at most one withdrawal of a request succeeds, and from then on it is CANCELLED with nothing live |
| `BookingService.BookingStore.Approve` | src/bookings/admin-bookings.service.ts:340-433 | the new tables and the answer of an approval; announced first the winner, then the losers by code, and exactly the rows that changed |
| `BookingService.BookingStore.RejectLosers` | src/bookings/admin-bookings.service.ts:798-816 | each named request still pending becomes REJECTED with the reason that names nobody; every other row and every other column stays |
| `BookingStatements.RejectPending` | src/bookings/admin-bookings.service.ts:803-814 | the guarded update row by row: which rows it changes, to what, and that it leaves the rest |
| `BookingStatements.FindClashes` | src/bookings/booking-overlap.ts:57-90 | the scan finds exactly the live slots of approved requests at the venue, other than the excluded one's, that overlap some span |
| `BookingStatements.FindLosers` | src/bookings/booking-overlap.ts:125-144 | exactly the pending requests at the venue with some live overlapping slot, each once, in the order of their codes |
| `BookingStatements.SomeSlotMatches` | src/bookings/booking-overlap.ts:134-139 | a request matches exactly when one of its live slots overlaps one of the spans |
| `BookingStatements.MatchesOverlap` | src/bookings/booking-overlap.ts:37-44 | one clause matches exactly when the slot overlaps one of the spans |
| `BookingStatements.CountCreated` | src/bookings/booking-code.ts:83-91 | the number of rows created within the half-open day |
| `BookingStatements.CodeExists` | prisma/schema.prisma:851 | whether some row has the code |
| `BookingStatements.ExpirePending` | src/bookings/booking-expiry.cron.ts:85-92 | the rows returned are exactly the overdue pending ones, each once; they become EXPIRED with the fixed reason and no other row changes |
| `BookingStatements.ClaimReminders` | src/bookings/booking-reminder.cron.ts:67-79 | exactly the unclaimed live slots of approved LINE bookings starting within the hour are stamped |
| `BookingStatements.CancelLive` | src/bookings/admin-bookings.service.ts:572-582 | exactly the named live slots get the five columns, the count is theirs, and no other slot changes |
| `BookingService.BookingStore.Decide` | src/bookings/admin-bookings.service.ts:343-387 | the reads of an approval give its answer and, before anything is flipped, its losers by code |
| `BookingService.BookingStore.DecideDirect` | src/bookings/admin-bookings.service.ts:699-744 | the reads of a staff booking give its answer, its losers by code and the counted code |
| `BookingService.BookingStore.Reject` | src/bookings/admin-bookings.service.ts:462-497 | it succeeds exactly on a pending request, which then carries the operator's words |
| `BookingService.BookingStore.StaffCancel` | src/bookings/admin-bookings.service.ts:513-606 | every slot or the named ones; the first wrong name refuses them all and nothing is written |
| `BookingService.BookingStore.FindBadSlot` | src/bookings/admin-bookings.service.ts:555-566 | the loop over the named slots finds the first that is foreign or already cancelled |
| `BookingService.BookingStore.CancelAndSummarise` | src/bookings/admin-bookings.service.ts:571-604 | stamps the targets, then the span is that of the remaining slots, or CANCELLED with the span left alone |
| `BookingService.BookingStore.CancelPendingBooking` | src/bookings/bookings.service.ts:496-530 | the booking named by id or code, one's own, pending: it and all its slots are cancelled together; otherwise nothing is written |
| `BookingService.BookingStore.CancelApprovedSlot` | src/bookings/bookings.service.ts:570-645 | of the booking named by id or code, one's own and approved, one slot is freed when it starts after the cutoff, and the request follows its slots |
| `BookingService.BookingStore.FindOwned` | src/bookings/bookings.service.ts:830-836 | a LINE user's booking whose id or code is the trimmed text without a leading `#`, or none of theirs is |
| `BookingService.BookingStore.CreateFromLine` | src/bookings/bookings.service.ts:267-283 | refusals in the order permission, slots, venue, open, clash; otherwise a pending request with its slots |
| `BookingService.BookingStore.InsertWithCode` | src/bookings/bookings.service.ts:724-745 | the retry loop answers as the first attempt that does not collide, or as the fifth |
| `BookingService.BookingStore.InsertOnce` | src/bookings/bookings.service.ts:747-792 | one attempt: clash, code, then the request with its span and its slots in one write |
| `BookingService.BookingStore.CreateDirect` | src/bookings/admin-bookings.service.ts:633-691 | the staff route, each attempt with its own look-ups: `created` names exactly the rows that joined, `updated` exactly those that changed, by code |
| `BookingService.BookingStore.CreateDirectOnce` | src/bookings/admin-bookings.service.ts:693-788 | one attempt: venue, LINE user, department, clash, losers read before the insert, then the losers rejected |
| `BookingService.BookingStore.CheckPreflight` | src/bookings/admin-bookings.service.ts:958-991 | the clash count and, by code, the requests a booking would reject, refused in the same order as a booking |
| `BookingService.BookingStore.ExpireOverdue` | src/bookings/booking-expiry.cron.ts:82-135 | exactly the overdue pending requests expire; the ids returned are the rows that changed, each once, published in chunks of 1 to 500; a failed write changes and returns nothing |
| `BookingService.BookingStore.RemindUpcoming` | src/bookings/booking-reminder.cron.ts:60-98 | the claimed ids are exactly the slots whose row changed, each once; a failed claim changes and returns nothing |
| `BookingService.Chunked` | src/bookings/booking-expiry.cron.ts:114-129 | the chunks put together are the list, none empty and none over 500 |
| `BookingStatements.EarliestAndLatest` | src/bookings/bookings.service.ts:774-777 | the minimum start and the maximum end over the spans |
| `BookingOverlap.ParseSlots` | src/bookings/booking-overlap.ts:151-180 | the parser's answer: first bad span by input order, then any overlapping pair, else the spans in input order |
| `BookingOverlap.AcceptedExactlyWhenDisjoint` | src/bookings/booking-overlap.ts:151-180 | accepted exactly when every span is non-empty and in the future and no instant lies in two of them |
| `BookingOverlap.AdjacentCheckIsComplete` | src/bookings/booking-overlap.ts:171-178 | after sorting by start, comparing neighbours finds every overlap |
| `BookingOverlap.NeighboursApart` | src/bookings/booking-overlap.ts:174-178 | the scan over the sorted copy succeeds exactly when no two spans overlap |
| `BookingOverlap.OverlapsIffSharedInstant` | src/bookings/booking-overlap.ts:37-44 | for non-empty spans the two strict comparisons hold exactly when some instant lies in both |
| `BookingOverlap.FirstErrorAt` | src/bookings/booking-overlap.ts:155-167 | the error reported is that of the first span that is not valid |
| `ErrorChain.ErrorChain` | src/bookings/booking-overlap.ts:245-264 | on any finite error graph, cyclic or not, the walk ends having visited every reachable object exactly once |
| `ErrorChain.IsOverlapViolation` | src/bookings/booking-overlap.ts:213-226 | true exactly when some reachable object carries the SQLSTATE or names the constraint |
| `CodeCounter.DayCodesAreConsecutive` | src/bookings/booking-code.ts:83-92 | in every interleaving of count-then-insert whose committed rows are stamped on the day they are labelled with, whatever refused and aborted attempts did, the n rows of a Bangkok day carry the sequences 1..n, each once |
| `CodeCounter.ConsecutiveExactlyWhenLabelled` | prisma/schema.prisma:959 | the codes of every day are 1..n after every step if and only if each committed row is stamped on the day it is labelled with |
| `CodeCounter.GivesUpOnlyWhenOvertaken` | src/bookings/bookings.service.ts:724-745 | with committed rows stamped on their label's day, a creator gives up only after at least five rows of the days it tried committed since it began |
| `CodeCounter.RunKeepsInv` | src/bookings/admin-bookings.service.ts:640-690 | the k-th row of a day to commit carries sequence k, and creators hold distinct uncommitted codes |
| `CodeCounter.LabelAheadOfStampStarves` | prisma/schema.prisma:959 | a row labelled for a new day but stamped in the old one makes a lone later creator fail all five attempts |
| `BookingCode.CodesDiffer` | src/bookings/booking-code.ts:63-69 | two codes are equal exactly for the same Bangkok day and position, past 999 too |
| `BookingCode.DatePartNamesDay` | src/bookings/booking-code.ts:30-36 | equal date parts exactly on the same Bangkok day |
| `BookingCode.AgreementExactly` | src/bookings/booking-code.ts:30-54 | the label of an instant agrees with its day range against every other instant if and only if its year is neither 0 to 99 nor 1900 to 1999 |
| `BookingCode.DayRangesTile` | src/bookings/booking-code.ts:45-54 | the ranges are the Bangkok days, half-open, equal or disjoint, without gaps |
| `BookingCode.DayRangeHoldsItsInstant` | src/bookings/booking-code.ts:45-54 | a range holds the instant it was computed for exactly outside the years Date.UTC moves |
| `BookingCode.MovedStart` | src/bookings/booking-code.ts:45-54 | in the years 0 to 99 a range starts in the year 1900 later, and is the range of that start |
| `EcmaDate.DateUtcOfFields` | src/bookings/booking-code.ts:45-51 | Date.UTC of a day's fields is its midnight, except for the years it moves |
| `EcmaDate.DayFromYearIsFormula` | src/bookings/booking-code.ts:25-29 | counting days year by year equals the closed formula of ECMA-262 section 21.4.1 |
| `EcmaDate.MonthIsInterval` | src/bookings/booking-window.ts:38-61 | the days from one first-of-month to the next are exactly that month |
| `BookingWindow.ResolveWindow` | src/bookings/booking-window.ts:38-61 | an accepted window keeps the bounds asked for and is never negative or over 366 days |
| `BookingWindow.DefaultIsBangkokMonth` | src/bookings/booking-window.ts:38-61 | the default window is the Bangkok month of now, instant by instant, and made of whole Bangkok days |
| `BookingWindow.DefaultBounds` | src/bookings/booking-window.ts:42-52 | the default runs from the midnight of the first of this month to that of the next, 28 to 31 days, so it is never too wide |
| `BookingWindow.DefaultHoldsNow` | src/bookings/booking-window.ts:38-61 | the default is never refused and holds now exactly outside the years Date.UTC moves |
| `AnnouncementSend.AcceptedAreAccounted` | src/announcements/announcements.service.ts:433-571 | in any interleaving, lost commits included, the messages LINE accepted number the accepted sends whose commit was lost, plus one when the row is SENT to somebody or an accepted send is about to commit: at most one unless a commit is lost |
| `AnnouncementSend.SentRowMatchesLine` | src/announcements/announcements.service.ts:433-571 | in any interleaving a SENT row equals in content and count the last message LINE accepted, after those that were lost; a DRAFT row with no accepted send about to commit has sent only those; ALL holds exactly when there is no department |
| `AnnouncementSend.RowSettles` | src/announcements/announcements.service.ts:326-341 | over any continuation a SENT row changes at most by its deletion and the stamp that comes with it, and a deleted row never changes |
| `AnnouncementSend.LockFreezesRow` | src/announcements/announcements.service.ts:359-400 | while a request holds the row, only its own commit changes it |
| `AnnouncementSend.RefusedSendChangesNothing` | src/announcements/announcements.service.ts:474-571 | over any run, a send that took the row and ended with any refusal leaves the row as it was when it took it, still DRAFT; LINE has accepted nothing meanwhile unless the refusal is the loss of the send's own commit |
| `AnnouncementSend.LateReplyIsTrue` | src/announcements/announcements.service.ts:326-341 | a PATCH that matched no row answers 404 exactly when it is deleted and 409 exactly when it is SENT |
| `AnnouncementSend.RunKeepsInv` | src/announcements/announcements.service.ts:433-571 | the invariant of the send protocol over any interleaving |
| `AnnouncementSend.ResendsReuseTheKeys` | src/announcements/announcements.service.ts:532-535 | as long as no PATCH is applied, every message LINE accepts carries the same content and the same seed of the retry keys, so a resend after a lost commit repeats the keys of the first |
| `AnnouncementSend.LostCommitsRepeatTheSend` | src/announcements/announcements.service.ts:562-571 | any number of commits can be lost in a row: LINE accepts the announcement that many times while the row stays DRAFT and ready |
| `AnnouncementSend.ResolveDepartment` | src/announcements/announcements.service.ts:697-727 | what is persisted: none exactly for ALL, otherwise an active department the actor may use, sent or stored |
| `IncidentStore.Store.Add` | src/incidents/incident-store.ts:29-58 | ring and hash after an add, as functions of both before |
| `IncidentStore.Store.EvictTail` | src/incidents/incident-store.ts:34-46 | at most 100 old entries leave the tail, with their details |
| `IncidentStore.Store.TrimToCap` | src/incidents/incident-store.ts:47-54 | the entries past the cap leave, with their details |
| `IncidentStore.Store.PurgeBefore` | src/incidents/incident-store.ts:60-85 | ring is the order-preserving filter, hash drops the removed ids, and the count is exact |
| `IncidentStore.Store.Rebuild` | src/incidents/incident-store.ts:76-81 | pushing back in chunks of 1000 gives the kept list |
| `IncidentStore.Store.List` | src/incidents/incident-store.ts:178-192 | a permutation of the unexpired entries, newest first |
| `IncidentStore.IdsDiffer` | src/incidents/incident-store.ts:159-162 | ids minted from different sequence numbers differ, whatever the status |
| `IncidentStore.AddLeavesPrefix` | src/incidents/incident-store.ts:29-58 | the new ring is a prefix of new-entry-then-old-ring within the cap; what left was too old or past the cap |
| `IncidentStore.AgreementAfterAdd` | src/incidents/incident-store.ts:47-54 | ring and hash still agree after an add exactly when the cap is positive or everything was evicted |
| `IncidentStore.PurgePartitions` | src/incidents/incident-store.ts:61-73 | purged and kept entries split the ring by age with nothing lost |
| `IncidentStore.PurgeKeepsAgreement` | src/incidents/incident-store.ts:60-85 | a purge keeps ring and hash in agreement |
| `IncidentStore.RunKeepsAgreement` | src/incidents/incident-store.ts:158-212 | over any run of mints, adds and purges with a positive cap: distinct ids, at most cap entries, the hash has exactly the ring's ids |
| `StormControl.NothingLost` | src/incidents/incident-recorder.service.ts:284-338 | over any run, records offered equal records sent singly plus suppressed counts sent plus counts still held |
| `StormControl.AtMostTwiceTheLimit` | src/incidents/incident-recorder.service.ts:284-313 | with a monotone clock any half-open minute admits at most twice the limit of one signature |
| `StormControl.Recorder.Admit` | src/incidents/incident-recorder.service.ts:284-313 | by the six joined fields, admits the first records of a window, counts the rest, and rolls over with a summary |
| `StormControl.Recorder.SweepSignatures` | src/incidents/incident-recorder.service.ts:327-338 | every signature whose window ended is dropped and summarised |
| `StormControl.Recorder.Persist` | src/incidents/incident-recorder.service.ts:234-248 | a record is sent exactly when it is admitted |
| `ThaiSanitizer.SanitizeShrinks` | src/common/sanitize-thai.util.ts:95-107 | a pass returns its input or something smaller by length, then mark inversions, then NBSPs; never longer; unchanged exactly when no rule applies |
| `ThaiSanitizer.SanitizeFully` | src/common/sanitize-thai.util.ts:95-107 | repeating the pass ends, at a string no rule applies to |
| `ThaiSanitizer.SettleSettles` | src/common/sanitize-thai.util.ts:103-106 | stripping, spaces, canonical order and trimming are finished after one pass |
| `ThaiSecondPass.OnePassIsFinalExactly` | src/common/sanitize-thai.util.ts:76-93 | for every string, a second pass changes nothing if and only if no mark is stuck in the input after its two folds: a scan of that string by class of character |
| `ThaiSecondPass.SpreadMarksNeedOnePass` | src/common/sanitize-thai.util.ts:95-107 | with nothing invisible, no PHINTHU, no two tones, vowel marks or SARA AM side by side, and no two swapped pairs in a row, one pass is final however many marks are misplaced |
| `ThaiSecondPass.CrowdsStick` | src/common/sanitize-thai.util.ts:83-91 | two tones before a vowel, a tone before two vowels, and SARA AM before two tones stick wherever they stand |
| `ThaiSanitizer.ZeroWidthBreaksIdempotence` | src/common/sanitize-thai.util.ts:103 | a zero-width space between two SARA E survives into a pair the first pass did not fold |
| `ThaiSanitizer.StackedTonesBreakIdempotence` | src/common/sanitize-thai.util.ts:83-91 | two tones before SARA I need two passes, which NFC does not replace |
| `Backfill.PlanChanges` | scripts/sanitize-thai-backfill.ts:128-174 | the loops compute the plan: each differing row is a change, or a collision with the other active holders of its final name |
| `Backfill.Buckets` | scripts/sanitize-thai-backfill.ts:141-151 | each bucket holds the active ids that will carry its name, in row order |
| `Backfill.SafeExactlyWithoutLanding` | scripts/sanitize-thai-backfill.ts:153-174 | for any sanitiser, every part of the plan in every order keeps active values unique exactly when no planned row lands on a value another active row holds now |
| `Backfill.IdempotentIsSafe` | scripts/sanitize-thai-backfill.ts:128-174 | with an idempotent sanitiser any part of the plan, in any order, keeps active values unique |
| `Backfill.WholePlanFinishes` | scripts/sanitize-thai-backfill.ts:170 | applying all changes in any order ends in one and the same table |
| `Backfill.ReplanIsEmpty` | scripts/sanitize-thai-backfill.ts:128-174 | planning again after that proposes nothing and reports the same collisions |
| `Backfill.ThaiPlanCanCollide` | scripts/sanitize-thai-backfill.ts:133-135 | with the sanitiser in use, a planned write can give two active rows one name |
| `Csv.RoundTrip` | src/common/csv.util.ts:25-29 | reading the document by RFC 4180 section 2 gives back the neutralised cells, numbers however they print, exactly when the list is non-empty and so is every line |
| `Csv.NoFormulaReadBack` | src/common/csv.util.ts:12-16 | no cell read back begins with a formula leader, and each is the original text behind at most one apostrophe |
| `Csv.FieldReadsBack` | src/common/csv.util.ts:18-23 | one printed cell is read back whole whatever quotes, commas, CR and LF it holds |
| `Csv.LineReadsBack` | src/common/csv.util.ts:25-29 | one printed line is read back cell by cell |
| `LikeEscape.ContainsPatternIsLiteral` | src/announcements/announcements.service.ts:757-759 | for LIKE and ILIKE, whatever characters count as the same: `%` + escaped term + `%` matches a text exactly when the term occurs in it literally |
| `LikeEscape.ContainsIsSubstring` | src/announcements/announcements.service.ts:757-759 | with LIKE, exactly when the term is a substring |
| `LikeEscape.EscapedPrefix` | src/announcements/announcements.service.ts:757-759 | an escaped term followed by any pattern matches exactly the texts that begin with the term and go on to match it |
| `LikeEscape.UnescapedUnderscoreOverMatches` | src/announcements/announcements.service.ts:743-745 | without escaping, a search for `_` matches texts that hold none |

## Left out

- The exclusion constraint and its triggers (`prisma/migrations`): the safety result is proved without them.
- Transaction races and deadlocks that PostgreSQL reports (`isTransactionRace`): in the interleaved model a transaction may fail at any step, but which ones PostgreSQL picks is not modelled.
- BookingRace.Insert: carries whatever code was counted; the race for the unique code is CodeCounter's subject.
- BookingRace.RowMove: the losers' update and the expiry sweep take their rows one at a time in any order, which allows more interleavings than the single statements do.
- BookingStatements.FindLosers: codes are compared character by character, as the C collation does.
- CodeCounter.ConsecutiveExactlyWhenLabelled: for counts taken in years Date.UTC does not move.
- Length limits, required fields, the cap on slots per request and the distinctness of named slots: checked by the DTO layer before these methods.
- Notifications, Flex cards, sockets and uploads: only the ids handed to the publisher are kept.
- AnnouncementSend.LostCommitsRepeatTheSend: how LINE absorbs a repeated retry key within 24 hours, and the split of the recipients into chunks with a key each, are LINE's and the client's.
- `LineService.multicast` is not part of this model: it returns any accepted count up to the number targeted.
- Creating and listing announcements, hard deletion of a department, and the audit rows.
- Redis expiry times, entries that do not parse, and the recorder's overflow queue and its flush.
- The truncation of an incident message to make room for its summary suffix.
- How JavaScript prints a number: a number cell comes as its printed text.
- LikeEscape.ContainsPatternIsLiteral: a case mapping that changes the number of characters is not modelled, and a pattern ending in a lone backslash, which PostgreSQL refuses, simply does not match.
- ThaiSanitizer.SanitizeShrinks: NFC is canonical ordering on the Thai, ASCII and zero-width alphabet; composition of other scripts is not modelled, nor are non-string values, which pass through.
- Dates outside the range ECMA-262 allows, and invalid dates.
- The detail, calendar, list and search reads, tab counts, amenities, feedback, canned replies and request metrics: flat queries with no state of their own.
- Sessions, passwords, CSRF and log redaction.
