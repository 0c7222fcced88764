// Any sequence of transactions, one at a time: what every reachable state keeps, and what that makes
// of a decision.
module BookingRuns {
  import opened Wrappers
  import opened BookingOverlap
  import opened BookingCode
  import opened BookingModel
  import opened BookingInvariant
  import opened BookingInsert

  datatype Txn =
    | Approve(id: Id, actor: Id, now: int)
    | Reject(id: Id, reason: string)
    | StaffCancel(id: Id, slotIds: Option<seq<Id>>, stamp: Stamp)
    | Withdraw(user: Id, id: Id, now: int)
    | SlotCancel(user: Id, id: Id, slot: Id, now: int, cutoff: int)
    | Submit(booking: NewBooking, now: int)
    | Direct(booking: NewBooking, env: DirectInput, actor: Id, now: int)
    | Expire(now: int)
    | Remind(now: int)

  ghost function Apply(db: Db, t: Txn): Db {
    match t
    case Approve(id, actor, now) => ApproveDb(db, id, actor, now)
    case Reject(id, reason) => RejectDb(db, id, reason)
    case StaffCancel(id, slotIds, st) => StaffCancelDb(db, id, slotIds, st)
    case Withdraw(user, id, now) => WithdrawDb(db, user, id, now)
    case SlotCancel(user, id, slot, now, cutoff) => SlotCancelDb(db, user, id, slot, now, cutoff)
    case Submit(b, now) => if Insertable(db, b) then SubmitDb(db, b, now) else db
    case Direct(b, env, actor, now) => if Insertable(db, b) then DirectDb(db, b, env, actor, now) else db
    case Expire(now) => ExpireDb(db, now)
    case Remind(now) => RemindDb(db, now)
  }

  // From empty tables.
  ghost function Run(txns: seq<Txn>): Db {
    if txns == [] then Db(map[], map[]) else Apply(Run(txns[..|txns| - 1]), txns[|txns| - 1])
  }

  lemma ApplyKeepsInv(db: Db, t: Txn)
    requires Inv(db)
    ensures Inv(Apply(db, t))
  {
    match t
    case Approve(id, actor, now) => ApproveKeepsInv(db, id, actor, now);
    case Reject(id, reason) => RejectKeepsInv(db, id, reason);
    case StaffCancel(id, slotIds, st) => StaffCancelKeepsInv(db, id, slotIds, st);
    case Withdraw(user, id, now) => WithdrawKeepsInv(db, user, id, now);
    case SlotCancel(user, id, slot, now, cutoff) => SlotCancelKeepsInv(db, user, id, slot, now, cutoff);
    case Submit(b, now) => if Insertable(db, b) { SubmitKeepsInv(db, b, now); }
    case Direct(b, env, actor, now) => if Insertable(db, b) { DirectKeepsInv(db, b, env, actor, now); }
    case Expire(now) => ExpireKeepsInv(db, now);
    case Remind(now) => RemindKeepsInv(db, now);
  }

  lemma {:induction false} RunKeepsInv(txns: seq<Txn>)
    ensures Inv(Run(txns))
  {
    if txns != [] {
      RunKeepsInv(txns[..|txns| - 1]);
      ApplyKeepsInv(Run(txns[..|txns| - 1]), txns[|txns| - 1]);
    }
  }

  // ---- What a transaction may do to a row ----

  // The state machine: PENDING may become anything, APPROVED only CANCELLED, the rest nothing.
  predicate Edge(p: Status, q: Status) {
    p == q || p == Pending || (p == Approved && q == Cancelled)
  }

  predicate RowMoves(a: Request, b: Request) {
    && b.venue == a.venue && b.code == a.code && b.createdAt == a.createdAt && b.lineUser == a.lineUser
    && Edge(a.status, b.status)
  }

  // A slot stays where it is; a cancelled one and a claimed reminder never change again.
  predicate SlotMoves(a: Slot, b: Slot) {
    && b.request == a.request && b.venue == a.venue && b.span == a.span
    && (a.isCancelled ==> b == a)
    && (a.reminderSentAt.Some? ==> b.reminderSentAt == a.reminderSentAt)
  }

  ghost predicate RowsMove(a: Requests, b: Requests) {
    forall r :: r in a ==> r in b && RowMoves(a[r], b[r])
  }

  ghost predicate SlotsMove(a: Slots, b: Slots) {
    forall s :: s in a ==> s in b && SlotMoves(a[s], b[s])
  }

  lemma CancelMoves(db: Db, id: Id, targets: set<Id>, st: Stamp)
    requires id in db.requests && (db.requests[id].status == Approved || db.requests[id].status == Pending)
    ensures RowsMove(db.requests, CancelSlots(db, id, targets, st).requests)
    ensures SlotsMove(db.slots, CancelSlots(db, id, targets, st).slots)
  {
  }

  // A row that joins while `losers` are rejected.
  lemma JoinMoves(requests: Requests, id: Id, q: Request, losers: set<Id>)
    requires id !in requests
    ensures var after := RejectAll(requests[id := q], losers);
      && RowsMove(requests, after) && after.Keys == requests.Keys + {id}
      && after[id].code == q.code && after[id].createdAt == q.createdAt
  {
  }

  lemma DirectMoves(db: Db, b: NewBooking, env: DirectInput, actor: Id, now: int)
    requires Insertable(db, b)
    ensures RowsMove(db.requests, DirectDb(db, b, env, actor, now).requests)
    ensures SlotsMove(db.slots, DirectDb(db, b, env, actor, now).slots)
  {
    if DirectOutcome(db, b, env, now).Done? {
      SpanSetNonEmpty(b.spans);
      InsertMoves(db, b);
      JoinMoves(db.requests, b.id, NewRequest(b, NextCode(db, now), now, Some(actor)), Losers(db, b.venue, SpanSet(b.spans), None));
    }
  }

  lemma InsertMoves(db: Db, b: NewBooking)
    requires Insertable(db, b)
    ensures SlotsMove(db.slots, db.slots + NewSlots(b))
  {
    forall s | s in db.slots ensures (db.slots + NewSlots(b))[s] == db.slots[s] {
      if s in NewSlots(b) { var i := NewSlotAt(b, s); }
    }
  }

  lemma ApproveMovesRows(db: Db, id: Id, actor: Id, now: int)
    ensures RowsMove(db.requests, ApproveDb(db, id, actor, now).requests)
    ensures SlotsMove(db.slots, ApproveDb(db, id, actor, now).slots)
  {
  }

  lemma WithdrawMoves(db: Db, user: Id, id: Id, now: int)
    ensures RowsMove(db.requests, WithdrawDb(db, user, id, now).requests)
    ensures SlotsMove(db.slots, WithdrawDb(db, user, id, now).slots)
  {
    if WithdrawOutcome(db, user, id).Done? {
      WithdrawIsCancelAll(db, user, id, now);
      CancelMoves(db, id, LiveSlots(db.slots, id), Stamp(now, user, LINE_USER_ROLE, None));
    }
  }

  lemma SubmitMoves(db: Db, b: NewBooking, now: int)
    requires Insertable(db, b)
    ensures RowsMove(db.requests, SubmitDb(db, b, now).requests)
    ensures SlotsMove(db.slots, SubmitDb(db, b, now).slots)
  {
    if SubmitOutcome(db, b, now).Done? { InsertMoves(db, b); }
  }

  lemma RemindMoves(db: Db, now: int)
    ensures SlotsMove(db.slots, RemindDb(db, now).slots)
  {
  }

  lemma ExpireMoves(db: Db, now: int)
    ensures RowsMove(db.requests, ExpireDb(db, now).requests)
  {
  }

  lemma ApplyMoves(db: Db, t: Txn)
    ensures RowsMove(db.requests, Apply(db, t).requests)
    ensures SlotsMove(db.slots, Apply(db, t).slots)
  {
    match t
    case Approve(id, actor, now) => ApproveMovesRows(db, id, actor, now);
    case Reject(id, reason) =>
    case StaffCancel(id, slotIds, st) =>
      if StaffCancelOutcome(db, id, slotIds).Done? { CancelMoves(db, id, Targets(db, id, slotIds), st); }
    case Withdraw(user, id, now) => WithdrawMoves(db, user, id, now);
    case SlotCancel(user, id, slot, now, cutoff) =>
      if SlotCancelOutcome(db, user, id, slot, cutoff).Done? {
        CancelMoves(db, id, {slot}, Stamp(now, user, LINE_USER_ROLE, None));
      }
    case Submit(b, now) => if Insertable(db, b) { SubmitMoves(db, b, now); }
    case Direct(b, env, actor, now) => if Insertable(db, b) { DirectMoves(db, b, env, actor, now); }
    case Expire(now) => ExpireMoves(db, now);
    case Remind(now) => RemindMoves(db, now);
  }

  // Whatever happened later, a row moved along the edges and a cancelled slot stayed as it was.
  lemma {:induction false} LaterMoves(txns: seq<Txn>, i: nat)
    requires i <= |txns|
    ensures RowsMove(Run(txns[..i]).requests, Run(txns).requests)
    ensures SlotsMove(Run(txns[..i]).slots, Run(txns).slots)
  {
    if i == |txns| {
      assert txns[..i] == txns;
    } else {
      var before := txns[..|txns| - 1];
      assert before[..i] == txns[..i];
      LaterMoves(before, i);
      ApplyMoves(Run(before), txns[|txns| - 1]);
      MovesCompose(Run(txns[..i]), Run(before), Run(txns));
    }
  }

  lemma MovesCompose(a: Db, b: Db, c: Db)
    requires RowsMove(a.requests, b.requests) && RowsMove(b.requests, c.requests)
    requires SlotsMove(a.slots, b.slots) && SlotsMove(b.slots, c.slots)
    ensures RowsMove(a.requests, c.requests) && SlotsMove(a.slots, c.slots)
  {
    forall r | r in a.requests ensures r in c.requests && RowMoves(a.requests[r], c.requests[r]) {
      assert RowMoves(a.requests[r], b.requests[r]) && RowMoves(b.requests[r], c.requests[r]);
    }
    forall s | s in a.slots ensures s in c.slots && SlotMoves(a.slots[s], c.slots[s]) {
      assert SlotMoves(a.slots[s], b.slots[s]) && SlotMoves(b.slots[s], c.slots[s]);
    }
  }

  lemma FinalStatusIsFinal(txns: seq<Txn>, i: nat, r: Id)
    requires i <= |txns| && r in Run(txns[..i]).requests
    ensures r in Run(txns).requests
    ensures var p, q := Run(txns[..i]).requests[r].status, Run(txns).requests[r].status;
      && (p == Rejected || p == Cancelled || p == Expired ==> q == p)
      && (p == Approved ==> q == Approved || q == Cancelled)
  {
    LaterMoves(txns, i);
    assert RowMoves(Run(txns[..i]).requests[r], Run(txns).requests[r]);
  }

  // ---- The state of any run ----

  ghost predicate Meet(slots: Slots, s: Id, t: Id)
    requires s in slots && t in slots
  {
    exists at :: Contains(slots[s].span, at) && Contains(slots[t].span, at)
  }

  // No two live slots of approved requests at one venue share an instant, and no live slot of a pending
  // request shares one with them.
  lemma NoDoubleBooking(txns: seq<Txn>, s: Id, t: Id)
    requires var db := Run(txns);
      s in db.slots && t in db.slots && s != t && db.slots[s].venue == db.slots[t].venue
    ensures var db := Run(txns);
      HasStatus(db, s, Approved) && (HasStatus(db, t, Approved) || HasStatus(db, t, Pending)) ==> !Meet(db.slots, s, t)
  {
    RunKeepsInv(txns);
    var db := Run(txns);
    assert SlotOk(db, s) && SlotOk(db, t) && PairOk(db, s, t);
    OverlapsIffSharedInstant(db.slots[s].span, db.slots[t].span);
  }

  // The request row is a true summary of its slots.
  lemma RequestSummarisesSlots(txns: seq<Txn>, r: Id)
    requires r in Run(txns).requests
    ensures var db := Run(txns);
      var q, live := db.requests[r], LiveSlots(db.slots, r);
      && (q.status == Cancelled <==> live == {})
      && (forall s :: s in live ==> q.firstStart <= db.slots[s].span.start && db.slots[s].span.end <= q.lastEnd)
      && (live != {} ==> exists s :: s in live && db.slots[s].span.start == q.firstStart)
      && (live != {} ==> exists s :: s in live && db.slots[s].span.end == q.lastEnd)
      && (q.status == Pending || q.status == Rejected || q.status == Expired ==>
            forall s :: s in db.slots && db.slots[s].request == r ==> s in live)
      && (forall s :: s in db.slots && db.slots[s].request == r ==> StampOk(db.slots[s]))
  {
    RunKeepsInv(txns);
    var db := Run(txns);
    assert RequestOk(db.requests[r], db.slots, r);
    forall s | s in db.slots ensures SlotOk(db, s) {}
    SpanSummary(db, r);
  }

  lemma SpanSummary(db: Db, r: Id)
    requires r in db.requests && RequestOk(db.requests[r], db.slots, r)
    ensures var q, live := db.requests[r], LiveSlots(db.slots, r);
      && (forall s :: s in live ==> q.firstStart <= db.slots[s].span.start && db.slots[s].span.end <= q.lastEnd)
      && (live != {} ==> exists s :: s in live && db.slots[s].span.start == q.firstStart)
      && (live != {} ==> exists s :: s in live && db.slots[s].span.end == q.lastEnd)
  {
    var spans, live := LiveSpans(db.slots, r), LiveSlots(db.slots, r);
    forall s | s in live ensures db.slots[s].span in spans {}
    if live != {} {
      var a :| a in spans && a.start == MinStart(spans);
      var s :| s in live && db.slots[s].span == a;
      var b :| b in spans && b.end == MaxEnd(spans);
      var t :| t in live && db.slots[t].span == b;
    }
  }

  // ---- approve never finds the room taken ----

  lemma ApproveOfPendingSucceeds(txns: seq<Txn>, id: Id)
    requires id in Run(txns).requests && Run(txns).requests[id].status == Pending
    ensures var db := Run(txns);
      ApproveOutcome(db, id) == Done(id, Losers(db, db.requests[id].venue, LiveSpans(db.slots, id), Some(id)))
  {
    RunKeepsInv(txns);
    PendingIsClear(Run(txns), id);
    assert RequestOk(Run(txns).requests[id], Run(txns).slots, id);
  }

  lemma PendingIsClear(db: Db, id: Id)
    requires SlotsOk(db) && PairsOk(db) && id in db.requests && db.requests[id].status == Pending
    ensures Clashes(db, db.requests[id].venue, LiveSpans(db.slots, id), Some(id)) == {}
  {
    forall t | t in db.slots ensures !IsClash(db, t, db.requests[id].venue, LiveSpans(db.slots, id), Some(id)) {
      forall s | s in LiveSlots(db.slots, id) && HasStatus(db, t, Approved) && db.slots[t].venue == db.requests[id].venue
        ensures !Overlaps(db.slots[t].span, db.slots[s].span) {
        assert SlotOk(db, s) && PairOk(db, t, s);
      }
    }
  }

  // The advice of a saved request is what approving it then does.
  lemma ConflictsPredictApprove(txns: seq<Txn>, id: Id)
    requires id in Run(txns).requests && Run(txns).requests[id].status == Pending
    ensures var db := Run(txns);
      !ConflictsOf(db, id).0 && ApproveOutcome(db, id) == Done(id, ConflictsOf(db, id).1)
  {
    ApproveOfPendingSucceeds(txns, id);
    RunKeepsInv(txns);
    PendingIsClear(Run(txns), id);
    assert RequestOk(Run(txns).requests[id], Run(txns).slots, id);
  }

  // ---- Who a decision rejects ----

  // Some live slot of `r` shares an instant with some live slot of `id`.
  ghost predicate Compete(slots: Slots, r: Id, id: Id) {
    exists s, t :: s in LiveSlots(slots, r) && t in LiveSlots(slots, id) && Meet(slots, s, t)
  }

  lemma LosersCompete(db: Db, id: Id, r: Id)
    requires SlotsOk(db) && id in db.requests && r in db.requests
    ensures SomeSlotHits(db.slots, r, LiveSpans(db.slots, id)) <==> Compete(db.slots, r, id)
  {
    if SomeSlotHits(db.slots, r, LiveSpans(db.slots, id)) {
      var s :| s in db.slots && IsLiveOf(db.slots, s, r) && Hits(db.slots[s].span, LiveSpans(db.slots, id));
      var x :| x in LiveSpans(db.slots, id) && Overlaps(db.slots[s].span, x);
      var t :| t in LiveSlots(db.slots, id) && db.slots[t].span == x;
      MeetIsOverlap(db, s, t);
    }
    if Compete(db.slots, r, id) {
      var s, t :| s in LiveSlots(db.slots, r) && t in LiveSlots(db.slots, id) && Meet(db.slots, s, t);
      MeetIsOverlap(db, s, t);
      LiveSpanOf(db.slots, t, id);
      assert Hits(db.slots[s].span, LiveSpans(db.slots, id));
    }
  }

  lemma MeetIsOverlap(db: Db, s: Id, t: Id)
    requires SlotsOk(db) && s in db.slots && t in db.slots
    ensures Meet(db.slots, s, t) <==> Overlaps(db.slots[s].span, db.slots[t].span)
  {
    assert SlotOk(db, s) && SlotOk(db, t);
    OverlapsIffSharedInstant(db.slots[s].span, db.slots[t].span);
  }

  // A pending request at the venue that competes with `id`.
  ghost predicate LosesTo(requests: Requests, slots: Slots, r: Id, id: Id, venue: Id) {
    && r in requests && r != id && requests[r].venue == venue && requests[r].status == Pending && Compete(slots, r, id)
  }

  // An approval touches the winner and exactly the pending requests that compete with it; no slot.
  lemma ApproveChangesExactly(db: Db, id: Id, actor: Id, now: int)
    requires SlotsOk(db) && ApproveOutcome(db, id).Done?
    ensures var losers, after := ApproveOutcome(db, id).autoRejected, ApproveDb(db, id, actor, now);
      && (forall r :: r in losers <==> LosesTo(db.requests, db.slots, r, id, db.requests[id].venue))
      && after.slots == db.slots && after.requests.Keys == db.requests.Keys
      && (forall r :: r in losers ==> after.requests[r] == RejectedRow(db.requests[r], AutoRejectedReason))
      && (forall r :: r in db.requests ==> (after.requests[r] != db.requests[r] <==> r in {id} + losers))
      && after.requests[id] == ApprovedRow(db.requests[id], actor, now)
  {
    var losers := ApproveOutcome(db, id).autoRejected;
    forall r ensures r in losers <==> LosesTo(db.requests, db.slots, r, id, db.requests[id].venue) {
      if r in db.requests { LosersCompete(db, id, r); }
    }
    ApproveWrites(db, id, actor, now);
  }

  lemma ApproveWrites(db: Db, id: Id, actor: Id, now: int)
    requires ApproveOutcome(db, id).Done?
    ensures var losers, after := ApproveOutcome(db, id).autoRejected, ApproveDb(db, id, actor, now);
      && after.slots == db.slots && after.requests.Keys == db.requests.Keys
      && (forall r :: r in losers ==> after.requests[r] == RejectedRow(db.requests[r], AutoRejectedReason))
      && (forall r :: r in db.requests ==> (after.requests[r] != db.requests[r] <==> r in {id} + losers))
      && after.requests[id] == ApprovedRow(db.requests[id], actor, now)
  {
  }

  // The same for a staff booking, whose slots are the new ones.
  lemma DirectChangesExactly(db: Db, b: NewBooking, env: DirectInput, actor: Id, now: int)
    requires SlotsOk(db) && Insertable(db, b) && DirectOutcome(db, b, env, now).Done?
    ensures var losers, after := DirectOutcome(db, b, env, now).autoRejected, DirectDb(db, b, env, actor, now);
      && b.id in after.requests && after.requests[b.id].status == Approved
      && after.slots == db.slots + NewSlots(b) && LiveSlots(after.slots, b.id) == NewSlots(b).Keys
      && (forall r :: r in losers <==> LosesTo(db.requests, after.slots, r, b.id, b.venue))
      && after.requests.Keys == db.requests.Keys + {b.id}
      && (forall r :: r in losers ==> after.requests[r] == RejectedRow(db.requests[r], AutoRejectedReason))
      && (forall r :: r in db.requests ==> (after.requests[r] != db.requests[r] <==> r in losers))
  {
    NewLiveSlots(db, b);
    DirectLosers(db, b, env, now);
    DirectWrites(db, b, env, actor, now);
  }

  lemma DirectLosers(db: Db, b: NewBooking, env: DirectInput, now: int)
    requires SlotsOk(db) && Insertable(db, b) && DirectOutcome(db, b, env, now).Done?
    ensures forall r :: r in DirectOutcome(db, b, env, now).autoRejected <==>
      LosesTo(db.requests, db.slots + NewSlots(b), r, b.id, b.venue)
  {
    DirectIsSubmitThenApprove(db, b, env, "", now);
    InsertKeepsSlots(db, b, NextCode(db, now), now);
    InsertedExtends(db, b, NextCode(db, now), now);
    ExtendedLosers(db, b, Inserted(db, b, NextCode(db, now), now));
  }

  lemma ExtendedLosers(db: Db, b: NewBooking, m: Db)
    requires Insertable(db, b) && SlotsOk(m) && Extends(db, b, m) && ApproveOutcome(m, b.id).Done?
    ensures forall r :: r in ApproveOutcome(m, b.id).autoRejected <==> LosesTo(db.requests, m.slots, r, b.id, b.venue)
  {
    ApproveChangesExactly(m, b.id, "", 0);
    forall r ensures LosesTo(m.requests, m.slots, r, b.id, b.venue) <==> LosesTo(db.requests, m.slots, r, b.id, b.venue) {}
  }

  lemma DirectWrites(db: Db, b: NewBooking, env: DirectInput, actor: Id, now: int)
    requires Insertable(db, b) && DirectOutcome(db, b, env, now).Done?
    ensures var losers, after := DirectOutcome(db, b, env, now).autoRejected, DirectDb(db, b, env, actor, now);
      && b.id in after.requests && after.requests[b.id].status == Approved
      && after.slots == db.slots + NewSlots(b)
      && after.requests.Keys == db.requests.Keys + {b.id}
      && (forall r :: r in losers ==> after.requests[r] == RejectedRow(db.requests[r], AutoRejectedReason))
      && (forall r :: r in db.requests ==> (after.requests[r] != db.requests[r] <==> r in losers))
  {
    SpanSetNonEmpty(b.spans);
    RejectAllWrites(db.requests, b.id, NewRequest(b, NextCode(db, now), now, Some(actor)), Losers(db, b.venue, SpanSet(b.spans), None));
  }

  lemma RejectAllWrites(requests: Requests, id: Id, q: Request, losers: set<Id>)
    requires id !in requests && (forall r :: r in losers ==> r in requests && requests[r].status == Pending)
    ensures var after := RejectAll(requests[id := q], losers);
      && after.Keys == requests.Keys + {id} && after[id] == q
      && (forall r :: r in losers ==> after[r] == RejectedRow(requests[r], AutoRejectedReason))
      && (forall r :: r in requests ==> (after[r] != requests[r] <==> r in losers))
  {
  }

  // ---- Codes never collide when transactions run alone ----

  predicate CodeOk(requests: Requests, q: Request) {
    !TwoDigitYear(q.createdAt) && q.code.day == LocalDay(q.createdAt) && q.code.count < |OnDay(requests, q.createdAt)|
  }

  predicate CodesOk(requests: Requests) {
    forall r :: r in requests ==> CodeOk(requests, requests[r])
  }

  // The row's default `createdAt` falls on the day its code names.
  predicate Labelled(q: Request) {
    !TwoDigitYear(q.createdAt) && q.code.day == LocalDay(q.createdAt)
  }

  predicate AllLabelled(requests: Requests) {
    forall r :: r in requests ==> Labelled(requests[r])
  }

  lemma SubsetCard(a: set<Id>, b: set<Id>)
    requires a <= b
    ensures |a| <= |b|
    ensures a != b ==> |a| < |b|
  {
    assert b == a + (b - a);
  }

  lemma SameDayRows(requests: Requests, a: int, b: int)
    requires !TwoDigitYear(a) && !TwoDigitYear(b) && LocalDay(a) == LocalDay(b)
    ensures OnDay(requests, a) == OnDay(requests, b)
  {
    DatePartNamesDay(a, b);
    LabelAgreesWithRange(a, b);
  }

  lemma NextCodeIsFree(db: Db, now: int)
    requires CodesOk(db.requests) && !TwoDigitYear(now)
    ensures !CodeTaken(db, NextCode(db, now))
  {
    forall r | r in db.requests ensures db.requests[r].code != NextCode(db, now) {
      var q := db.requests[r];
      assert CodeOk(db.requests, q);
      if LocalDay(q.createdAt) == LocalDay(now) { SameDayRows(db.requests, q.createdAt, now); }
    }
  }

  // The same of the strings the unique index compares.
  lemma TakenAsString(db: Db, now: int)
    ensures CodeTaken(db, NextCode(db, now)) <==>
      exists r :: r in db.requests && CodeString(db.requests[r].code) == FormatCode(now, |OnDay(db.requests, now)|)
  {
    CodeStringIs(now, |OnDay(db.requests, now)|);
    forall r | r in db.requests && CodeString(db.requests[r].code) == FormatCode(now, |OnDay(db.requests, now)|)
      ensures db.requests[r].code == NextCode(db, now) {
      CodeStringInjective(db.requests[r].code, NextCode(db, now));
    }
  }

  // No code and no stamp changes; rows may join.
  lemma CodesSurvive(a: Requests, b: Requests)
    requires CodesOk(a) && RowsMove(a, b)
    ensures forall r :: r in a ==> CodeOk(b, b[r])
  {
    forall r | r in a ensures CodeOk(b, b[r]) {
      assert CodeOk(a, a[r]) && RowMoves(a[r], b[r]);
      forall x | x in OnDay(a, a[r].createdAt) ensures x in OnDay(b, a[r].createdAt) {
        assert RowMoves(a[x], b[x]);
      }
      SubsetCard(OnDay(a, a[r].createdAt), OnDay(b, a[r].createdAt));
    }
  }

  lemma NewCodeOk(a: Requests, b: Requests, id: Id, now: int)
    requires RowsMove(a, b) && id !in a && id in b && !TwoDigitYear(now) && Labelled(b[id])
    requires b[id].code == Code(LocalDay(now), |OnDay(a, now)|)
    ensures CodeOk(b, b[id])
  {
    var at := b[id].createdAt;
    SameDayRows(a, at, now);
    SameDayRows(b, at, now);
    OneMoreOnDay(a, b, id);
  }

  lemma OneMoreOnDay(a: Requests, b: Requests, id: Id)
    requires RowsMove(a, b) && id !in a && id in b && !TwoDigitYear(b[id].createdAt)
    ensures |OnDay(a, b[id].createdAt)| < |OnDay(b, b[id].createdAt)|
  {
    var at := b[id].createdAt;
    forall x | x in OnDay(a, at) ensures x in OnDay(b, at) {
      assert RowMoves(a[x], b[x]);
    }
    DayRangeHoldsItsInstant(at);
    assert id in OnDay(b, at) && id !in OnDay(a, at);
    SubsetCard(OnDay(a, at), OnDay(b, at));
  }

  lemma OthersAddNone(db: Db, t: Txn)
    requires !t.Submit? && !t.Direct?
    ensures Apply(db, t).requests.Keys == db.requests.Keys
  {
  }

  // Every creation counts in a year Date.UTC does not move.
  predicate OrdinaryYears(txns: seq<Txn>) {
    forall i :: 0 <= i < |txns| && (txns[i].Submit? || txns[i].Direct?) ==> !TwoDigitYear(txns[i].now)
  }

  lemma LabelsWere(a: Requests, b: Requests)
    requires RowsMove(a, b) && AllLabelled(b)
    ensures AllLabelled(a)
  {
    forall r | r in a ensures Labelled(a[r]) { assert RowMoves(a[r], b[r]) && Labelled(b[r]); }
  }

  // At most one row joins, and it carries the code that was counted.
  lemma JoinKeepsCodes(a: Requests, b: Requests, id: Id, now: int)
    requires CodesOk(a) && RowsMove(a, b) && AllLabelled(b) && b.Keys <= a.Keys + {id}
    requires id in b && id !in a ==> !TwoDigitYear(now) && b[id].code == Code(LocalDay(now), |OnDay(a, now)|)
    ensures CodesOk(b)
  {
    CodesSurvive(a, b);
    if id in b && id !in a { NewCodeOk(a, b, id, now); }
  }

  lemma SubmitKeepsCodes(db: Db, b: NewBooking, now: int)
    requires Insertable(db, b) && CodesOk(db.requests) && AllLabelled(SubmitDb(db, b, now).requests) && !TwoDigitYear(now)
    ensures CodesOk(SubmitDb(db, b, now).requests)
  {
    SubmitMoves(db, b, now);
    JoinKeepsCodes(db.requests, SubmitDb(db, b, now).requests, b.id, now);
  }

  lemma DirectJoins(db: Db, b: NewBooking, env: DirectInput, actor: Id, now: int)
    requires Insertable(db, b) && DirectOutcome(db, b, env, now).Done?
    ensures SpanSet(b.spans) != {}
    ensures DirectDb(db, b, env, actor, now).requests
         == RejectAll(db.requests[b.id := NewRequest(b, NextCode(db, now), now, Some(actor))],
                      Losers(db, b.venue, SpanSet(b.spans), None))
  {
    SpanSetNonEmpty(b.spans);
  }

  lemma DirectKeepsCodes(db: Db, b: NewBooking, env: DirectInput, actor: Id, now: int)
    requires Insertable(db, b) && CodesOk(db.requests) && !TwoDigitYear(now)
    requires AllLabelled(DirectDb(db, b, env, actor, now).requests)
    ensures CodesOk(DirectDb(db, b, env, actor, now).requests)
  {
    if DirectOutcome(db, b, env, now).Done? {
      DirectJoins(db, b, env, actor, now);
      JoinRejecting(db.requests, b.id, NewRequest(b, NextCode(db, now), now, Some(actor)), Losers(db, b.venue, SpanSet(b.spans), None), now);
    }
  }

  lemma JoinRejecting(requests: Requests, id: Id, q: Request, losers: set<Id>, now: int)
    requires CodesOk(requests) && id !in requests && !TwoDigitYear(now) && q.code == Code(LocalDay(now), |OnDay(requests, now)|)
    requires AllLabelled(RejectAll(requests[id := q], losers))
    ensures CodesOk(RejectAll(requests[id := q], losers))
  {
    JoinMoves(requests, id, q, losers);
    JoinKeepsCodes(requests, RejectAll(requests[id := q], losers), id, now);
  }

  lemma OthersKeepCodes(db: Db, t: Txn)
    requires CodesOk(db.requests) && AllLabelled(Apply(db, t).requests) && !t.Submit? && !t.Direct?
    ensures CodesOk(Apply(db, t).requests)
  {
    ApplyMoves(db, t);
    OthersAddNone(db, t);
    CodesSurvive(db.requests, Apply(db, t).requests);
  }

  lemma CreationKeepsCodes(db: Db, t: Txn, after: Db)
    requires CodesOk(db.requests) && AllLabelled(after.requests) && (t.Submit? || t.Direct?) && !TwoDigitYear(t.now)
    requires if !Insertable(db, t.booking) then after == db
      else if t.Submit? then after == SubmitDb(db, t.booking, t.now)
      else after == DirectDb(db, t.booking, t.env, t.actor, t.now)
    ensures CodesOk(after.requests)
  {
    if Insertable(db, t.booking) {
      if t.Submit? { SubmitKeepsCodes(db, t.booking, t.now); } else { DirectKeepsCodes(db, t.booking, t.env, t.actor, t.now); }
    }
  }

  lemma StepKeepsCodes(db: Db, t: Txn, after: Db)
    requires CodesOk(db.requests) && AllLabelled(after.requests) && after == Apply(db, t)
    requires t.Submit? || t.Direct? ==> !TwoDigitYear(t.now)
    ensures CodesOk(after.requests)
  {
    if t.Submit? || t.Direct? {
      CreationKeepsCodes(db, t, after);
    } else {
      OthersKeepCodes(db, t);
    }
  }

  // Each code is its day's, at a position below the day's count, exactly when every row is stamped on
  // the day it is labelled with.
  lemma {:induction false} RunKeepsCodes(txns: seq<Txn>)
    requires OrdinaryYears(txns)
    ensures CodesOk(Run(txns).requests) <==> AllLabelled(Run(txns).requests)
  {
    if CodesOk(Run(txns).requests) {
      forall r | r in Run(txns).requests ensures Labelled(Run(txns).requests[r]) {
        assert CodeOk(Run(txns).requests, Run(txns).requests[r]);
      }
    }
    if txns != [] && AllLabelled(Run(txns).requests) {
      var before, t := txns[..|txns| - 1], txns[|txns| - 1];
      ApplyMoves(Run(before), t);
      LabelsWere(Run(before).requests, Run(txns).requests);
      RunKeepsCodes(before);
      StepKeepsCodes(Run(before), t, Run(txns));
    }
  }

  // ---- The preflight tells the truth ----

  lemma PreflightPredictsDirect(txns: seq<Txn>, b: NewBooking, env: DirectInput, now: int)
    requires OrdinaryYears(txns) && AllLabelled(Run(txns).requests) && !TwoDigitYear(now) && |b.spans| > 0
    requires env.venueActive && env.departmentActive && (b.lineUser.Some? ==> env.lineUserAllowed)
    ensures var db := Run(txns);
      var (clashes, losers) := ConflictPicture(db, b.venue, SpanSet(b.spans), None);
      DirectOutcome(db, b, env, now) == if clashes > 0 then Refused(SlotTaken) else Done(b.id, losers)
  {
    SpanSetNonEmpty(b.spans);
    RunKeepsCodes(txns);
    NextCodeIsFree(Run(txns), now);
  }

  // ---- Reminders ----

  // How many sweeps of the run claimed slot `s`.
  ghost function Claims(txns: seq<Txn>, s: Id): nat {
    if txns == [] then 0
    else
      var before, t := txns[..|txns| - 1], txns[|txns| - 1];
      Claims(before, s) + if t.Remind? && s in ReminderIds(Run(before), t.now) then 1 else 0
  }

  lemma StaysReminded(db: Db, t: Txn, s: Id)
    requires s in db.slots && !(t.Remind? && s in ReminderIds(db, t.now))
    ensures s in Apply(db, t).slots && Apply(db, t).slots[s].reminderSentAt == db.slots[s].reminderSentAt
  {
    ApplyMoves(db, t);
    match t
    case Submit(b, now) => if Insertable(db, b) { InsertMoves(db, b); KeepsOld(db, b, s); }
    case Direct(b, env, actor, now) => if Insertable(db, b) { KeepsOld(db, b, s); }
    case _ =>
  }

  lemma KeepsOld(db: Db, b: NewBooking, s: Id)
    requires Insertable(db, b) && s in db.slots
    ensures (db.slots + NewSlots(b))[s] == db.slots[s]
  {
    if s in NewSlots(b) { var i := NewSlotAt(b, s); }
  }

  lemma BornUnreminded(db: Db, t: Txn, s: Id)
    requires s !in db.slots && s in Apply(db, t).slots
    ensures Apply(db, t).slots[s].reminderSentAt == None && !t.Remind?
  {
    match t
    case Submit(b, now) => if Insertable(db, b) { var i := NewSlotAt(b, s); }
    case Direct(b, env, actor, now) => if Insertable(db, b) { var i := NewSlotAt(b, s); }
    case _ =>
  }

  // Over any run, with sweeps at any instants, a slot is claimed at most once, and exactly when its row
  // says so.
  lemma {:induction false} RemindedAtMostOnce(txns: seq<Txn>, s: Id)
    ensures Claims(txns, s) <= 1
    ensures Claims(txns, s) == 1 <==> s in Run(txns).slots && Run(txns).slots[s].reminderSentAt.Some?
  {
    if txns != [] {
      var before, t := txns[..|txns| - 1], txns[|txns| - 1];
      RemindedAtMostOnce(before, s);
      var db := Run(before);
      if s in db.slots {
        if !(t.Remind? && s in ReminderIds(db, t.now)) { StaysReminded(db, t, s); }
      } else if s in Run(txns).slots {
        BornUnreminded(db, t, s);
      }
    }
  }

  // ---- Expiry and withdrawal over whole runs ----

  // How many sweeps of the run took request `r`.
  ghost function Expirations(txns: seq<Txn>, r: Id): nat {
    if txns == [] then 0
    else
      var before, t := txns[..|txns| - 1], txns[|txns| - 1];
      Expirations(before, r) + if t.Expire? && r in OverdueIds(Run(before), t.now) then 1 else 0
  }

  predicate IsExpired(requests: Requests, r: Id) {
    r in requests && requests[r].status == Expired
  }

  lemma CancelNotExpired(db: Db, id: Id, targets: set<Id>, st: Stamp, r: Id)
    requires id in db.requests && db.requests[id].status != Expired
    ensures IsExpired(CancelSlots(db, id, targets, st).requests, r) ==> IsExpired(db.requests, r)
  {
  }

  lemma JoinNotExpired(requests: Requests, id: Id, q: Request, losers: set<Id>, r: Id)
    requires id !in requests && q.status != Expired
    ensures IsExpired(RejectAll(requests[id := q], losers), r) ==> IsExpired(requests, r)
  {
  }

  lemma DirectNotExpired(db: Db, b: NewBooking, env: DirectInput, actor: Id, now: int, r: Id)
    requires Insertable(db, b)
    ensures IsExpired(DirectDb(db, b, env, actor, now).requests, r) ==> IsExpired(db.requests, r)
  {
    if DirectOutcome(db, b, env, now).Done? {
      DirectJoins(db, b, env, actor, now);
      JoinNotExpired(db.requests, b.id, NewRequest(b, NextCode(db, now), now, Some(actor)), Losers(db, b.venue, SpanSet(b.spans), None), r);
    }
  }

  lemma SubmitNotExpired(db: Db, b: NewBooking, now: int, r: Id)
    requires Insertable(db, b)
    ensures IsExpired(SubmitDb(db, b, now).requests, r) ==> IsExpired(db.requests, r)
  {
  }

  lemma SimpleNotExpired(db: Db, t: Txn, r: Id)
    requires t.Approve? || t.Reject? || t.Withdraw? || t.Remind?
    ensures IsExpired(Apply(db, t).requests, r) ==> IsExpired(db.requests, r)
  {
  }

  lemma OnlySweepsExpire(db: Db, t: Txn, r: Id)
    requires !t.Expire?
    ensures IsExpired(Apply(db, t).requests, r) ==> IsExpired(db.requests, r)
  {
    match t
    case StaffCancel(id, slotIds, st) =>
      if StaffCancelOutcome(db, id, slotIds).Done? { CancelNotExpired(db, id, Targets(db, id, slotIds), st, r); }
    case SlotCancel(user, id, slot, now, cutoff) =>
      if SlotCancelOutcome(db, user, id, slot, cutoff).Done? {
        CancelNotExpired(db, id, {slot}, Stamp(now, user, LINE_USER_ROLE, None), r);
      }
    case Submit(b, now) => if Insertable(db, b) { SubmitNotExpired(db, b, now, r); }
    case Direct(b, env, actor, now) => if Insertable(db, b) { DirectNotExpired(db, b, env, actor, now, r); }
    case _ => SimpleNotExpired(db, t, r);
  }

  lemma SweepExpires(db: Db, now: int, r: Id)
    ensures IsExpired(ExpireDb(db, now).requests, r) <==> IsExpired(db.requests, r) || r in OverdueIds(db, now)
  {
  }

  // A request is EXPIRED exactly when one sweep of the run took it while it was PENDING and overdue, and
  // no request is taken twice, whenever the sweeps ran.
  lemma {:induction false} ExpiredByOneSweep(txns: seq<Txn>, r: Id)
    ensures Expirations(txns, r) <= 1
    ensures Expirations(txns, r) == 1 <==> IsExpired(Run(txns).requests, r)
  {
    if txns != [] {
      var before, t := txns[..|txns| - 1], txns[|txns| - 1];
      ExpiredByOneSweep(before, r);
      var db := Run(before);
      if t.Expire? {
        SweepExpires(db, t.now, r);
      } else {
        OnlySweepsExpire(db, t, r);
        if IsExpired(db.requests, r) { StaysExpired(db, t, r); }
      }
    }
  }

  lemma StaysExpired(db: Db, t: Txn, r: Id)
    requires IsExpired(db.requests, r)
    ensures IsExpired(Apply(db, t).requests, r)
  {
    ApplyMoves(db, t);
    assert RowMoves(db.requests[r], Apply(db, t).requests[r]);
  }

  // How many withdrawals of the run succeeded on request `r`.
  ghost function Withdrawals(txns: seq<Txn>, r: Id): nat {
    if txns == [] then 0
    else
      var before, t := txns[..|txns| - 1], txns[|txns| - 1];
      Withdrawals(before, r) + if t.Withdraw? && t.id == r && WithdrawOutcome(Run(before), t.user, r).Done? then 1 else 0
  }

  // At most one withdrawal of a request succeeds, and from then on it is CANCELLED with nothing live.
  lemma {:induction false} WithdrawnOnce(txns: seq<Txn>, r: Id)
    ensures Withdrawals(txns, r) <= 1
    ensures Withdrawals(txns, r) == 1 ==>
      r in Run(txns).requests && Run(txns).requests[r].status == Cancelled && LiveSlots(Run(txns).slots, r) == {}
  {
    if txns != [] {
      var before, t := txns[..|txns| - 1], txns[|txns| - 1];
      WithdrawnOnce(before, r);
      var db := Run(before);
      if Withdrawals(before, r) == 1 {
        ApplyMoves(db, t);
        assert RowMoves(db.requests[r], Run(txns).requests[r]);
      } else if t.Withdraw? && t.id == r && WithdrawOutcome(db, t.user, r).Done? {
        WithdrawIsCancelAll(db, t.user, r, t.now);
      }
      RunKeepsInv(txns);
      if r in Run(txns).requests { assert RequestOk(Run(txns).requests[r], Run(txns).slots, r); }
    }
  }
}
