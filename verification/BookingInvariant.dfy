// What every transaction keeps when it runs alone, over any sequence of transactions.
module BookingInvariant {
  import opened Wrappers
  import opened BookingOverlap
  import opened BookingModel

  // ---- The invariant ----

  // A cancelled slot carries its time, actor and role together; a live one carries none of them.
  predicate StampOk(s: Slot) {
    && (s.isCancelled <==> s.cancelledAt.Some?)
    && (s.isCancelled <==> s.cancelledById.Some?)
    && (s.isCancelled <==> s.cancelledByRole.Some?)
  }

  ghost predicate SlotOk(db: Db, s: Id)
    requires s in db.slots
  {
    var slot := db.slots[s];
    slot.request in db.requests && slot.venue == db.requests[slot.request].venue && NonEmpty(slot.span) && StampOk(slot)
  }

  ghost predicate HasStatus(db: Db, s: Id, status: Status)
    requires s in db.slots
  {
    && !db.slots[s].isCancelled
    && db.slots[s].request in db.requests && db.requests[db.slots[s].request].status == status
  }

  // Slots of one request never overlap; a live approved slot overlaps no live approved or pending slot
  // at its venue.
  ghost predicate PairOk(db: Db, s: Id, t: Id)
    requires s in db.slots && t in db.slots
  {
    && (db.slots[s].request == db.slots[t].request ==> !Overlaps(db.slots[s].span, db.slots[t].span))
    && (db.slots[s].venue == db.slots[t].venue && HasStatus(db, s, Approved)
        && (HasStatus(db, t, Approved) || HasStatus(db, t, Pending)) ==>
          !Overlaps(db.slots[s].span, db.slots[t].span))
  }

  // A request is CANCELLED exactly when no slot of it is live; otherwise its span is that of its live
  // slots. Only an APPROVED request can have lost some.
  ghost predicate RequestOk(q: Request, slots: Slots, r: Id) {
    && (q.status == Cancelled <==> LiveSlots(slots, r) == {})
    && (LiveSlots(slots, r) != {} ==> SpanOk(q, LiveSpans(slots, r)))
    && (q.status == Pending || q.status == Rejected || q.status == Expired ==> AllLive(slots, r))
  }

  ghost predicate SpanOk(q: Request, spans: set<Span>) {
    spans != {} && q.firstStart == MinStart(spans) && q.lastEnd == MaxEnd(spans)
  }

  ghost predicate AllLive(slots: Slots, r: Id) {
    forall s :: s in slots && slots[s].request == r ==> !slots[s].isCancelled
  }

  ghost predicate SlotsOk(db: Db) {
    forall s :: s in db.slots ==> SlotOk(db, s)
  }

  ghost predicate PairsOk(db: Db) {
    forall s, t :: s in db.slots && t in db.slots && s != t ==> PairOk(db, s, t)
  }

  ghost predicate RequestsOk(db: Db) {
    forall r :: r in db.requests ==> RequestOk(db.requests[r], db.slots, r)
  }

  ghost predicate Inv(db: Db) {
    SlotsOk(db) && PairsOk(db) && RequestsOk(db)
  }

  // ---- Writes that change only request rows ----

  // Venue and span of every request stay; a status only leaves PENDING, and not to CANCELLED.
  ghost predicate StatusesMove(a: Requests, b: Requests) {
    && a.Keys == b.Keys
    && forall r :: r in a ==> MovesOn(a[r], b[r])
  }

  ghost predicate MovesOn(a: Request, b: Request) {
    && b.venue == a.venue && b.firstStart == a.firstStart && b.lastEnd == a.lastEnd
    && (b.status == a.status || (a.status == Pending && (b.status == Approved || b.status == Rejected || b.status == Expired)))
  }

  // A slot of a request that newly became APPROVED must be clear of what it competes with.
  ghost predicate NewlyApprovedClear(db: Db, rs: Requests) {
    forall s, t :: s in db.slots && t in db.slots && s != t ==> NewPairClear(db, Db(rs, db.slots), s, t)
  }

  ghost predicate NewPairClear(a: Db, b: Db, s: Id, t: Id)
    requires s in a.slots && t in a.slots && b.slots == a.slots
  {
    var newly := HasStatus(b, s, Approved) && !HasStatus(a, s, Approved);
    var competes := HasStatus(b, t, Approved) || HasStatus(b, t, Pending);
    newly && competes && a.slots[s].venue == a.slots[t].venue ==> !Overlaps(a.slots[s].span, a.slots[t].span)
  }

  lemma OverlapSymmetric(a: Span, b: Span)
    ensures Overlaps(a, b) <==> Overlaps(b, a)
  {
  }

  lemma StatusKeepsPair(db: Db, rs: Requests, s: Id, t: Id)
    requires s in db.slots && t in db.slots && PairOk(db, s, t) && PairOk(db, t, s)
    requires SlotOk(db, s) && SlotOk(db, t) && StatusesMove(db.requests, rs)
    requires NewPairClear(db, Db(rs, db.slots), s, t) && NewPairClear(db, Db(rs, db.slots), t, s)
    ensures PairOk(Db(rs, db.slots), s, t)
  {
    assert MovesOn(db.requests[db.slots[t].request], rs[db.slots[t].request]);
    assert MovesOn(db.requests[db.slots[s].request], rs[db.slots[s].request]);
    OverlapSymmetric(db.slots[s].span, db.slots[t].span);
  }

  lemma StatusKeepsPairs(db: Db, rs: Requests)
    requires SlotsOk(db) && PairsOk(db) && StatusesMove(db.requests, rs) && NewlyApprovedClear(db, rs)
    ensures PairsOk(Db(rs, db.slots))
  {
    forall s, t | s in db.slots && t in db.slots && s != t ensures PairOk(Db(rs, db.slots), s, t) {
      assert PairOk(db, s, t) && PairOk(db, t, s) && SlotOk(db, s) && SlotOk(db, t);
      assert NewPairClear(db, Db(rs, db.slots), s, t) && NewPairClear(db, Db(rs, db.slots), t, s);
      StatusKeepsPair(db, rs, s, t);
    }
  }

  lemma StatusKeepsSlots(db: Db, rs: Requests)
    requires SlotsOk(db) && StatusesMove(db.requests, rs)
    ensures SlotsOk(Db(rs, db.slots))
  {
    forall s | s in db.slots ensures SlotOk(Db(rs, db.slots), s) {
      assert SlotOk(db, s);
      assert MovesOn(db.requests[db.slots[s].request], rs[db.slots[s].request]);
    }
  }

  lemma StatusKeepsRequests(db: Db, rs: Requests)
    requires RequestsOk(db) && StatusesMove(db.requests, rs)
    ensures RequestsOk(Db(rs, db.slots))
  {
    forall r | r in rs ensures RequestOk(rs[r], db.slots, r) {
      assert RequestOk(db.requests[r], db.slots, r) && MovesOn(db.requests[r], rs[r]);
    }
  }

  lemma StatusKeepsInv(db: Db, rs: Requests)
    requires Inv(db) && StatusesMove(db.requests, rs) && NewlyApprovedClear(db, rs)
    ensures Inv(Db(rs, db.slots))
  {
    StatusKeepsSlots(db, rs);
    StatusKeepsPairs(db, rs);
    StatusKeepsRequests(db, rs);
  }

  // ---- approve ----

  lemma LiveSpanOf(slots: Slots, s: Id, r: Id)
    requires IsLiveOf(slots, s, r)
    ensures s in LiveSlots(slots, r) && slots[s].span in LiveSpans(slots, r)
  {
  }

  lemma ApproveMoves(db: Db, id: Id, actor: Id, now: int)
    ensures StatusesMove(db.requests, ApproveDb(db, id, actor, now).requests)
    ensures ApproveDb(db, id, actor, now).slots == db.slots
  {
  }

  // The winner's live slots meet no approved slot, because there is no clash, and no pending one, because
  // whoever met them was rejected.
  lemma ApproveClearsPair(db: Db, id: Id, actor: Id, now: int, s: Id, t: Id)
    requires SlotsOk(db) && PairsOk(db) && ApproveOutcome(db, id).Done?
    requires s in db.slots && t in db.slots && s != t
    ensures NewPairClear(db, ApproveDb(db, id, actor, now), s, t)
  {
    var b := ApproveDb(db, id, actor, now);
    assert SlotOk(db, s) && SlotOk(db, t) && PairOk(db, s, t);
    var venue, spans := db.requests[id].venue, LiveSpans(db.slots, id);
    if HasStatus(b, s, Approved) && !HasStatus(db, s, Approved) && db.slots[s].venue == db.slots[t].venue {
      LiveSpanOf(db.slots, s, id);
      var other := db.slots[t].request;
      if other != id && Overlaps(db.slots[t].span, db.slots[s].span) {
        assert Hits(db.slots[t].span, spans);
        assert t !in Clashes(db, venue, spans, Some(id));
        if HasStatus(db, t, Pending) {
          assert IsLiveOf(db.slots, t, other);
          assert IsLoser(db, other, venue, spans, Some(id));
        }
      }
      OverlapSymmetric(db.slots[s].span, db.slots[t].span);
    }
  }

  lemma ApproveKeepsInv(db: Db, id: Id, actor: Id, now: int)
    requires Inv(db)
    ensures Inv(ApproveDb(db, id, actor, now))
  {
    if ApproveOutcome(db, id).Done? {
      ApproveMoves(db, id, actor, now);
      forall s, t | s in db.slots && t in db.slots && s != t ensures NewPairClear(db, ApproveDb(db, id, actor, now), s, t) {
        ApproveClearsPair(db, id, actor, now, s, t);
      }
      StatusKeepsInv(db, ApproveDb(db, id, actor, now).requests);
    }
  }

  // ---- reject, expire ----

  lemma NoNewApprovals(db: Db, rs: Requests)
    requires SlotsOk(db) && StatusesMove(db.requests, rs)
    requires forall r :: r in rs && rs[r].status == Approved ==> db.requests[r].status == Approved
    ensures NewlyApprovedClear(db, rs)
  {
  }

  lemma RejectKeepsInv(db: Db, id: Id, reason: string)
    requires Inv(db)
    ensures Inv(RejectDb(db, id, reason))
  {
    if RejectOutcome(db, id).Done? {
      NoNewApprovals(db, RejectDb(db, id, reason).requests);
      StatusKeepsInv(db, RejectDb(db, id, reason).requests);
    }
  }

  lemma ExpireKeepsInv(db: Db, now: int)
    requires Inv(db)
    ensures Inv(ExpireDb(db, now))
  {
    NoNewApprovals(db, ExpireDb(db, now).requests);
    StatusKeepsInv(db, ExpireDb(db, now).requests);
  }

  // ---- Cancelling slots ----

  // Every slot keeps its request, venue and span, and none comes back.
  ghost predicate SlotsOnlyCancelled(a: Slots, b: Slots) {
    a.Keys == b.Keys && forall s :: s in a ==> OnlyCancelled(a[s], b[s])
  }

  ghost predicate OnlyCancelled(a: Slot, b: Slot) {
    && b.request == a.request && b.venue == a.venue && b.span == a.span
    && (a.isCancelled ==> b.isCancelled)
  }

  // What occupies the calendar afterwards already did.
  ghost predicate OccupiesLess(a: Db, b: Db, s: Id)
    requires s in a.slots && s in b.slots
  {
    (HasStatus(b, s, Approved) ==> HasStatus(a, s, Approved)) && (HasStatus(b, s, Pending) ==> HasStatus(a, s, Pending))
  }

  lemma FewerSlotsKeepPairs(a: Db, b: Db)
    requires PairsOk(a) && SlotsOnlyCancelled(a.slots, b.slots)
    requires forall s :: s in a.slots ==> OccupiesLess(a, b, s)
    ensures PairsOk(b)
  {
    forall s, t | s in b.slots && t in b.slots && s != t ensures PairOk(b, s, t) {
      assert PairOk(a, s, t);
      assert OnlyCancelled(a.slots[s], b.slots[s]) && OnlyCancelled(a.slots[t], b.slots[t]);
      assert OccupiesLess(a, b, s) && OccupiesLess(a, b, t);
    }
  }

  lemma StampCancelsOnly(slots: Slots, targets: set<Id>, st: Stamp)
    ensures SlotsOnlyCancelled(slots, StampSlots(slots, targets, st))
  {
  }

  lemma StampLeaves(slots: Slots, targets: set<Id>, st: Stamp, r: Id)
    ensures LiveSlots(StampSlots(slots, targets, st), r) == LiveSlots(slots, r) - targets
  {
  }

  lemma StampLeavesSpans(slots: Slots, targets: set<Id>, st: Stamp, ss: set<Id>)
    ensures SpansOf(StampSlots(slots, targets, st), ss) == SpansOf(slots, ss)
  {
    var after := StampSlots(slots, targets, st);
    forall x | x in SpansOf(slots, ss) ensures x in SpansOf(after, ss) {
      var s :| s in ss && s in slots && slots[s].span == x;
      assert s in after && after[s].span == x;
    }
  }

  lemma CancelKeepsSlots(db: Db, id: Id, targets: set<Id>, st: Stamp)
    requires SlotsOk(db) && id in db.requests
    ensures SlotsOk(CancelSlots(db, id, targets, st))
  {
    var after := CancelSlots(db, id, targets, st);
    forall s | s in after.slots ensures SlotOk(after, s) {
      assert SlotOk(db, s);
    }
  }

  lemma CancelKeepsPairs(db: Db, id: Id, targets: set<Id>, st: Stamp)
    requires SlotsOk(db) && PairsOk(db) && id in db.requests
    ensures PairsOk(CancelSlots(db, id, targets, st))
  {
    StampCancelsOnly(db.slots, targets, st);
    FewerSlotsKeepPairs(db, CancelSlots(db, id, targets, st));
  }

  lemma NoSpansNoSlots(slots: Slots, ss: set<Id>)
    requires forall s :: s in ss ==> s in slots
    ensures SpansOf(slots, ss) == {} <==> ss == {}
  {
    if ss != {} {
      var s: string :| s in ss;
      assert slots[s].span in SpansOf(slots, ss);
    }
  }

  lemma CancelKeepsOther(db: Db, id: Id, targets: set<Id>, st: Stamp, r: Id)
    requires RequestsOk(db) && id in db.requests && r in db.requests && r != id
    requires targets <= LiveSlots(db.slots, id)
    ensures RequestOk(db.requests[r], StampSlots(db.slots, targets, st), r)
  {
    assert RequestOk(db.requests[r], db.slots, r);
    StampLeaves(db.slots, targets, st, r);
    assert LiveSlots(db.slots, r) - targets == LiveSlots(db.slots, r);
    StampLeavesSpans(db.slots, targets, st, LiveSlots(db.slots, r));
  }

  lemma CancelKeepsOwn(db: Db, id: Id, targets: set<Id>, st: Stamp)
    requires RequestsOk(db) && id in db.requests && targets <= LiveSlots(db.slots, id)
    requires db.requests[id].status == Approved || targets == LiveSlots(db.slots, id)
    ensures var after := CancelSlots(db, id, targets, st); RequestOk(after.requests[id], after.slots, id)
  {
    assert RequestOk(db.requests[id], db.slots, id);
    var kept := LiveSlots(db.slots, id) - targets;
    StampLeaves(db.slots, targets, st, id);
    StampLeavesSpans(db.slots, targets, st, kept);
    NoSpansNoSlots(db.slots, kept);
  }

  lemma CancelKeepsInv(db: Db, id: Id, targets: set<Id>, st: Stamp)
    requires Inv(db) && id in db.requests && targets <= LiveSlots(db.slots, id)
    requires db.requests[id].status == Approved || targets == LiveSlots(db.slots, id)
    ensures Inv(CancelSlots(db, id, targets, st))
  {
    CancelKeepsSlots(db, id, targets, st);
    CancelKeepsPairs(db, id, targets, st);
    var after := CancelSlots(db, id, targets, st);
    forall r | r in after.requests ensures RequestOk(after.requests[r], after.slots, r) {
      if r == id { CancelKeepsOwn(db, id, targets, st); } else { CancelKeepsOther(db, id, targets, st, r); }
    }
  }

  lemma StaffCancelKeepsInv(db: Db, id: Id, slotIds: Option<seq<Id>>, st: Stamp)
    requires Inv(db)
    ensures Inv(StaffCancelDb(db, id, slotIds, st))
  {
    if StaffCancelOutcome(db, id, slotIds).Done? { CancelKeepsInv(db, id, Targets(db, id, slotIds), st); }
  }

  lemma SlotCancelKeepsInv(db: Db, user: Id, id: Id, slot: Id, now: int, cutoff: int)
    requires Inv(db)
    ensures Inv(SlotCancelDb(db, user, id, slot, now, cutoff))
  {
    if SlotCancelOutcome(db, user, id, slot, cutoff).Done? {
      LiveSpanOf(db.slots, slot, id);
      CancelKeepsInv(db, id, {slot}, Stamp(now, user, LINE_USER_ROLE, None));
    }
  }

  lemma WithdrawIsCancelAll(db: Db, user: Id, id: Id, now: int)
    requires WithdrawOutcome(db, user, id).Done?
    ensures WithdrawDb(db, user, id, now) == CancelSlots(db, id, LiveSlots(db.slots, id), Stamp(now, user, LINE_USER_ROLE, None))
  {
  }

  lemma WithdrawKeepsInv(db: Db, user: Id, id: Id, now: int)
    requires Inv(db)
    ensures Inv(WithdrawDb(db, user, id, now))
  {
    if WithdrawOutcome(db, user, id).Done? {
      WithdrawIsCancelAll(db, user, id, now);
      CancelKeepsInv(db, id, LiveSlots(db.slots, id), Stamp(now, user, LINE_USER_ROLE, None));
    }
  }

  // ---- Reminders ----

  lemma RemindLeavesLive(db: Db, now: int, r: Id)
    ensures LiveSlots(RemindDb(db, now).slots, r) == LiveSlots(db.slots, r)
    ensures LiveSpans(RemindDb(db, now).slots, r) == LiveSpans(db.slots, r)
  {
    var after := RemindDb(db, now).slots;
    assert LiveSlots(after, r) == LiveSlots(db.slots, r);
    forall x | x in LiveSpans(db.slots, r) ensures x in LiveSpans(after, r) {
      var s :| s in LiveSlots(db.slots, r) && db.slots[s].span == x;
      assert after[s].span == x;
    }
  }

  lemma RemindKeepsInv(db: Db, now: int)
    requires Inv(db)
    ensures Inv(RemindDb(db, now))
  {
    var after := RemindDb(db, now);
    forall s | s in after.slots ensures SlotOk(after, s) { assert SlotOk(db, s); }
    FewerSlotsKeepPairs(db, after);
    forall r | r in after.requests ensures RequestOk(after.requests[r], after.slots, r) {
      assert RequestOk(db.requests[r], db.slots, r);
      RemindLeavesLive(db, now, r);
    }
  }
}
