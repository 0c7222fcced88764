// The two ways a booking enters the tables. A staff booking is a submission approved on the spot.
module BookingInsert {
  import opened Wrappers
  import opened BookingOverlap
  import opened BookingCode
  import opened BookingModel
  import opened BookingInvariant

  ghost function Inserted(db: Db, b: NewBooking, code: Code, now: int): Db
    requires Insertable(db, b)
  {
    SpanSetNonEmpty(b.spans);
    Db(db.requests[b.id := NewRequest(b, code, now, None)], db.slots + NewSlots(b))
  }

  // What a submission adds, seen by the queries of a decision.
  ghost predicate Extends(db: Db, b: NewBooking, after: Db)
    requires Insertable(db, b)
  {
    && after.slots == db.slots + NewSlots(b)
    && b.id in after.requests && after.requests[b.id].status == Pending && after.requests[b.id].venue == b.venue
    && (forall r :: r in db.requests ==> r in after.requests && after.requests[r] == db.requests[r])
    && (forall r :: r in after.requests ==> r == b.id || r in db.requests)
  }

  lemma InsertedExtends(db: Db, b: NewBooking, code: Code, now: int)
    requires Insertable(db, b)
    ensures Extends(db, b, Inserted(db, b, code, now))
  {
  }

  // ---- The new slots beside the old ones ----

  lemma NewSlotAt(b: NewBooking, s: Id) returns (i: nat)
    requires |b.slotIds| == |b.spans| && (forall i, j :: 0 <= i < j < |b.slotIds| ==> b.slotIds[i] != b.slotIds[j])
    requires s in NewSlots(b)
    ensures i < |b.slotIds| && b.slotIds[i] == s && NewSlots(b)[s] == NewSlot(b, b.spans[i])
  {
    i :| 0 <= i < |b.slotIds| && b.slotIds[i] == s;
  }

  lemma OldSlot(db: Db, b: NewBooking, s: Id)
    requires SlotsOk(db) && Insertable(db, b) && s in db.slots
    ensures s !in NewSlots(b) && (db.slots + NewSlots(b))[s] == db.slots[s] && db.slots[s].request != b.id
  {
    assert SlotOk(db, s);
    if s in NewSlots(b) { var i := NewSlotAt(b, s); }
  }

  lemma InsertKeepsSlots(db: Db, b: NewBooking, code: Code, now: int)
    requires SlotsOk(db) && Insertable(db, b)
    ensures SlotsOk(Inserted(db, b, code, now))
  {
    var after := Inserted(db, b, code, now);
    forall s | s in after.slots ensures SlotOk(after, s) {
      if s in db.slots {
        OldSlot(db, b, s);
        assert SlotOk(db, s);
      } else {
        var i := NewSlotAt(b, s);
        assert NonEmpty(b.spans[i]);
      }
    }
  }

  lemma HitBySpan(b: NewBooking, i: nat, theirs: Span)
    requires i < |b.spans| && Overlaps(theirs, b.spans[i])
    ensures Hits(theirs, SpanSet(b.spans))
  {
    assert b.spans[i] in SpanSet(b.spans);
  }

  lemma InsertPair(db: Db, b: NewBooking, after: Db, s: Id, t: Id)
    requires SlotsOk(db) && PairsOk(db) && Insertable(db, b) && Clashes(db, b.venue, SpanSet(b.spans), None) == {}
    requires Extends(db, b, after) && s in after.slots && t in after.slots && s != t
    ensures PairOk(after, s, t)
  {
    if s in db.slots && t in db.slots {
      InsertOldPair(db, b, after, s, t);
    } else if s in db.slots {
      InsertMixedPair(db, b, after, s, t);
    } else {
      InsertNewPair(db, b, after, s, t);
    }
  }

  lemma InsertOldPair(db: Db, b: NewBooking, after: Db, s: Id, t: Id)
    requires SlotsOk(db) && PairsOk(db) && Insertable(db, b) && s in db.slots && t in db.slots && s != t
    requires Extends(db, b, after)
    ensures s in after.slots && t in after.slots && PairOk(after, s, t)
  {
    OldSlot(db, b, s);
    OldSlot(db, b, t);
    assert PairOk(db, s, t) && SlotOk(db, s) && SlotOk(db, t);
  }

  lemma InsertMixedPair(db: Db, b: NewBooking, after: Db, s: Id, t: Id)
    requires SlotsOk(db) && Insertable(db, b) && Clashes(db, b.venue, SpanSet(b.spans), None) == {}
    requires Extends(db, b, after) && s in db.slots && t in NewSlots(b)
    ensures PairOk(after, s, t)
  {
    OldSlot(db, b, s);
    var i := NewSlotAt(b, t);
    assert s !in Clashes(db, b.venue, SpanSet(b.spans), None) && SlotOk(db, s);
    if Overlaps(db.slots[s].span, b.spans[i]) { HitBySpan(b, i, db.slots[s].span); }
  }

  // A new slot is not approved yet, so it only has to clear its own siblings.
  lemma InsertNewPair(db: Db, b: NewBooking, after: Db, s: Id, t: Id)
    requires SlotsOk(db) && Insertable(db, b) && Extends(db, b, after)
    requires s in NewSlots(b) && s !in db.slots && t in after.slots && s != t
    ensures PairOk(after, s, t)
  {
    var i := NewSlotAt(b, s);
    if t in db.slots {
      OldSlot(db, b, t);
    } else {
      var j := NewSlotAt(b, t);
      DisjointEitherWay(b.spans, i, j);
    }
  }

  lemma DisjointEitherWay(spans: seq<Span>, i: nat, j: nat)
    requires PairwiseDisjoint(spans) && i < |spans| && j < |spans| && i != j
    ensures !Overlaps(spans[i], spans[j])
  {
    if i > j { OverlapSymmetric(spans[i], spans[j]); }
  }

  lemma InsertLeavesLive(db: Db, b: NewBooking, r: Id)
    requires SlotsOk(db) && Insertable(db, b) && r in db.requests
    ensures LiveSlots(db.slots + NewSlots(b), r) == LiveSlots(db.slots, r)
    ensures LiveSpans(db.slots + NewSlots(b), r) == LiveSpans(db.slots, r)
    ensures AllLive(db.slots, r) ==> AllLive(db.slots + NewSlots(b), r)
  {
    var after := db.slots + NewSlots(b);
    forall s | s in after ensures s !in db.slots ==> after[s].request == b.id {
      if s !in db.slots { var i := NewSlotAt(b, s); }
    }
    forall s | s in db.slots ensures after[s] == db.slots[s] { OldSlot(db, b, s); }
    assert LiveSlots(after, r) == LiveSlots(db.slots, r);
    SameSpans(db.slots, after, LiveSlots(db.slots, r));
  }

  lemma SameSpans(a: Slots, b: Slots, ss: set<Id>)
    requires forall s :: s in ss ==> s in a && s in b && a[s] == b[s]
    ensures SpansOf(a, ss) == SpansOf(b, ss)
  {
  }

  lemma NewLive(db: Db, b: NewBooking, s: Id)
    requires SlotsOk(db) && Insertable(db, b) && s in db.slots + NewSlots(b)
    ensures (db.slots + NewSlots(b))[s].request == b.id <==> s in NewSlots(b)
    ensures IsLiveOf(db.slots + NewSlots(b), s, b.id) <==> s in NewSlots(b)
  {
    if s in db.slots { OldSlot(db, b, s); } else { var i := NewSlotAt(b, s); }
  }

  lemma NewSlotsCarrySpans(b: NewBooking)
    requires |b.slotIds| == |b.spans| && (forall i, j :: 0 <= i < j < |b.slotIds| ==> b.slotIds[i] != b.slotIds[j])
    ensures SpansOf(NewSlots(b), NewSlots(b).Keys) == SpanSet(b.spans)
  {
    var made := NewSlots(b);
    forall x | x in SpanSet(b.spans) ensures x in SpansOf(made, made.Keys) {
      var i :| 0 <= i < |b.spans| && b.spans[i] == x;
      assert b.slotIds[i] in made && made[b.slotIds[i]].span == x;
    }
    forall x | x in SpansOf(made, made.Keys) ensures x in SpanSet(b.spans) {
      var s :| s in made && made[s].span == x;
      var i := NewSlotAt(b, s);
    }
  }

  lemma NewLiveSlots(db: Db, b: NewBooking)
    requires SlotsOk(db) && Insertable(db, b)
    ensures LiveSlots(db.slots + NewSlots(b), b.id) == NewSlots(b).Keys
    ensures LiveSpans(db.slots + NewSlots(b), b.id) == SpanSet(b.spans)
    ensures AllLive(db.slots + NewSlots(b), b.id)
  {
    var after := db.slots + NewSlots(b);
    forall s | s in after ensures after[s].request == b.id <==> s in NewSlots(b)
      ensures IsLiveOf(after, s, b.id) <==> s in NewSlots(b) { NewLive(db, b, s); }
    assert LiveSlots(after, b.id) == NewSlots(b).Keys;
    SameSpans(NewSlots(b), after, NewSlots(b).Keys);
    NewSlotsCarrySpans(b);
  }

  lemma InsertKeepsRequests(db: Db, b: NewBooking, code: Code, now: int)
    requires SlotsOk(db) && RequestsOk(db) && Insertable(db, b)
    ensures RequestsOk(Inserted(db, b, code, now))
  {
    var after := Inserted(db, b, code, now);
    forall r | r in after.requests ensures RequestOk(after.requests[r], after.slots, r) {
      if r == b.id {
        NewLiveSlots(db, b);
      } else {
        InsertLeavesLive(db, b, r);
        assert RequestOk(db.requests[r], db.slots, r);
      }
    }
  }

  lemma InsertKeepsInv(db: Db, b: NewBooking, code: Code, now: int)
    requires Inv(db) && Insertable(db, b) && Clashes(db, b.venue, SpanSet(b.spans), None) == {}
    ensures Inv(Inserted(db, b, code, now))
  {
    InsertKeepsSlots(db, b, code, now);
    InsertKeepsRequests(db, b, code, now);
    InsertedExtends(db, b, code, now);
    InsertKeepsPairs(db, b, Inserted(db, b, code, now));
  }

  lemma InsertKeepsPairs(db: Db, b: NewBooking, after: Db)
    requires SlotsOk(db) && PairsOk(db) && Insertable(db, b) && Clashes(db, b.venue, SpanSet(b.spans), None) == {}
    requires Extends(db, b, after)
    ensures PairsOk(after)
  {
    forall s, t | s in after.slots && t in after.slots && s != t ensures PairOk(after, s, t) {
      InsertPair(db, b, after, s, t);
    }
  }

  lemma SubmitKeepsInv(db: Db, b: NewBooking, now: int)
    requires Inv(db) && Insertable(db, b)
    ensures Inv(SubmitDb(db, b, now))
  {
    if SubmitOutcome(db, b, now).Done? { InsertKeepsInv(db, b, NextCode(db, now), now); }
  }

  // ---- A staff booking is a submission approved on the spot ----

  lemma OldClashes(db: Db, b: NewBooking, after: Db)
    requires SlotsOk(db) && Insertable(db, b) && Extends(db, b, after)
    requires Clashes(db, b.venue, SpanSet(b.spans), None) == {}
    ensures Clashes(after, b.venue, SpanSet(b.spans), Some(b.id)) == {}
  {
    forall s | s in after.slots ensures !IsClash(after, s, b.venue, SpanSet(b.spans), Some(b.id)) {
      if s in db.slots {
        OldSlot(db, b, s);
        assert SlotOk(db, s) && s !in Clashes(db, b.venue, SpanSet(b.spans), None);
      } else {
        var i := NewSlotAt(b, s);
      }
    }
  }

  lemma HitsBySpan(slots: Slots, r: Id, spans: set<Span>)
    ensures SomeSlotHits(slots, r, spans) <==> exists x :: x in LiveSpans(slots, r) && Hits(x, spans)
  {
    if SomeSlotHits(slots, r, spans) {
      var s :| s in slots && IsLiveOf(slots, s, r) && Hits(slots[s].span, spans);
      LiveSpanOf(slots, s, r);
    }
  }

  lemma SameSpansSameHits(a: Slots, b: Slots, r: Id, spans: set<Span>)
    requires LiveSpans(a, r) == LiveSpans(b, r)
    ensures SomeSlotHits(a, r, spans) <==> SomeSlotHits(b, r, spans)
  {
    HitsBySpan(a, r, spans);
    HitsBySpan(b, r, spans);
  }

  lemma OldLoser(db: Db, b: NewBooking, after: Db, r: Id)
    requires SlotsOk(db) && Insertable(db, b) && Extends(db, b, after)
    ensures IsLoser(after, r, b.venue, SpanSet(b.spans), Some(b.id)) <==> IsLoser(db, r, b.venue, SpanSet(b.spans), None)
  {
    if r in db.requests {
      InsertLeavesLive(db, b, r);
      SameSpansSameHits(db.slots, after.slots, r, SpanSet(b.spans));
    }
  }

  lemma OldLosers(db: Db, b: NewBooking, after: Db)
    requires SlotsOk(db) && Insertable(db, b) && Extends(db, b, after)
    ensures Losers(after, b.venue, SpanSet(b.spans), Some(b.id)) == Losers(db, b.venue, SpanSet(b.spans), None)
  {
    forall r ensures r in Losers(after, b.venue, SpanSet(b.spans), Some(b.id))
                <==> r in Losers(db, b.venue, SpanSet(b.spans), None) {
      OldLoser(db, b, after, r);
    }
  }

  lemma ExtendedIsApprovable(db: Db, b: NewBooking, after: Db)
    requires SlotsOk(db) && Insertable(db, b) && Extends(db, b, after)
    requires Clashes(db, b.venue, SpanSet(b.spans), None) == {}
    ensures ApproveOutcome(after, b.id) == Done(b.id, Losers(db, b.venue, SpanSet(b.spans), None))
  {
    NewLiveSlots(db, b);
    assert b.slotIds[0] in NewSlots(b);
    OldClashes(db, b, after);
    OldLosers(db, b, after);
  }

  lemma RejectAllBeside(requests: Requests, losers: set<Id>, r: Id, q: Request)
    requires r !in losers
    ensures RejectAll(requests[r := q], losers) == RejectAll(requests, losers)[r := q]
  {
  }

  lemma DirectRow(b: NewBooking, code: Code, actor: Id, now: int)
    requires SpanSet(b.spans) != {}
    ensures NewRequest(b, code, now, Some(actor)) == ApprovedRow(NewRequest(b, code, now, None), actor, now).(createdBy := Some(actor))
  {
  }

  // The tables with `b` inserted as a pending request: what submitting it leaves.
  lemma SubmitInserts(db: Db, b: NewBooking, env: DirectInput, now: int)
    requires SlotsOk(db) && Insertable(db, b) && DirectOutcome(db, b, env, now).Done?
    ensures SubmitOutcome(db, b, now).Done? && SubmitDb(db, b, now) == Inserted(db, b, NextCode(db, now), now)
    ensures ApproveOutcome(SubmitDb(db, b, now), b.id) == DirectOutcome(db, b, env, now)
  {
    SpanSetNonEmpty(b.spans);
    InsertedExtends(db, b, NextCode(db, now), now);
    ExtendedIsApprovable(db, b, Inserted(db, b, NextCode(db, now), now));
  }

  // Creating an approved booking does what submitting it and approving it at once would, but for the
  // column that says who typed it.
  lemma DirectIsSubmitThenApprove(db: Db, b: NewBooking, env: DirectInput, actor: Id, now: int)
    requires SlotsOk(db) && Insertable(db, b) && DirectOutcome(db, b, env, now).Done?
    ensures SubmitOutcome(db, b, now).Done?
    ensures ApproveOutcome(SubmitDb(db, b, now), b.id) == DirectOutcome(db, b, env, now)
    ensures var m := ApproveDb(SubmitDb(db, b, now), b.id, actor, now);
      && b.id in m.requests
      && DirectDb(db, b, env, actor, now) == m.(requests := m.requests[b.id := m.requests[b.id].(createdBy := Some(actor))])
  {
    SpanSetNonEmpty(b.spans);
    SubmitInserts(db, b, env, now);
    DirectRequests(db.requests, b, NextCode(db, now), Losers(db, b.venue, SpanSet(b.spans), None), actor, now);
  }

  lemma DirectRequests(requests: Requests, b: NewBooking, code: Code, losers: set<Id>, actor: Id, now: int)
    requires b.id !in losers && SpanSet(b.spans) != {}
    ensures var p := NewRequest(b, code, now, None);
      var m := RejectAll(requests[b.id := p][b.id := ApprovedRow(p, actor, now)], losers);
      && b.id in m
      && RejectAll(requests[b.id := NewRequest(b, code, now, Some(actor))], losers) == m[b.id := m[b.id].(createdBy := Some(actor))]
  {
    var p := NewRequest(b, code, now, None);
    var q := ApprovedRow(p, actor, now);
    DirectRow(b, code, actor, now);
    assert requests[b.id := p][b.id := q] == requests[b.id := q];
    RejectAllBeside(requests, losers, b.id, q);
    RejectAllBeside(requests, losers, b.id, NewRequest(b, code, now, Some(actor)));
  }

  lemma AuthorKeepsInv(db: Db, r: Id, author: Option<Id>)
    requires Inv(db) && r in db.requests
    ensures Inv(db.(requests := db.requests[r := db.requests[r].(createdBy := author)]))
  {
    var rs := db.requests[r := db.requests[r].(createdBy := author)];
    NoNewApprovals(db, rs);
    StatusKeepsInv(db, rs);
  }

  lemma DirectKeepsInv(db: Db, b: NewBooking, env: DirectInput, actor: Id, now: int)
    requires Inv(db) && Insertable(db, b)
    ensures Inv(DirectDb(db, b, env, actor, now))
  {
    if DirectOutcome(db, b, env, now).Done? {
      DirectIsSubmitThenApprove(db, b, env, actor, now);
      SubmitKeepsInv(db, b, now);
      ApproveKeepsInv(SubmitDb(db, b, now), b.id, actor, now);
      AuthorKeepsInv(ApproveDb(SubmitDb(db, b, now), b.id, actor, now), b.id, Some(actor));
    }
  }
}
