// What every transaction but an open cancellation keeps of one request and its slots, in any interleaving.
module BookingRaceSlots {
  import opened Wrappers
  import opened BookingModel
  import opened BookingInvariant
  import opened BookingInsert
  import opened BookingRuns
  import opened BookingRace
  import opened BookingRaceSafety
  import opened BookingRaceSteps

  // ---- The invariant, for one request ----

  predicate HoldsSlotOf(tx: Tx, r: Id) {
    exists s :: s in tx.slots && tx.slots[s].request == r
  }

  ghost predicate WholeAt(db: Db, r: Id) {
    r in db.requests ==> RequestOk(db.requests[r], db.slots, r)
  }

  predicate OnlyOf(db: Db, tx: Tx, id: Id) {
    forall s :: s in tx.slots ==> s in db.slots && tx.slots[s].request == id
  }

  // A slot of `r` is written only together with its row, and under its venue's lock if under one.
  ghost predicate RowWithSlots(db: Db, tx: Tx, r: Id) {
    HoldsSlotOf(tx, r) ==> r in tx.rows && (r in db.requests ==> tx.lock == None || tx.lock == Some(db.requests[r].venue))
  }

  ghost predicate TxWhole(db: Db, tx: Tx, r: Id) {
    match tx.pc
    case StaffFound(id, venue, _, _) => IsAt(db, id, venue)
    case StaffLocked(id, _, _) => id in db.requests && tx.lock == Some(db.requests[id].venue)
    case StaffApproved(id, _, _) => tx.slots == map[] && id in db.requests && tx.lock == Some(db.requests[id].venue)
    case SlotBegun(_, _, _) => tx.lock == None
    case SlotApproved(_, _, _) => tx.slots == map[] && tx.lock == None
    case RejectBegun(_, _) => Unwritten(tx)
    case RejectPending(_, _) => Unwritten(tx)
    case WithdrawBegun(_) => Unwritten(tx) && tx.lock == None
    case WithdrawPending(_) => Unwritten(tx) && tx.lock == None
    case WithdrawFlipped(id) =>
      OnlyOf(db, tx, id) && tx.lock == None && tx.rows.Keys == {id} && tx.rows[id].status == Cancelled
    case Expiring(_) => tx.slots == map[] && WholeAt(View(db, tx), r)
    case Rejecting(_, _) => RowWithSlots(db, tx, r) && WholeAt(View(db, tx), r)
    case Finished(_) => RowWithSlots(db, tx, r) && WholeAt(View(db, tx), r)
    case _ => true
  }

  // ---- A transaction that does not touch the request ----

  ghost predicate SlotsSame(a: Slots, b: Slots, r: Id) {
    forall s :: (s in a && a[s].request == r) || (s in b && b[s].request == r) ==> s in a && s in b && a[s] == b[s]
  }

  ghost predicate RowSame(a: Requests, b: Requests, r: Id) {
    (r in a <==> r in b) && (r in a ==> a[r] == b[r])
  }

  lemma SameLive(a: Slots, b: Slots, r: Id)
    requires SlotsSame(a, b, r)
    ensures LiveSlots(a, r) == LiveSlots(b, r) && LiveSpans(a, r) == LiveSpans(b, r)
    ensures AllLive(a, r) <==> AllLive(b, r)
  {
    assert LiveSlots(a, r) == LiveSlots(b, r);
    SameSpans(a, b, LiveSlots(a, r));
  }

  lemma SameWhole(a: Db, b: Db, r: Id)
    requires SlotsSame(a.slots, b.slots, r) && RowSame(a.requests, b.requests, r) && WholeAt(a, r)
    ensures WholeAt(b, r)
  {
    SameLive(a.slots, b.slots, r);
  }

  lemma UntouchedSlots(db: Db, tx: Tx, r: Id)
    requires SlotsMove(db.slots, View(db, tx).slots) && !HoldsSlotOf(tx, r)
    ensures SlotsSame(db.slots, View(db, tx).slots, r)
  {
    var v := View(db, tx);
    forall s | s in db.slots && db.slots[s].request == r ensures s !in tx.slots {
      assert SlotMoves(db.slots[s], v.slots[s]);
    }
  }

  lemma UntouchedWhole(db: Db, tx: Tx, r: Id)
    requires SlotsMove(db.slots, View(db, tx).slots) && !HoldsSlotOf(tx, r) && r !in tx.rows
    ensures WholeAt(db, r) <==> WholeAt(View(db, tx), r)
  {
    UntouchedSlots(db, tx, r);
    if WholeAt(db, r) { SameWhole(db, View(db, tx), r); }
    if WholeAt(View(db, tx), r) { SlotsSameBack(db.slots, View(db, tx).slots, r); SameWhole(View(db, tx), db, r); }
  }

  lemma SlotsSameBack(a: Slots, b: Slots, r: Id)
    requires SlotsSame(a, b, r)
    ensures SlotsSame(b, a, r)
  {
  }

  // ---- Another transaction commits ----

  // What `t` sees of `r` when `u`, which touches no slot of `r`, has committed.
  lemma BehindSlots(db: Db, u: Tx, t: Tx, r: Id)
    requires Grows(db, View(db, u)) && Grows(db, View(db, t)) && !HoldsSlotOf(u, r) && u.slots.Keys !! t.slots.Keys
    ensures SlotsSame(View(db, t).slots, Behind(db, u, t).slots, r)
  {
    var a, c := View(db, t), Behind(db, u, t);
    UntouchedSlots(db, u, r);
    forall s | (s in a.slots && a.slots[s].request == r) || (s in c.slots && c.slots[s].request == r)
      ensures s in a.slots && s in c.slots && a.slots[s] == c.slots[s]
    {
      if s !in t.slots {
        assert (s in db.slots && db.slots[s].request == r) || (s in View(db, u).slots && View(db, u).slots[s].request == r);
      }
    }
  }

  lemma BehindRow(db: Db, u: Tx, t: Tx, r: Id)
    requires r !in u.rows
    ensures RowSame(View(db, t).requests, Behind(db, u, t).requests, r)
  {
  }

  lemma CommitKeepsSettled(hash: Id -> int, db: Db, u: Tx, t: Tx, r: Id)
    requires Compatible(hash, u, t) && DataOk(db, u) && DataOk(db, t) && Grows(View(db, u), Behind(db, u, t))
    requires WholeAt(View(db, t), r) && WholeAt(View(db, u), r) && RowWithSlots(db, t, r) && RowWithSlots(db, u, r)
    ensures WholeAt(Behind(db, u, t), r)
  {
    if r in t.rows {
      assert r !in u.rows;
      BehindSlots(db, u, t, r);
      BehindRow(db, u, t, r);
      SameWhole(View(db, t), Behind(db, u, t), r);
    } else {
      UntouchedWhole(View(db, u), t, r);
    }
  }

  lemma CommitKeepsRowWithSlots(hash: Id -> int, db: Db, u: Tx, t: Tx, r: Id)
    requires Compatible(hash, u, t) && RowsMove(db.requests, View(db, u).requests) && RowWithSlots(db, t, r)
    ensures RowWithSlots(View(db, u), t, r)
  {
    if HoldsSlotOf(t, r) && r in View(db, u).requests {
      assert r !in u.rows && RowMoves(db.requests[r], View(db, u).requests[r]);
    }
  }

  lemma OnlyOfStays(db: Db, b: Db, tx: Tx, id: Id)
    requires SlotsMove(db.slots, b.slots) && OnlyOf(db, tx, id)
    ensures OnlyOf(b, tx, id)
  {
  }

  lemma TodoStays(a: Db, b: Db, todo: set<Id>, id: Id)
    requires SlotsMove(a.slots, b.slots) && forall s :: s in todo ==> s in a.slots && a.slots[s].request == id
    ensures forall s :: s in todo ==> s in b.slots && b.slots[s].request == id
  {
    forall s | s in todo ensures s in b.slots && b.slots[s].request == id { assert SlotMoves(a.slots[s], b.slots[s]); }
  }

  lemma CommitKeepsEarly(a: Db, b: Db, t: Tx, r: Id)
    requires RowsMove(a.requests, b.requests) && SlotsMove(a.slots, b.slots) && TxWhole(a, t, r)
    requires !t.pc.StaffCancelling? && !t.pc.SlotChecked? && !t.pc.SlotGone? && !t.pc.SlotCounted?
    requires !t.pc.Expiring? && !t.pc.Rejecting? && !t.pc.Finished?
    ensures TxWhole(b, t, r)
  {
    match t.pc
    case StaffFound(id, venue, _, _) => StaysAt(a, b, id, venue);
    case StaffLocked(id, _, _) => assert RowMoves(a.requests[id], b.requests[id]);
    case StaffApproved(id, _, _) => assert RowMoves(a.requests[id], b.requests[id]);
    case WithdrawFlipped(id) => OnlyOfStays(a, b, t, id);
    case _ =>
  }

  lemma CommitKeepsExpiring(hash: Id -> int, db: Db, u: Tx, t: Tx, r: Id)
    requires Compatible(hash, u, t) && DataOk(db, u) && DataOk(db, t) && Grows(View(db, u), Behind(db, u, t))
    requires RowWithSlots(db, u, r) && WholeAt(View(db, u), r) && t.pc.Expiring? && TxWhole(db, t, r)
    ensures TxWhole(View(db, u), t, r)
  {
    CommitKeepsSettled(hash, db, u, t, r);
  }

  lemma CommitKeepsDecided(hash: Id -> int, db: Db, u: Tx, t: Tx, r: Id)
    requires Compatible(hash, u, t) && DataOk(db, u) && DataOk(db, t) && Grows(View(db, u), Behind(db, u, t))
    requires RowWithSlots(db, u, r) && WholeAt(View(db, u), r) && (t.pc.Rejecting? || t.pc.Finished?) && TxWhole(db, t, r)
    ensures TxWhole(View(db, u), t, r)
  {
    CommitKeepsSettled(hash, db, u, t, r);
    CommitKeepsRowWithSlots(hash, db, u, t, r);
  }

  // ---- Each statement ----

  ghost predicate KeepsWhole(db: Db, r: Id, m: Move) {
    m.Goto? ==> TxWhole(db, m.tx, r)
  }

  // What a status that leaves PENDING does not disturb.
  lemma LeavesPending(q: Request, q': Request, slots: Slots, r: Id)
    requires RequestOk(q, slots, r) && q.status == Pending && q'.status != Pending && q'.status != Cancelled
    requires q'.firstStart == q.firstStart && q'.lastEnd == q.lastEnd
    ensures RequestOk(q', slots, r)
  {
  }

  lemma FlipWhole(db: Db, tx: Tx, tx': Tx, id: Id, q: Request, r: Id)
    requires WholeAt(View(db, tx), r) && id in View(db, tx).requests && View(db, tx).requests[id].status == Pending
    requires tx'.rows == tx.rows[id := q] && tx'.slots == tx.slots && q.status != Pending && q.status != Cancelled
    requires q.firstStart == View(db, tx).requests[id].firstStart && q.lastEnd == View(db, tx).requests[id].lastEnd
    ensures WholeAt(View(db, tx'), r)
  {
    assert View(db, tx').slots == View(db, tx).slots;
    assert View(db, tx').requests == View(db, tx).requests[id := q];
    if id == r { LeavesPending(View(db, tx).requests[id], q, View(db, tx).slots, r); }
  }

  lemma ApproveFlipWhole(hash: Id -> int, db: Db, h: Held, tx: Tx, now: int, r: Id)
    requires PcOk(db, tx) && WholeAt(db, r) && tx.pc.ApproveReady?
    ensures KeepsWhole(db, r, ApproveNext(hash, db, h, tx, now))
  {
    var m := ApproveNext(hash, db, h, tx, now);
    UnwrittenView(db, tx);
    if m.Goto? { FlipWhole(db, tx, m.tx, tx.pc.id, ApprovedRow(db.requests[tx.pc.id], tx.actor, now), r); }
  }

  lemma ApproveWhole(hash: Id -> int, db: Db, h: Held, tx: Tx, now: int, r: Id)
    requires PcOk(db, tx) && WholeAt(db, r)
    ensures KeepsWhole(db, r, ApproveNext(hash, db, h, tx, now))
  {
    if tx.pc.ApproveReady? { ApproveFlipWhole(hash, db, h, tx, now, r); }
  }

  lemma CreateWhole(hash: Id -> int, db: Db, h: Held, tx: Tx, r: Id)
    ensures KeepsWhole(db, r, CreateNext(hash, db, h, tx))
  {
  }

  // ---- Inserting ----

  lemma NewLiveIn(db: Db, b: NewBooking)
    requires Good(db) && BookingOk(b) && FreshFor(db, b)
    ensures LiveSlots(db.slots + NewSlots(b), b.id) == NewSlots(b).Keys && AllLive(db.slots + NewSlots(b), b.id)
  {
    var after := db.slots + NewSlots(b);
    forall s | s in after ensures after[s].request == b.id <==> s in NewSlots(b)
      ensures s in NewSlots(b) ==> !after[s].isCancelled {
      if s in db.slots { OldRequest(db, b, s); } else { var i := NewSlotAt(b, s); }
    }
  }

  lemma NewWhole(db: Db, b: NewBooking, q: Request)
    requires Good(db) && BookingOk(b) && FreshFor(db, b) && (q.status == Pending || q.status == Approved)
    requires SpanSet(b.spans) != {} && q.firstStart == MinStart(SpanSet(b.spans)) && q.lastEnd == MaxEnd(SpanSet(b.spans))
    ensures RequestOk(q, db.slots + NewSlots(b), b.id)
  {
    NewLiveIn(db, b);
    assert b.slotIds[0] in NewSlots(b);
    SameSpans(NewSlots(b), db.slots + NewSlots(b), NewSlots(b).Keys);
    NewSlotsCarrySpans(b);
  }

  lemma OldWhole(db: Db, b: NewBooking, q: Request, r: Id)
    requires Good(db) && BookingOk(b) && FreshFor(db, b) && r != b.id && WholeAt(db, r)
    ensures WholeAt(Db(db.requests[b.id := q], db.slots + NewSlots(b)), r)
  {
    var w := Db(db.requests[b.id := q], db.slots + NewSlots(b));
    forall s | (s in db.slots && db.slots[s].request == r) || (s in w.slots && w.slots[s].request == r)
      ensures s in db.slots && s in w.slots && db.slots[s] == w.slots[s] {
      if s in db.slots { OldRequest(db, b, s); } else { var i := NewSlotAt(b, s); }
    }
    SameWhole(db, w, r);
  }

  lemma InsertingWhole(db: Db, h: Held, tx: Tx, b: NewBooking, q: Request, pc: Pc, r: Id)
    requires Good(db) && WholeAt(db, r) && Unwritten(tx) && BookingOk(b) && Mintable(View(db, tx), h, b)
    requires (q.status == Pending || q.status == Approved) && (pc.Rejecting? || pc.Finished?)
    requires SpanSet(b.spans) != {} && q.firstStart == MinStart(SpanSet(b.spans)) && q.lastEnd == MaxEnd(SpanSet(b.spans))
    ensures TxWhole(db, Inserting(tx, b, q, pc), r)
  {
    var tx' := Inserting(tx, b, q, pc);
    InsertView(db, tx, b, q, pc);
    MintableIsFresh(db, h, tx, b);
    if r == b.id { NewWhole(db, b, q); } else { OldWhole(db, b, q, r); }
    InsertingRowWithSlots(db, tx, b, q, pc, r);
  }

  lemma InsertingRowWithSlots(db: Db, tx: Tx, b: NewBooking, q: Request, pc: Pc, r: Id)
    requires Unwritten(tx) && BookingOk(b) && FreshFor(db, b)
    ensures RowWithSlots(db, Inserting(tx, b, q, pc), r)
  {
    var tx' := Inserting(tx, b, q, pc);
    if HoldsSlotOf(tx', r) {
      var s :| s in tx'.slots && tx'.slots[s].request == r;
      var i := NewSlotAt(b, s);
    }
  }

  lemma MintedSpan(v: Db, b: NewBooking, approver: Option<Id>, now: int)
    requires BookingOk(b)
    ensures SpanSet(b.spans) != {}
    ensures var q := MintedRow(v, b, approver, now);
      q.firstStart == MinStart(SpanSet(b.spans)) && q.lastEnd == MaxEnd(SpanSet(b.spans))
  {
    SpanSetNonEmpty(b.spans);
  }

  lemma InsertWhole(db: Db, h: Held, tx: Tx, b: NewBooking, approver: Option<Id>, now: int, pc: Pc, r: Id)
    requires Good(db) && WholeAt(db, r) && Unwritten(tx) && BookingOk(b) && (pc.Rejecting? || pc.Finished?)
    ensures KeepsWhole(db, r, Insert(db, h, tx, b, approver, now, pc))
  {
    if Mintable(View(db, tx), h, b) {
      MintedSpan(View(db, tx), b, approver, now);
      InsertingWhole(db, h, tx, b, MintedRow(View(db, tx), b, approver, now), pc, r);
    }
  }

  lemma InsertNextWhole(db: Db, h: Held, tx: Tx, now: int, r: Id)
    requires Good(db) && WholeAt(db, r) && PcOk(db, tx)
    ensures KeepsWhole(db, r, InsertNext(db, h, tx, now))
  {
    match tx.pc
    case DirectReady(b, losers) => InsertWhole(db, h, tx, b, Some(tx.actor), now, Rejecting(losers, losers), r);
    case SubmitClear(b) => InsertWhole(db, h, tx, b, None, now, Finished({}), r);
    case _ =>
  }

  // ---- Cancelling ----

  lemma StaffReadWhole(hash: Id -> int, db: Db, h: Held, tx: Tx, r: Id)
    requires PcOk(db, tx) && TxWhole(db, tx, r) && !tx.pc.StaffCancelling? && !tx.pc.StaffApproved?
    ensures KeepsWhole(db, r, StaffNext(hash, db, h, tx))
  {
    if Unwritten(tx) { UnwrittenView(db, tx); }
  }

  lemma SpansAgree(a: Slots, b: Slots, ss: set<Id>)
    requires forall s :: s in ss ==> s in a && s in b && a[s].span == b[s].span
    ensures SpansOf(a, ss) == SpansOf(b, ss)
  {
    forall x | x in SpansOf(a, ss) ensures x in SpansOf(b, ss) {
      var s :| s in ss && s in a && a[s].span == x;
      assert b[s].span == x;
    }
    forall x | x in SpansOf(b, ss) ensures x in SpansOf(a, ss) {
      var s :| s in ss && s in b && b[s].span == x;
      assert a[s].span == x;
    }
  }

  lemma RowOnly(db: Db, tx: Tx)
    requires tx.rows == map[]
    ensures View(db, tx).requests == db.requests && forall id, q :: tx.rows[id := q] == map[id := q]
  {
  }

  lemma CancelIs(db: Db, h: Held, tx: Tx, s: Id, st: Stamp, pc: Pc)
    requires CancelSlot(db, h, tx, s, st, pc).Goto?
    ensures s in View(db, tx).slots
    ensures CancelSlot(db, h, tx, s, st, pc).tx == tx.(pc := pc, slots := tx.slots[s := CancelledSlot(View(db, tx).slots[s], st)])
  {
  }

  // Cancelling one slot of `id`, seen from inside.
  lemma CancelOne(db: Db, tx: Tx, tx': Tx, s: Id, st: Stamp, id: Id)
    requires SlotsMove(db.slots, View(db, tx).slots) && OnlyOf(db, tx, id) && s in db.slots && db.slots[s].request == id
    requires tx'.slots == tx.slots[s := CancelledSlot(View(db, tx).slots[s], st)]
    ensures OnlyOf(db, tx', id)
    ensures LiveSlots(View(db, tx').slots, id) == LiveSlots(View(db, tx).slots, id) - {s}
  {
    var v := View(db, tx).slots;
    assert SlotMoves(db.slots[s], v[s]);
    assert View(db, tx').slots == v[s := CancelledSlot(v[s], st)];
    OneGone(v, s, st, id);
  }

  lemma OneGone(v: Slots, s: Id, st: Stamp, id: Id)
    requires s in v
    ensures LiveSlots(v[s := CancelledSlot(v[s], st)], id) == LiveSlots(v, id) - {s}
  {
  }

  lemma WithdrawMoveWhole(db: Db, h: Held, tx: Tx, s: Id, now: int, r: Id)
    requires DataOk(db, tx) && TxWhole(db, tx, r) && tx.pc.WithdrawFlipped?
    ensures KeepsWhole(db, r, SlotMove(db, h, tx, s, now))
  {
    var m := SlotMove(db, h, tx, s, now);
    if m.Goto? {
      var id := tx.pc.id;
      assert IsLiveOf(View(db, tx).slots, s, id);
      if s in db.slots { assert SlotMoves(db.slots[s], View(db, tx).slots[s]); }
      CancelIs(db, h, tx, s, Stamp(now, tx.actor, LINE_USER_ROLE, None), m.tx.pc);
      CancelOne(db, tx, m.tx, s, Stamp(now, tx.actor, LINE_USER_ROLE, None), id);
    }
  }

  // ---- Settling ----

  lemma RejectWhole(db: Db, h: Held, tx: Tx, r: Id)
    requires WholeAt(db, r) && TxWhole(db, tx, r) && tx.pc.RejectPending?
    ensures KeepsWhole(db, r, SettleNext(db, h, tx))
  {
    var m := SettleNext(db, h, tx);
    UnwrittenView(db, tx);
    if m.Goto? { FlipWhole(db, tx, m.tx, tx.pc.id, RejectedRow(db.requests[tx.pc.id], Typed(tx.pc.reason)), r); }
  }

  lemma WithdrawEndWhole(db: Db, h: Held, tx: Tx, r: Id)
    requires DataOk(db, tx) && WholeAt(db, r) && TxWhole(db, tx, r) && tx.pc.WithdrawFlipped?
    ensures KeepsWhole(db, r, SettleNext(db, h, tx))
  {
    var m := SettleNext(db, h, tx);
    if m.Goto? {
      var v := View(db, tx);
      assert View(db, m.tx) == v;
      if tx.pc.id != r {
        assert !HoldsSlotOf(tx, r) && r !in tx.rows;
        UntouchedWhole(db, tx, r);
      }
    }
  }

  lemma WithdrawFlipWhole(db: Db, h: Held, tx: Tx, r: Id)
    requires TxWhole(db, tx, r) && tx.pc.WithdrawPending?
    ensures KeepsWhole(db, r, SettleNext(db, h, tx))
  {
    UnwrittenView(db, tx);
  }

  lemma SameViewWhole(db: Db, tx: Tx, tx': Tx, r: Id)
    requires tx'.rows == tx.rows && tx'.slots == tx.slots && tx'.lock == tx.lock
    requires WholeAt(View(db, tx), r) && RowWithSlots(db, tx, r)
    ensures WholeAt(View(db, tx'), r) && RowWithSlots(db, tx', r)
  {
  }

  lemma DecidedWhole(db: Db, h: Held, tx: Tx, r: Id)
    requires TxWhole(db, tx, r) && (tx.pc.Rejecting? || tx.pc.Expiring?)
    ensures KeepsWhole(db, r, SettleNext(db, h, tx))
  {
    match tx.pc
    case Rejecting(todo, reported) => SameViewWhole(db, tx, tx.(pc := Finished(reported)), r);
    case Expiring(_) => SameViewWhole(db, tx, tx.(pc := Finished({})), r);
    case _ =>
  }

  lemma SettleReadWhole(db: Db, h: Held, tx: Tx, r: Id)
    requires TxWhole(db, tx, r) && (tx.pc.RejectBegun? || tx.pc.WithdrawBegun?)
    ensures KeepsWhole(db, r, SettleNext(db, h, tx))
  {
  }

  lemma SettleWhole(db: Db, h: Held, tx: Tx, r: Id)
    requires DataOk(db, tx) && WholeAt(db, r) && TxWhole(db, tx, r)
    ensures KeepsWhole(db, r, SettleNext(db, h, tx))
  {
    match tx.pc
    case RejectBegun(_, _) | WithdrawBegun(_) => SettleReadWhole(db, h, tx, r);
    case RejectPending(_, _) => RejectWhole(db, h, tx, r);
    case WithdrawPending(_) => WithdrawFlipWhole(db, h, tx, r);
    case WithdrawFlipped(_) => WithdrawEndWhole(db, h, tx, r);
    case Rejecting(_, _) | Expiring(_) => DecidedWhole(db, h, tx, r);
    case _ =>
  }

  lemma RowMoveWhole(db: Db, h: Held, tx: Tx, x: Id, r: Id)
    requires TxWhole(db, tx, r)
    ensures KeepsWhole(db, r, RowMove(db, h, tx, x))
  {
    var m := RowMove(db, h, tx, x);
    if m.Goto? {
      var v := View(db, tx);
      if v.requests[x].status == Pending {
        FlipWhole(db, tx, m.tx, x, m.tx.rows[x], r);
      } else {
        assert View(db, m.tx) == v;
      }
    }
  }

  lemma StartWhole(db: Db, tx: Tx, r: Id)
    requires Starts(tx.pc) && Unwritten(tx) && tx.lock == None && WholeAt(db, r)
    ensures TxWhole(db, tx, r)
  {
    UnwrittenView(db, tx);
  }
}
