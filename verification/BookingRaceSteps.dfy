// Every statement keeps the invariant of the race, and what follows for any interleaving.
module BookingRaceSteps {
  import opened Wrappers
  import opened BookingOverlap
  import opened BookingModel
  import opened BookingInvariant
  import opened BookingInsert
  import opened BookingRuns
  import opened BookingRace
  import opened BookingRaceSafety

  // ---- Writes ----

  // A write that takes no room.
  lemma ShrinkFits(db: Db, v: Db, w: Db, lock: Option<Id>)
    requires Fits(db, v, lock) && RowsMove(v.requests, w.requests) && SlotsMove(v.slots, w.slots)
    requires v.requests.Keys == w.requests.Keys && v.slots.Keys == w.slots.Keys
    requires forall s :: Holds(w, s) ==> Holds(v, s)
    ensures Fits(db, w, lock)
  {
    MovesCompose(db, v, w);
    ShrinkGood(v, w);
    forall s | s in w.slots ensures SamePlace(v.slots[s], w.slots[s]) { assert SlotMoves(v.slots[s], w.slots[s]); }
    forall s, t | s != t && Holds(w, s) && Holds(w, t) && w.slots[s].venue == w.slots[t].venue ensures Apart(w, s, t) {
      assert Apart(v, s, t);
    }
  }

  lemma ShrinkGood(v: Db, w: Db)
    requires Good(v) && RowsMove(v.requests, w.requests) && SlotsMove(v.slots, w.slots) && v.slots.Keys == w.slots.Keys
    ensures Good(w)
  {
    forall s | s in w.slots ensures Housed(w, s) && SamePlace(v.slots[s], w.slots[s]) {
      assert Housed(v, s) && SlotMoves(v.slots[s], w.slots[s]);
      assert RowMoves(v.requests[v.slots[s].request], w.requests[v.slots[s].request]);
    }
    forall s, t | s in w.slots && t in w.slots && s != t && w.slots[s].request == w.slots[t].request ensures Apart(w, s, t) {
      assert Apart(v, s, t);
    }
  }

  lemma RowFits(db: Db, v: Db, r: Id, q: Request, lock: Option<Id>)
    requires Fits(db, v, lock) && r in v.requests && RowMoves(v.requests[r], q)
    requires q.status == Approved ==> v.requests[r].status == Approved
    ensures Fits(db, Db(v.requests[r := q], v.slots), lock)
  {
    ShrinkFits(db, v, Db(v.requests[r := q], v.slots), lock);
  }

  lemma RowWritten(db: Db, tx: Tx, tx': Tx, r: Id, q: Request)
    requires DataOk(db, tx) && r in View(db, tx).requests && RowMoves(View(db, tx).requests[r], q)
    requires q.status == Approved ==> View(db, tx).requests[r].status == Approved
    requires tx'.rows == tx.rows[r := q] && tx'.slots == tx.slots && tx'.lock == tx.lock
    ensures DataOk(db, tx')
  {
    assert View(db, tx').requests == View(db, tx).requests[r := q];
    RowFits(db, View(db, tx), r, q, tx.lock);
  }

  lemma SlotFits(db: Db, v: Db, s: Id, x: Slot, lock: Option<Id>)
    requires Fits(db, v, lock) && s in v.slots && SlotMoves(v.slots[s], x) && x.isCancelled
    ensures Fits(db, Db(v.requests, v.slots[s := x]), lock)
  {
    ShrinkFits(db, v, Db(v.requests, v.slots[s := x]), lock);
  }

  lemma SlotWritten(db: Db, tx: Tx, tx': Tx, s: Id, x: Slot)
    requires DataOk(db, tx) && s in View(db, tx).slots && SlotMoves(View(db, tx).slots[s], x) && x.isCancelled
    requires tx'.rows == tx.rows && tx'.slots == tx.slots[s := x] && tx'.lock == tx.lock
    ensures DataOk(db, tx')
  {
    SlotInView(db, tx, tx', s, x);
    SlotFits(db, View(db, tx), s, x, tx.lock);
  }

  lemma SlotInView(db: Db, tx: Tx, tx': Tx, s: Id, x: Slot)
    requires tx'.rows == tx.rows && tx'.slots == tx.slots[s := x]
    ensures View(db, tx') == Db(View(db, tx).requests, View(db, tx).slots[s := x])
  {
    assert View(db, tx').slots == View(db, tx).slots[s := x];
  }

  lemma UnwrittenView(db: Db, tx: Tx)
    requires Unwritten(tx)
    ensures View(db, tx) == db
  {
    assert db.requests + tx.rows == db.requests && db.slots + tx.slots == db.slots;
  }

  lemma NothingFits(db: Db, lock: Option<Id>)
    requires Good(db) && Safe(db)
    ensures Fits(db, db, lock)
  {
  }

  // ---- Approving under the lock ----

  lemma ApprovedPair(db: Db, id: Id, q: Request, spans: set<Span>, s: Id, t: Id)
    requires Good(db) && Safe(db) && id in db.requests && q.venue == db.requests[id].venue
    requires LiveSpans(db.slots, id) <= spans && Clashes(db, q.venue, spans, Some(id)) == {}
    requires var w := Db(db.requests[id := q], db.slots);
      s != t && Holds(w, s) && Holds(w, t) && w.slots[s].venue == w.slots[t].venue
    ensures Apart(db, s, t)
  {
    assert Housed(db, s) && Housed(db, t);
    if db.slots[s].request == db.slots[t].request {
      assert Apart(db, s, t);
    } else if db.slots[s].request == id {
      ClearOf(db, id, q.venue, spans, s, t);
    } else if db.slots[t].request == id {
      ClearOf(db, id, q.venue, spans, t, s);
      OverlapSymmetric(db.slots[s].span, db.slots[t].span);
    } else {
      assert Holds(db, s) && Holds(db, t);
    }
  }

  lemma ClearOf(db: Db, id: Id, venue: Id, spans: set<Span>, mine: Id, theirs: Id)
    requires LiveSpans(db.slots, id) <= spans && Clashes(db, venue, spans, Some(id)) == {}
    requires IsLiveOf(db.slots, mine, id) && Holds(db, theirs) && db.slots[theirs].venue == venue && db.slots[theirs].request != id
    ensures Apart(db, mine, theirs)
  {
    LiveSpanOf(db.slots, mine, id);
    assert theirs !in Clashes(db, venue, spans, Some(id));
    OverlapSymmetric(db.slots[mine].span, db.slots[theirs].span);
  }

  lemma ApprovalFits(db: Db, id: Id, q: Request, spans: set<Span>)
    requires Good(db) && Safe(db) && id in db.requests && db.requests[id].status == Pending && RowMoves(db.requests[id], q)
    requires LiveSpans(db.slots, id) <= spans && Clashes(db, q.venue, spans, Some(id)) == {}
    ensures Fits(db, Db(db.requests[id := q], db.slots), Some(q.venue))
  {
    var w := Db(db.requests[id := q], db.slots);
    ShrinkGood(db, w);
    forall s, t | s != t && Holds(w, s) && Holds(w, t) && w.slots[s].venue == w.slots[t].venue ensures Apart(w, s, t) {
      ApprovedPair(db, id, q, spans, s, t);
    }
    forall s | Holds(w, s) && !Holds(db, s) ensures w.slots[s].venue == q.venue {
      assert Housed(db, s);
    }
  }

  // ---- Inserting ----

  predicate FreshFor(db: Db, b: NewBooking)
    requires |b.slotIds| == |b.spans|
    requires forall i, j :: 0 <= i < j < |b.slotIds| ==> b.slotIds[i] != b.slotIds[j]
  {
    b.id !in db.requests && NewSlots(b).Keys !! db.slots.Keys
  }

  lemma OldRequest(db: Db, b: NewBooking, s: Id)
    requires Good(db) && BookingOk(b) && FreshFor(db, b) && s in db.slots
    ensures s !in NewSlots(b) && (db.slots + NewSlots(b))[s] == db.slots[s] && db.slots[s].request in db.requests
    ensures db.slots[s].request != b.id
  {
    assert Housed(db, s);
  }

  lemma InsertedGood(db: Db, b: NewBooking, q: Request)
    requires Good(db) && BookingOk(b) && FreshFor(db, b) && q.venue == b.venue
    ensures Good(Db(db.requests[b.id := q], db.slots + NewSlots(b)))
  {
    var w := Db(db.requests[b.id := q], db.slots + NewSlots(b));
    forall s | s in w.slots ensures Housed(w, s) {
      if s in db.slots { OldRequest(db, b, s); assert Housed(db, s); } else { var i := NewSlotAt(b, s); }
    }
    forall s, t | s in w.slots && t in w.slots && s != t && w.slots[s].request == w.slots[t].request ensures Apart(w, s, t) {
      SameRequest(db, b, q, s, t);
    }
  }

  lemma SameRequest(db: Db, b: NewBooking, q: Request, s: Id, t: Id)
    requires Good(db) && BookingOk(b) && FreshFor(db, b)
    requires var w := Db(db.requests[b.id := q], db.slots + NewSlots(b));
      s in w.slots && t in w.slots && s != t && w.slots[s].request == w.slots[t].request
    ensures Apart(Db(db.requests[b.id := q], db.slots + NewSlots(b)), s, t)
  {
    if s in db.slots { OldRequest(db, b, s); }
    if t in db.slots { OldRequest(db, b, t); }
    if s in db.slots && t in db.slots {
      assert Apart(db, s, t);
    } else if s !in db.slots && t !in db.slots {
      var i := NewSlotAt(b, s);
      var j := NewSlotAt(b, t);
      DisjointEitherWay(b.spans, i, j);
    } else if s in db.slots {
      var j := NewSlotAt(b, t);
    } else {
      var i := NewSlotAt(b, s);
    }
  }

  // A new approved slot next to an old one.
  lemma NewBesideOld(db: Db, b: NewBooking, held: Id, made: Id)
    requires BookingOk(b) && FreshFor(db, b) && Clashes(db, b.venue, SpanSet(b.spans), None) == {}
    requires Holds(db, held) && db.slots[held].venue == b.venue && made in NewSlots(b)
    ensures !Overlaps(db.slots[held].span, NewSlots(b)[made].span)
  {
    var i := NewSlotAt(b, made);
    assert held !in Clashes(db, b.venue, SpanSet(b.spans), None);
    if Overlaps(db.slots[held].span, b.spans[i]) { HitBySpan(b, i, db.slots[held].span); }
  }

  predicate TakesRoomRightly(db: Db, b: NewBooking, q: Request, lock: Option<Id>) {
    && q.venue == b.venue
    && (q.status == Pending
        || (q.status == Approved && lock == Some(b.venue) && Clashes(db, b.venue, SpanSet(b.spans), None) == {}))
  }

  lemma HeldOld(db: Db, b: NewBooking, q: Request, s: Id)
    requires Good(db) && BookingOk(b) && FreshFor(db, b) && s in db.slots
    ensures Holds(Db(db.requests[b.id := q], db.slots + NewSlots(b)), s) <==> Holds(db, s)
  {
    OldRequest(db, b, s);
  }

  lemma InsertedSafe(db: Db, b: NewBooking, q: Request, lock: Option<Id>)
    requires Good(db) && Safe(db) && BookingOk(b) && FreshFor(db, b) && TakesRoomRightly(db, b, q, lock)
    ensures Safe(Db(db.requests[b.id := q], db.slots + NewSlots(b)))
  {
    var w := Db(db.requests[b.id := q], db.slots + NewSlots(b));
    InsertedGood(db, b, q);
    forall s, t | s != t && Holds(w, s) && Holds(w, t) && w.slots[s].venue == w.slots[t].venue ensures Apart(w, s, t) {
      InsertedSafePair(db, b, q, lock, s, t);
    }
  }

  lemma InsertedSafePair(db: Db, b: NewBooking, q: Request, lock: Option<Id>, s: Id, t: Id)
    requires Good(db) && Safe(db) && BookingOk(b) && FreshFor(db, b) && TakesRoomRightly(db, b, q, lock)
    requires var w := Db(db.requests[b.id := q], db.slots + NewSlots(b));
      Good(w) && s != t && Holds(w, s) && Holds(w, t) && w.slots[s].venue == w.slots[t].venue
    ensures Apart(Db(db.requests[b.id := q], db.slots + NewSlots(b)), s, t)
  {
    if s in db.slots && t in db.slots {
      OldRequest(db, b, s);
      OldRequest(db, b, t);
      assert Apart(db, s, t);
    } else if s in db.slots {
      OldRequest(db, b, s);
      var j := NewSlotAt(b, t);
      NewBesideOld(db, b, s, t);
    } else if t in db.slots {
      OldRequest(db, b, t);
      var i := NewSlotAt(b, s);
      NewBesideOld(db, b, t, s);
      OverlapSymmetric(db.slots[t].span, b.spans[i]);
    } else {
      var i := NewSlotAt(b, s);
      var j := NewSlotAt(b, t);
      DisjointEitherWay(b.spans, i, j);
    }
  }

  lemma InsertedFits(db: Db, b: NewBooking, q: Request, lock: Option<Id>)
    requires Good(db) && Safe(db) && BookingOk(b) && FreshFor(db, b) && TakesRoomRightly(db, b, q, lock)
    ensures Fits(db, Db(db.requests[b.id := q], db.slots + NewSlots(b)), lock)
  {
    var w := Db(db.requests[b.id := q], db.slots + NewSlots(b));
    InsertedGood(db, b, q);
    InsertedSafe(db, b, q, lock);
    InsertedGrows(db, b, q);
    forall s | Holds(w, s) && !Holds(db, s) ensures lock == Some(w.slots[s].venue) {
      if s in db.slots { HeldOld(db, b, q, s); } else { var i := NewSlotAt(b, s); }
    }
  }

  lemma InsertedGrows(db: Db, b: NewBooking, q: Request)
    requires Good(db) && BookingOk(b) && FreshFor(db, b)
    ensures Grows(db, Db(db.requests[b.id := q], db.slots + NewSlots(b)))
  {
    var w := Db(db.requests[b.id := q], db.slots + NewSlots(b));
    forall s | s in w.slots ensures if s in db.slots then w.slots[s] == db.slots[s] else w.slots[s].request == b.id {
      if s in db.slots { OldRequest(db, b, s); } else { var i := NewSlotAt(b, s); }
    }
  }

  // ---- One statement ----

  // The transaction takes only what nobody else holds.
  ghost predicate Takes(hash: Id -> int, h: Held, tx: Tx, m: Move) {
    m.Goto? ==>
      && (forall r :: r in m.tx.rows && r !in tx.rows ==> r !in h.rows)
      && (forall s :: s in m.tx.slots && s !in tx.slots ==> s !in h.slots)
      && (m.tx.lock == tx.lock || (m.tx.lock.Some? && hash(m.tx.lock.value) !in h.keys))
  }

  ghost predicate KeepsData(db: Db, m: Move) {
    m.Goto? ==> DataOk(db, m.tx)
  }

  ghost predicate KeepsPc(db: Db, m: Move) {
    m.Goto? ==> PcOk(db, m.tx)
  }

  predicate OnlyReads(tx: Tx, m: Move) {
    m.Goto? ==> m.tx.rows == tx.rows && m.tx.slots == tx.slots && m.tx.lock == tx.lock
  }

  lemma ReadKeepsData(db: Db, tx: Tx, m: Move)
    requires DataOk(db, tx) && OnlyReads(tx, m)
    ensures KeepsData(db, m)
  {
  }

  lemma LockKeepsData(hash: Id -> int, db: Db, h: Held, tx: Tx, venue: Id, pc: Pc)
    requires Good(db) && Safe(db) && Unwritten(tx)
    ensures KeepsData(db, Lock(hash, h, tx, venue, pc))
  {
    UnwrittenView(db, tx.(pc := pc, lock := Some(venue)));
    NothingFits(db, Some(venue));
  }

  lemma WriteRowKeepsData(db: Db, h: Held, tx: Tx, r: Id, q: Request, pc: Pc)
    requires DataOk(db, tx) && r in View(db, tx).requests && RowMoves(View(db, tx).requests[r], q)
    requires q.status == Approved ==> View(db, tx).requests[r].status == Approved
    ensures KeepsData(db, WriteRow(h, tx, r, q, pc))
  {
    RowWritten(db, tx, tx.(pc := pc, rows := tx.rows[r := q]), r, q);
  }

  lemma CancelSlotKeepsData(db: Db, h: Held, tx: Tx, s: Id, st: Stamp, pc: Pc)
    requires DataOk(db, tx)
    ensures KeepsData(db, CancelSlot(db, h, tx, s, st, pc))
  {
    var m := CancelSlot(db, h, tx, s, st, pc);
    if m.Goto? { SlotWritten(db, tx, m.tx, s, CancelledSlot(View(db, tx).slots[s], st)); }
  }

  lemma FlipKeepsData(db: Db, h: Held, tx: Tx, r: Id, q: Request, pc: Pc)
    requires DataOk(db, tx) && r in View(db, tx).requests
    requires View(db, tx).requests[r].status == Pending ==> RowMoves(View(db, tx).requests[r], q) && q.status != Approved
    ensures KeepsData(db, FlipPending(db, h, tx, r, q, pc))
  {
    if View(db, tx).requests[r].status == Pending { WriteRowKeepsData(db, h, tx, r, q, pc); }
  }

  lemma InsertView(db: Db, tx: Tx, b: NewBooking, q: Request, pc: Pc)
    requires Unwritten(tx) && BookingOk(b)
    ensures var tx' := Inserting(tx, b, q, pc);
      && View(db, tx') == Db(db.requests[b.id := q], db.slots + NewSlots(b))
      && tx'.rows == map[b.id := q] && tx'.lock == tx.lock && tx'.pc == pc
  {
    assert tx.rows[b.id := q] == map[b.id := q] && tx.slots + NewSlots(b) == NewSlots(b);
  }

  lemma MintableIsFresh(db: Db, h: Held, tx: Tx, b: NewBooking)
    requires Unwritten(tx) && BookingOk(b) && Mintable(View(db, tx), h, b)
    ensures FreshFor(db, b)
  {
    UnwrittenView(db, tx);
  }

  lemma InsertingFits(db: Db, h: Held, tx: Tx, b: NewBooking, q: Request, pc: Pc)
    requires Good(db) && Safe(db) && Unwritten(tx) && BookingOk(b) && Mintable(View(db, tx), h, b)
    requires TakesRoomRightly(db, b, q, tx.lock)
    ensures DataOk(db, Inserting(tx, b, q, pc))
  {
    InsertView(db, tx, b, q, pc);
    MintableIsFresh(db, h, tx, b);
    InsertedFits(db, b, q, tx.lock);
  }

  lemma InsertKeepsData(db: Db, h: Held, tx: Tx, b: NewBooking, approver: Option<Id>, now: int, pc: Pc)
    requires Good(db) && Safe(db) && Unwritten(tx) && BookingOk(b)
    requires approver.Some? ==> tx.lock == Some(b.venue) && Clashes(db, b.venue, SpanSet(b.spans), None) == {}
    ensures KeepsData(db, Insert(db, h, tx, b, approver, now, pc))
  {
    if Mintable(View(db, tx), h, b) {
      InsertingFits(db, h, tx, b, MintedRow(View(db, tx), b, approver, now), pc);
    }
  }

  lemma InsertTakes(hash: Id -> int, db: Db, h: Held, tx: Tx, b: NewBooking, approver: Option<Id>, now: int, pc: Pc)
    requires BookingOk(b)
    ensures Takes(hash, h, tx, Insert(db, h, tx, b, approver, now, pc))
  {
  }

  // ---- approve ----

  lemma ApproveTakes(hash: Id -> int, db: Db, h: Held, tx: Tx, now: int)
    ensures Takes(hash, h, tx, ApproveNext(hash, db, h, tx, now))
  {
  }

  lemma ApproveReads(hash: Id -> int, db: Db, h: Held, tx: Tx, now: int)
    requires !tx.pc.ApproveFound? && !tx.pc.ApproveReady?
    ensures OnlyReads(tx, ApproveNext(hash, db, h, tx, now))
  {
  }

  lemma ApproveFlipKeepsData(hash: Id -> int, db: Db, h: Held, tx: Tx, now: int)
    requires Good(db) && Safe(db) && PcOk(db, tx) && tx.pc.ApproveReady?
    ensures KeepsData(db, ApproveNext(hash, db, h, tx, now))
  {
    var id := tx.pc.id;
    var m := ApproveNext(hash, db, h, tx, now);
    UnwrittenView(db, tx);
    if m.Goto? {
      var q := ApprovedRow(db.requests[id], tx.actor, now);
      assert View(db, m.tx) == Db(db.requests[id := q], db.slots);
      ApprovalFits(db, id, q, tx.pc.spans);
    }
  }

  lemma ApproveKeepsData(hash: Id -> int, db: Db, h: Held, tx: Tx, now: int)
    requires Good(db) && Safe(db) && TxOk(db, tx)
    ensures KeepsData(db, ApproveNext(hash, db, h, tx, now))
  {
    match tx.pc
    case ApproveFound(id, venue) => LockKeepsData(hash, db, h, tx, venue, ApproveLocked(id, venue));
    case ApproveReady(_, _, _, _) => ApproveFlipKeepsData(hash, db, h, tx, now);
    case _ =>
      ApproveReads(hash, db, h, tx, now);
      ReadKeepsData(db, tx, ApproveNext(hash, db, h, tx, now));
  }

  lemma ApproveKeepsPc(hash: Id -> int, db: Db, h: Held, tx: Tx, now: int)
    requires PcOk(db, tx)
    ensures KeepsPc(db, ApproveNext(hash, db, h, tx, now))
  {
    if Unwritten(tx) { UnwrittenView(db, tx); }
  }

  // ---- direct booking and submission ----

  lemma CreateTakes(hash: Id -> int, db: Db, h: Held, tx: Tx)
    ensures Takes(hash, h, tx, CreateNext(hash, db, h, tx))
  {
  }

  lemma CreateReads(hash: Id -> int, db: Db, h: Held, tx: Tx)
    requires !tx.pc.DirectBegun?
    ensures OnlyReads(tx, CreateNext(hash, db, h, tx))
  {
  }

  lemma CreateKeepsData(hash: Id -> int, db: Db, h: Held, tx: Tx)
    requires Good(db) && Safe(db) && TxOk(db, tx)
    ensures KeepsData(db, CreateNext(hash, db, h, tx))
  {
    if tx.pc.DirectBegun? {
      LockKeepsData(hash, db, h, tx, tx.pc.b.venue, DirectLocked(tx.pc.b));
    } else {
      CreateReads(hash, db, h, tx);
      ReadKeepsData(db, tx, CreateNext(hash, db, h, tx));
    }
  }

  lemma CreateKeepsPc(hash: Id -> int, db: Db, h: Held, tx: Tx)
    requires PcOk(db, tx)
    ensures KeepsPc(db, CreateNext(hash, db, h, tx))
  {
    if Unwritten(tx) { UnwrittenView(db, tx); }
  }

  lemma InsertNextTakes(hash: Id -> int, db: Db, h: Held, tx: Tx, now: int)
    ensures Takes(hash, h, tx, InsertNext(db, h, tx, now))
  {
    match tx.pc
    case DirectReady(b, losers) =>
      if BookingOk(b) { InsertTakes(hash, db, h, tx, b, Some(tx.actor), now, Rejecting(losers, losers)); }
    case SubmitClear(b) => if BookingOk(b) { InsertTakes(hash, db, h, tx, b, None, now, Finished({})); }
    case _ =>
  }

  lemma InsertNextKeepsData(db: Db, h: Held, tx: Tx, now: int)
    requires Good(db) && Safe(db) && TxOk(db, tx)
    ensures KeepsData(db, InsertNext(db, h, tx, now))
  {
    match tx.pc
    case DirectReady(b, losers) => InsertKeepsData(db, h, tx, b, Some(tx.actor), now, Rejecting(losers, losers));
    case SubmitClear(b) => InsertKeepsData(db, h, tx, b, None, now, Finished({}));
    case _ =>
  }

  lemma InsertingKeepsPc(db: Db, h: Held, tx: Tx, b: NewBooking, q: Request, losers: set<Id>)
    requires Unwritten(tx) && BookingOk(b) && Mintable(View(db, tx), h, b) && losers <= db.requests.Keys
    ensures PcOk(db, Inserting(tx, b, q, Rejecting(losers, losers))) && PcOk(db, Inserting(tx, b, q, Finished({})))
  {
    InsertView(db, tx, b, q, Rejecting(losers, losers));
    MintableIsFresh(db, h, tx, b);
  }

  lemma InsertKeepsPc(db: Db, h: Held, tx: Tx, b: NewBooking, approver: Option<Id>, now: int, losers: set<Id>)
    requires Unwritten(tx) && BookingOk(b) && losers <= db.requests.Keys
    ensures KeepsPc(db, Insert(db, h, tx, b, approver, now, Rejecting(losers, losers)))
    ensures KeepsPc(db, Insert(db, h, tx, b, approver, now, Finished({})))
  {
    if Mintable(View(db, tx), h, b) {
      InsertingKeepsPc(db, h, tx, b, MintedRow(View(db, tx), b, approver, now), losers);
    }
  }

  lemma InsertNextKeepsPc(db: Db, h: Held, tx: Tx, now: int)
    requires PcOk(db, tx)
    ensures KeepsPc(db, InsertNext(db, h, tx, now))
  {
    match tx.pc
    case DirectReady(b, losers) => InsertKeepsPc(db, h, tx, b, Some(tx.actor), now, losers);
    case SubmitClear(b) => InsertKeepsPc(db, h, tx, b, None, now, {});
    case _ =>
  }

  // ---- cancel ----

  lemma StaffTakes(hash: Id -> int, db: Db, h: Held, tx: Tx)
    ensures Takes(hash, h, tx, StaffNext(hash, db, h, tx))
  {
  }

  lemma StaffReads(hash: Id -> int, db: Db, h: Held, tx: Tx)
    requires !tx.pc.StaffFound? && !tx.pc.StaffCancelling?
    ensures OnlyReads(tx, StaffNext(hash, db, h, tx))
  {
  }

  // The unconditional update that ends a cancellation.
  lemma SummaryKeepsData(db: Db, h: Held, tx: Tx, id: Id, remaining: set<Span>)
    requires DataOk(db, tx) && tx.rows == map[] && OnceApproved(db, id)
    ensures KeepsData(db, WriteRow(h, tx, id, Summarised(View(db, tx).requests[id], remaining), Finished({})))
  {
    WriteRowKeepsData(db, h, tx, id, Summarised(View(db, tx).requests[id], remaining), Finished({}));
  }

  lemma StaffKeepsData(hash: Id -> int, db: Db, h: Held, tx: Tx)
    requires Good(db) && Safe(db) && TxOk(db, tx)
    ensures KeepsData(db, StaffNext(hash, db, h, tx))
  {
    match tx.pc
    case StaffFound(id, venue, slotIds, st) => LockKeepsData(hash, db, h, tx, venue, StaffLocked(id, slotIds, st));
    case StaffCancelling(id, kept, todo, st) => SummaryKeepsData(db, h, tx, id, kept);
    case _ =>
      StaffReads(hash, db, h, tx);
      ReadKeepsData(db, tx, StaffNext(hash, db, h, tx));
  }

  lemma StaffKeepsPc(hash: Id -> int, db: Db, h: Held, tx: Tx)
    requires PcOk(db, tx)
    ensures KeepsPc(db, StaffNext(hash, db, h, tx))
  {
    if Unwritten(tx) { UnwrittenView(db, tx); }
  }

  lemma SlotTakes(hash: Id -> int, db: Db, h: Held, tx: Tx, now: int)
    ensures Takes(hash, h, tx, SlotNext(db, h, tx, now))
  {
  }

  lemma SlotKeepsData(db: Db, h: Held, tx: Tx, now: int)
    requires TxOk(db, tx)
    ensures KeepsData(db, SlotNext(db, h, tx, now))
  {
    match tx.pc
    case SlotChecked(id, slot) => CancelSlotKeepsData(db, h, tx, slot, Stamp(now, tx.actor, LINE_USER_ROLE, None), SlotGone(id));
    case SlotCounted(id, remaining) => SummaryKeepsData(db, h, tx, id, remaining);
    case _ => ReadKeepsData(db, tx, SlotNext(db, h, tx, now));
  }

  lemma SlotKeepsPc(db: Db, h: Held, tx: Tx, now: int)
    requires PcOk(db, tx)
    ensures KeepsPc(db, SlotNext(db, h, tx, now))
  {
    if Unwritten(tx) { UnwrittenView(db, tx); }
  }

  lemma SlotMoveTakes(hash: Id -> int, db: Db, h: Held, tx: Tx, s: Id, now: int)
    ensures Takes(hash, h, tx, SlotMove(db, h, tx, s, now))
  {
  }

  lemma SlotMoveKeepsData(db: Db, h: Held, tx: Tx, s: Id, now: int)
    requires DataOk(db, tx)
    ensures KeepsData(db, SlotMove(db, h, tx, s, now))
  {
    match tx.pc
    case StaffCancelling(id, kept, todo, st) => CancelSlotKeepsData(db, h, tx, s, st, StaffCancelling(id, kept, todo - {s}, st));
    case WithdrawFlipped(id) =>
      CancelSlotKeepsData(db, h, tx, s, Stamp(now, tx.actor, LINE_USER_ROLE, None), WithdrawFlipped(id));
    case _ =>
  }

  lemma SlotMoveKeepsPc(db: Db, h: Held, tx: Tx, s: Id, now: int)
    requires PcOk(db, tx)
    ensures KeepsPc(db, SlotMove(db, h, tx, s, now))
  {
  }

  // ---- reject, withdraw, expire ----

  lemma SettleTakes(hash: Id -> int, db: Db, h: Held, tx: Tx)
    ensures Takes(hash, h, tx, SettleNext(db, h, tx))
  {
  }

  lemma RejectKeepsData(db: Db, h: Held, tx: Tx)
    requires DataOk(db, tx) && tx.pc.RejectPending?
    ensures KeepsData(db, SettleNext(db, h, tx))
  {
    var v, id := View(db, tx), tx.pc.id;
    if id in v.requests { FlipKeepsData(db, h, tx, id, RejectedRow(v.requests[id], Typed(tx.pc.reason)), Finished({})); }
  }

  lemma WithdrawKeepsData(db: Db, h: Held, tx: Tx)
    requires DataOk(db, tx) && tx.pc.WithdrawPending?
    ensures KeepsData(db, SettleNext(db, h, tx))
  {
    var v, id := View(db, tx), tx.pc.id;
    if id in v.requests { FlipKeepsData(db, h, tx, id, v.requests[id].(status := Cancelled), WithdrawFlipped(id)); }
  }

  lemma SettleReads(db: Db, h: Held, tx: Tx)
    requires !tx.pc.RejectPending? && !tx.pc.WithdrawPending?
    ensures OnlyReads(tx, SettleNext(db, h, tx))
  {
  }

  lemma SettleKeepsData(db: Db, h: Held, tx: Tx)
    requires DataOk(db, tx)
    ensures KeepsData(db, SettleNext(db, h, tx))
  {
    if tx.pc.RejectPending? {
      RejectKeepsData(db, h, tx);
    } else if tx.pc.WithdrawPending? {
      WithdrawKeepsData(db, h, tx);
    } else {
      SettleReads(db, h, tx);
      ReadKeepsData(db, tx, SettleNext(db, h, tx));
    }
  }

  lemma SettleKeepsPc(db: Db, h: Held, tx: Tx)
    requires PcOk(db, tx)
    ensures KeepsPc(db, SettleNext(db, h, tx))
  {
  }

  lemma RowMoveTakes(hash: Id -> int, db: Db, h: Held, tx: Tx, r: Id)
    ensures Takes(hash, h, tx, RowMove(db, h, tx, r))
  {
  }

  lemma RowMoveKeepsData(db: Db, h: Held, tx: Tx, r: Id)
    requires DataOk(db, tx)
    ensures KeepsData(db, RowMove(db, h, tx, r))
  {
    var v := View(db, tx);
    var m := RowMove(db, h, tx, r);
    if m.Goto? && v.requests[r].status == Pending {
      WriteRowKeepsData(db, h, tx, r, m.tx.rows[r], m.tx.pc);
    } else {
      ReadKeepsData(db, tx, m);
    }
  }

  lemma RowMoveKeepsPc(db: Db, h: Held, tx: Tx, r: Id)
    requires PcOk(db, tx)
    ensures KeepsPc(db, RowMove(db, h, tx, r))
  {
    var m := RowMove(db, h, tx, r);
    if m.Goto? && tx.pc.Rejecting? {
      forall x | x in m.tx.pc.reported - m.tx.pc.todo ensures Dealt(db, m.tx.rows, x) {
        if x != r { assert x in tx.pc.reported - tx.pc.todo; }
      }
    }
  }

  // ---- Any statement ----

  ghost predicate Keeps(hash: Id -> int, db: Db, h: Held, tx: Tx, m: Move) {
    Takes(hash, h, tx, m) && (m.Goto? ==> TxOk(db, m.tx))
  }

  lemma ApproveKeeps(hash: Id -> int, db: Db, h: Held, tx: Tx, now: int)
    requires Good(db) && Safe(db) && TxOk(db, tx)
    ensures Keeps(hash, db, h, tx, ApproveNext(hash, db, h, tx, now))
  {
    ApproveTakes(hash, db, h, tx, now);
    ApproveKeepsData(hash, db, h, tx, now);
    ApproveKeepsPc(hash, db, h, tx, now);
  }

  lemma CreateKeeps(hash: Id -> int, db: Db, h: Held, tx: Tx)
    requires Good(db) && Safe(db) && TxOk(db, tx)
    ensures Keeps(hash, db, h, tx, CreateNext(hash, db, h, tx))
  {
    CreateTakes(hash, db, h, tx);
    CreateKeepsData(hash, db, h, tx);
    CreateKeepsPc(hash, db, h, tx);
  }

  lemma InsertKeeps(hash: Id -> int, db: Db, h: Held, tx: Tx, now: int)
    requires Good(db) && Safe(db) && TxOk(db, tx)
    ensures Keeps(hash, db, h, tx, InsertNext(db, h, tx, now))
  {
    InsertNextTakes(hash, db, h, tx, now);
    InsertNextKeepsData(db, h, tx, now);
    InsertNextKeepsPc(db, h, tx, now);
  }

  lemma StaffKeeps(hash: Id -> int, db: Db, h: Held, tx: Tx)
    requires Good(db) && Safe(db) && TxOk(db, tx)
    ensures Keeps(hash, db, h, tx, StaffNext(hash, db, h, tx))
  {
    StaffTakes(hash, db, h, tx);
    StaffKeepsData(hash, db, h, tx);
    StaffKeepsPc(hash, db, h, tx);
  }

  lemma SlotKeeps(hash: Id -> int, db: Db, h: Held, tx: Tx, now: int)
    requires TxOk(db, tx)
    ensures Keeps(hash, db, h, tx, SlotNext(db, h, tx, now))
  {
    SlotTakes(hash, db, h, tx, now);
    SlotKeepsData(db, h, tx, now);
    SlotKeepsPc(db, h, tx, now);
  }

  lemma SettleKeeps(hash: Id -> int, db: Db, h: Held, tx: Tx)
    requires TxOk(db, tx)
    ensures Keeps(hash, db, h, tx, SettleNext(db, h, tx))
  {
    SettleTakes(hash, db, h, tx);
    SettleKeepsData(db, h, tx);
    SettleKeepsPc(db, h, tx);
  }

  lemma NextKeeps(hash: Id -> int, db: Db, h: Held, tx: Tx, now: int)
    requires Good(db) && Safe(db) && TxOk(db, tx)
    ensures Keeps(hash, db, h, tx, NextMove(hash, db, h, tx, now))
  {
    ApproveKeeps(hash, db, h, tx, now);
    CreateKeeps(hash, db, h, tx);
    InsertKeeps(hash, db, h, tx, now);
    StaffKeeps(hash, db, h, tx);
    SlotKeeps(hash, db, h, tx, now);
    SettleKeeps(hash, db, h, tx);
    NextIsOne(hash, db, h, tx, now);
  }

  lemma NextIsOne(hash: Id -> int, db: Db, h: Held, tx: Tx, now: int)
    ensures var m := NextMove(hash, db, h, tx, now);
      || m == ApproveNext(hash, db, h, tx, now) || m == CreateNext(hash, db, h, tx) || m == InsertNext(db, h, tx, now)
      || m == StaffNext(hash, db, h, tx) || m == SlotNext(db, h, tx, now) || m == SettleNext(db, h, tx)
  {
  }

  lemma MoveKeeps(hash: Id -> int, s: State, e: Event)
    requires RaceInv(hash, s) && (e.Next? || e.UpdateRow? || e.UpdateSlot?) && e.t in s.txs
    ensures Keeps(hash, s.db, HeldByOthers(hash, s, e.t), s.txs[e.t], MoveOf(hash, s, e))
  {
    var db, h, tx := s.db, HeldByOthers(hash, s, e.t), s.txs[e.t];
    assert TxOk(db, tx);
    match e
    case Next(t, now) => NextKeeps(hash, db, h, tx, now);
    case UpdateRow(t, r) =>
      RowMoveTakes(hash, db, h, tx, r);
      RowMoveKeepsData(db, h, tx, r);
      RowMoveKeepsPc(db, h, tx, r);
    case UpdateSlot(t, x, now) =>
      SlotMoveTakes(hash, db, h, tx, x, now);
      SlotMoveKeepsData(db, h, tx, x, now);
      SlotMoveKeepsPc(db, h, tx, x, now);
    case _ =>
  }

  // ---- Steps and runs ----

  lemma TakesStaysCompatible(hash: Id -> int, s: State, t: TxId, tx: Tx, u: TxId)
    requires t in s.txs && u in s.txs && u != t && Compatible(hash, s.txs[t], s.txs[u])
    requires Takes(hash, HeldByOthers(hash, s, t), s.txs[t], Goto(tx))
    ensures Compatible(hash, tx, s.txs[u]) && Compatible(hash, s.txs[u], tx)
  {
    var h, other := HeldByOthers(hash, s, t), s.txs[u];
    assert forall r :: r in other.rows ==> r in h.rows;
    assert forall x :: x in other.slots ==> x in h.slots;
    assert other.lock.Some? ==> hash(other.lock.value) in h.keys;
  }

  lemma GotoKeepsInv(hash: Id -> int, s: State, t: TxId, tx: Tx)
    requires RaceInv(hash, s) && t in s.txs && TxOk(s.db, tx)
    requires Takes(hash, HeldByOthers(hash, s, t), s.txs[t], Goto(tx))
    ensures RaceInv(hash, s.(txs := s.txs[t := tx]))
  {
    forall u | u in s.txs && u != t ensures Compatible(hash, tx, s.txs[u]) && Compatible(hash, s.txs[u], tx) {
      TakesStaysCompatible(hash, s, t, tx, u);
    }
    ReplaceTx(hash, s, t, tx);
  }

  lemma ReplaceTx(hash: Id -> int, s: State, t: TxId, tx: Tx)
    requires RaceInv(hash, s) && TxOk(s.db, tx)
    requires forall u :: u in s.txs && u != t ==> Compatible(hash, tx, s.txs[u]) && Compatible(hash, s.txs[u], tx)
    ensures RaceInv(hash, s.(txs := s.txs[t := tx]))
  {
  }

  lemma BeginKeepsInv(hash: Id -> int, s: State, t: TxId, actor: Id, pc: Pc)
    requires RaceInv(hash, s) && Starts(pc)
    ensures RaceInv(hash, s.(txs := s.txs[t := Tx(actor, pc, None, map[], map[])]))
  {
    var tx := Tx(actor, pc, None, map[], map[]);
    UnwrittenView(s.db, tx);
    NothingFits(s.db, None);
    StartOk(s.db, tx);
    ReplaceTx(hash, s, t, tx);
  }

  lemma StartOk(db: Db, tx: Tx)
    requires Starts(tx.pc) && Unwritten(tx)
    ensures PcOk(db, tx)
  {
  }

  lemma RemoveKeepsInv(hash: Id -> int, s: State, t: TxId)
    requires RaceInv(hash, s)
    ensures RaceInv(hash, s.(txs := s.txs - {t}))
  {
  }

  lemma CommitKeepsInv(hash: Id -> int, s: State, t: TxId)
    requires RaceInv(hash, s) && t in s.txs
    ensures RaceInv(hash, State(View(s.db, s.txs[t]), s.txs - {t}))
  {
    assert TxOk(s.db, s.txs[t]);
    forall u | u in s.txs && u != t ensures TxOk(View(s.db, s.txs[t]), s.txs[u]) {
      CommitKeepsTx(hash, s.db, s.txs[t], s.txs[u]);
    }
    CommitRest(hash, s, t, View(s.db, s.txs[t]));
  }

  lemma CommitRest(hash: Id -> int, s: State, t: TxId, db: Db)
    requires RaceInv(hash, s) && Good(db) && Safe(db)
    requires forall u :: u in s.txs && u != t ==> TxOk(db, s.txs[u])
    ensures RaceInv(hash, State(db, s.txs - {t}))
  {
  }

  lemma StepKeepsInv(hash: Id -> int, s: State, e: Event)
    requires RaceInv(hash, s)
    ensures RaceInv(hash, Step(hash, s, e))
  {
    match e
    case Begin(t, actor, pc) => if t !in s.txs && Starts(pc) { BeginKeepsInv(hash, s, t, actor, pc); }
    case Commit(t) => if t in s.txs && s.txs[t].pc.Finished? { CommitKeepsInv(hash, s, t); }
    case Abort(t) => RemoveKeepsInv(hash, s, t);
    case _ =>
      if e.t in s.txs {
        MoveKeeps(hash, s, e);
        ApplyKeepsRace(hash, s, e.t, MoveOf(hash, s, e));
      }
  }

  lemma ApplyKeepsRace(hash: Id -> int, s: State, t: TxId, m: Move)
    requires RaceInv(hash, s) && t in s.txs && Keeps(hash, s.db, HeldByOthers(hash, s, t), s.txs[t], m)
    ensures RaceInv(hash, BookingRace.Apply(s, t, m))
  {
    match m
    case Wait =>
    case Goto(tx) => GotoKeepsInv(hash, s, t, tx);
    case Refuse => RemoveKeepsInv(hash, s, t);
  }

  lemma {:induction false} RunFromKeepsInv(hash: Id -> int, s: State, events: seq<Event>)
    requires RaceInv(hash, s)
    ensures RaceInv(hash, RunFrom(hash, s, events))
  {
    if events != [] {
      RunFromKeepsInv(hash, s, events[..|events| - 1]);
      StepKeepsInv(hash, RunFrom(hash, s, events[..|events| - 1]), events[|events| - 1]);
    }
  }

  lemma RaceKeepsInv(hash: Id -> int, events: seq<Event>)
    ensures RaceInv(hash, BookingRace.Run(hash, events))
  {
    RunFromKeepsInv(hash, State(Db(map[], map[]), map[]), events);
  }
}
