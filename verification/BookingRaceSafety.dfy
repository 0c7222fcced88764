// No interleaving books a room twice, whatever the lock hash and with no help from a database constraint.
module BookingRaceSafety {
  import opened Wrappers
  import opened BookingOverlap
  import opened BookingModel
  import opened BookingInvariant
  import opened BookingRuns
  import opened BookingRace

  // ---- The invariant ----

  // Slot `s` occupies its venue.
  predicate Holds(db: Db, s: Id) {
    && s in db.slots && !db.slots[s].isCancelled
    && db.slots[s].request in db.requests && db.requests[db.slots[s].request].status == Approved
  }

  ghost predicate Apart(db: Db, s: Id, t: Id)
    requires s in db.slots && t in db.slots
  {
    !Overlaps(db.slots[s].span, db.slots[t].span)
  }

  ghost predicate Safe(db: Db) {
    forall s, t :: s != t && Holds(db, s) && Holds(db, t) && db.slots[s].venue == db.slots[t].venue ==> Apart(db, s, t)
  }

  predicate Housed(db: Db, s: Id)
    requires s in db.slots
  {
    db.slots[s].request in db.requests && db.slots[s].venue == db.requests[db.slots[s].request].venue
  }

  // Every slot belongs to a request at its venue, and the slots of one request do not overlap.
  ghost predicate Good(db: Db) {
    && (forall s :: s in db.slots ==> Housed(db, s))
    && (forall s, t :: s in db.slots && t in db.slots && s != t && db.slots[s].request == db.slots[t].request ==> Apart(db, s, t))
  }

  ghost predicate NewSlotsNewRows(a: Db, b: Db) {
    forall s :: s in b.slots && s !in a.slots ==> b.slots[s].request !in a.requests
  }

  // From what is committed to what a transaction sees: rows move along the edges, slots are cancelled at
  // most, and whole bookings join.
  ghost predicate Grows(a: Db, b: Db) {
    RowsMove(a.requests, b.requests) && SlotsMove(a.slots, b.slots) && NewSlotsNewRows(a, b)
  }

  // A transaction that makes a slot occupy a venue holds that venue's lock.
  ghost predicate LockCovers(a: Db, b: Db, lock: Option<Id>) {
    forall s :: Holds(b, s) && !Holds(a, s) ==> lock == Some(b.slots[s].venue)
  }

  ghost predicate Fits(db: Db, v: Db, lock: Option<Id>) {
    Grows(db, v) && Good(v) && Safe(v) && LockCovers(db, v, lock)
  }

  ghost predicate DataOk(db: Db, tx: Tx) {
    Fits(db, View(db, tx), tx.lock)
  }

  predicate Unwritten(tx: Tx) {
    tx.rows == map[] && tx.slots == map[]
  }

  predicate IsAt(db: Db, id: Id, venue: Id) {
    id in db.requests && db.requests[id].venue == venue
  }

  predicate OnceApproved(db: Db, id: Id) {
    id in db.requests && (db.requests[id].status == Approved || db.requests[id].status == Cancelled)
  }

  // Each request a decision has reported and dealt with was rejected by it or settled before it.
  ghost predicate Dealt(db: Db, rows: Requests, r: Id) {
    || (r in rows && rows[r].status == Rejected)
    || (r in db.requests && db.requests[r].status != Pending)
  }

  // What a transaction's reads still say about the committed tables.
  ghost predicate PcOk(db: Db, tx: Tx) {
    match tx.pc
    case ApproveBegun(_) => Unwritten(tx)
    case ApproveFound(id, venue) => Unwritten(tx) && IsAt(db, id, venue)
    case ApproveLocked(id, venue) => Unwritten(tx) && IsAt(db, id, venue) && tx.lock == Some(venue)
    case ApprovePending(id, venue) => Unwritten(tx) && IsAt(db, id, venue) && tx.lock == Some(venue)
    case ApproveLive(id, venue, spans) =>
      Unwritten(tx) && IsAt(db, id, venue) && tx.lock == Some(venue) && LiveSpans(db.slots, id) <= spans
    case ApproveClear(id, venue, spans) =>
      && Unwritten(tx) && IsAt(db, id, venue) && tx.lock == Some(venue) && LiveSpans(db.slots, id) <= spans
      && Clashes(db, venue, spans, Some(id)) == {}
    case ApproveReady(id, venue, spans, losers) =>
      && Unwritten(tx) && IsAt(db, id, venue) && tx.lock == Some(venue) && LiveSpans(db.slots, id) <= spans
      && Clashes(db, venue, spans, Some(id)) == {} && id !in losers
    case DirectBegun(b) => Unwritten(tx) && BookingOk(b)
    case DirectLocked(b) => Unwritten(tx) && BookingOk(b) && tx.lock == Some(b.venue)
    case DirectClear(b) =>
      Unwritten(tx) && BookingOk(b) && tx.lock == Some(b.venue) && Clashes(db, b.venue, SpanSet(b.spans), None) == {}
    case DirectReady(b, losers) =>
      && Unwritten(tx) && BookingOk(b) && tx.lock == Some(b.venue) && Clashes(db, b.venue, SpanSet(b.spans), None) == {}
      && losers <= db.requests.Keys
    case SubmitBegun(b) => Unwritten(tx) && BookingOk(b)
    case SubmitClear(b) => Unwritten(tx) && BookingOk(b)
    case StaffBegun(_, _, _) => Unwritten(tx)
    case StaffFound(_, _, _, _) => Unwritten(tx)
    case StaffLocked(_, _, _) => Unwritten(tx)
    case StaffApproved(id, _, _) => tx.rows == map[] && OnceApproved(db, id)
    case StaffCancelling(id, _, _, _) => tx.rows == map[] && OnceApproved(db, id)
    case SlotBegun(_, _, _) => Unwritten(tx)
    case SlotApproved(id, _, _) => tx.rows == map[] && OnceApproved(db, id)
    case SlotChecked(id, _) => tx.rows == map[] && OnceApproved(db, id)
    case SlotGone(id) => tx.rows == map[] && OnceApproved(db, id)
    case SlotCounted(id, _) => tx.rows == map[] && OnceApproved(db, id)
    case Rejecting(todo, reported) =>
      todo !! tx.rows.Keys && forall r :: r in reported - todo ==> Dealt(db, tx.rows, r)
    case Finished(reported) => forall r :: r in reported ==> Dealt(db, tx.rows, r)
    case _ => true
  }

  ghost predicate TxOk(db: Db, tx: Tx) {
    DataOk(db, tx) && PcOk(db, tx)
  }

  // Two transactions hold no row in common and no lock of the same key.
  ghost predicate Compatible(hash: Id -> int, t: Tx, u: Tx) {
    && t.rows.Keys !! u.rows.Keys && t.slots.Keys !! u.slots.Keys
    && (t.lock.Some? && u.lock.Some? ==> hash(t.lock.value) != hash(u.lock.value))
  }

  ghost predicate RaceInv(hash: Id -> int, s: State) {
    && Good(s.db) && Safe(s.db)
    && (forall t :: t in s.txs ==> TxOk(s.db, s.txs[t]))
    && (forall t, u :: t in s.txs && u in s.txs && t != u ==> Compatible(hash, s.txs[t], s.txs[u]))
  }

  // ---- A commit leaves every other transaction in order ----

  // What `u` sees once `t` has committed.
  ghost function Behind(db: Db, t: Tx, u: Tx): Db {
    View(View(db, t), u)
  }

  lemma CommitGrows(hash: Id -> int, db: Db, t: Tx, u: Tx)
    requires Compatible(hash, t, u)
    requires Grows(db, View(db, t)) && Grows(db, View(db, u)) && Good(View(db, u))
    ensures RowsMove(View(db, t).requests, Behind(db, t, u).requests)
    ensures SlotsMove(View(db, t).slots, Behind(db, t, u).slots)
    ensures NewSlotsNewRows(View(db, t), Behind(db, t, u))
  {
    var a, b := View(db, t), Behind(db, t, u);
    forall r | r in a.requests ensures r in b.requests && RowMoves(a.requests[r], b.requests[r]) {
      if r in u.rows { assert RowMoves(db.requests[r], View(db, u).requests[r]); }
    }
    forall s | s in a.slots ensures s in b.slots && SlotMoves(a.slots[s], b.slots[s]) {
      if s in u.slots { assert SlotMoves(db.slots[s], View(db, u).slots[s]); }
    }
    forall s | s in b.slots && s !in a.slots ensures b.slots[s].request !in a.requests {
      assert Housed(View(db, u), s);
    }
  }

  // The row of each slot afterwards is the row one of the two saw.
  lemma CommitHoused(hash: Id -> int, db: Db, t: Tx, u: Tx, s: Id)
    requires Compatible(hash, t, u) && Good(View(db, t)) && Good(View(db, u))
    requires Grows(db, View(db, t)) && Grows(db, View(db, u))
    requires s in Behind(db, t, u).slots
    ensures Housed(Behind(db, t, u), s)
    ensures s in u.slots && s !in db.slots ==> Behind(db, t, u).slots[s].request in u.rows && Behind(db, t, u).slots[s].request !in t.rows
    ensures s !in u.slots && s !in db.slots ==> Behind(db, t, u).slots[s].request in t.rows
    ensures s in db.slots ==> Behind(db, t, u).slots[s].request in db.requests
  {
    var a, b, c := View(db, t), View(db, u), Behind(db, t, u);
    var r := c.slots[s].request;
    if s in u.slots {
      assert Housed(b, s);
      if s in db.slots { assert SlotMoves(db.slots[s], b.slots[s]); }
    } else {
      assert Housed(a, s);
      if s in db.slots { assert SlotMoves(db.slots[s], a.slots[s]); }
    }
    if r in db.requests { assert RowMoves(db.requests[r], a.requests[r]) && RowMoves(db.requests[r], b.requests[r]); }
  }

  lemma CommitDisjoint(hash: Id -> int, db: Db, t: Tx, u: Tx, s1: Id, s2: Id)
    requires Compatible(hash, t, u) && DataOk(db, t) && DataOk(db, u)
    requires s1 in Behind(db, t, u).slots && s2 in Behind(db, t, u).slots && s1 != s2
    requires Behind(db, t, u).slots[s1].request == Behind(db, t, u).slots[s2].request
    ensures Apart(Behind(db, t, u), s1, s2)
  {
    CommitHoused(hash, db, t, u, s1);
    CommitHoused(hash, db, t, u, s2);
    SlotBehind(db, t, u, s1);
    SlotBehind(db, t, u, s2);
    var a, b := View(db, t), View(db, u);
    if s1 in a.slots && s2 in a.slots {
      assert Apart(a, s1, s2);
    } else {
      assert Apart(b, s1, s2);
    }
  }

  // Request, venue and span of a slot are the same in both views and behind them.
  lemma SlotBehind(db: Db, t: Tx, u: Tx, s: Id)
    requires Grows(db, View(db, t)) && Grows(db, View(db, u)) && s in Behind(db, t, u).slots
    requires t.slots.Keys !! u.slots.Keys
    ensures s in View(db, t).slots ==> SamePlace(View(db, t).slots[s], Behind(db, t, u).slots[s])
    ensures s in View(db, u).slots ==> SamePlace(View(db, u).slots[s], Behind(db, t, u).slots[s])
  {
    if s in db.slots { assert SlotMoves(db.slots[s], View(db, t).slots[s]) && SlotMoves(db.slots[s], View(db, u).slots[s]); }
  }

  predicate SamePlace(a: Slot, b: Slot) {
    a.request == b.request && a.venue == b.venue && a.span == b.span
  }

  lemma CommitGood(hash: Id -> int, db: Db, t: Tx, u: Tx)
    requires Compatible(hash, t, u) && DataOk(db, t) && DataOk(db, u)
    ensures Good(Behind(db, t, u))
  {
    var c := Behind(db, t, u);
    forall s | s in c.slots ensures Housed(c, s) { CommitHoused(hash, db, t, u, s); }
    forall s1, s2 | s1 in c.slots && s2 in c.slots && s1 != s2 && c.slots[s1].request == c.slots[s2].request
      ensures Apart(c, s1, s2) { CommitDisjoint(hash, db, t, u, s1, s2); }
  }

  // Whoever holds a room behind the commit held it in one of the two views, unless it was the one that
  // had the lock who took it.
  lemma HoldsBehind(hash: Id -> int, db: Db, t: Tx, u: Tx, s: Id)
    requires Compatible(hash, t, u) && DataOk(db, t) && DataOk(db, u)
    requires Holds(Behind(db, t, u), s)
    ensures Holds(View(db, t), s) || u.lock == Some(Behind(db, t, u).slots[s].venue)
    ensures Holds(View(db, u), s) || t.lock == Some(Behind(db, t, u).slots[s].venue)
  {
    CommitHoused(hash, db, t, u, s);
    SlotBehind(db, t, u, s);
    var a, b, c := View(db, t), View(db, u), Behind(db, t, u);
    var r := c.slots[s].request;
    if s in db.slots {
      LiveBefore(db, t, u, s);
      if r in u.rows {
        assert Holds(b, s);
      } else {
        assert Holds(a, s);
      }
    } else if s in u.slots {
      assert Holds(b, s);
    } else {
      assert Holds(a, s);
    }
  }

  lemma LiveBefore(db: Db, t: Tx, u: Tx, s: Id)
    requires Grows(db, View(db, t)) && Grows(db, View(db, u)) && s in db.slots && !Behind(db, t, u).slots[s].isCancelled
    requires t.slots.Keys !! u.slots.Keys
    ensures !db.slots[s].isCancelled && !View(db, t).slots[s].isCancelled && !View(db, u).slots[s].isCancelled
  {
    assert SlotMoves(db.slots[s], View(db, t).slots[s]) && SlotMoves(db.slots[s], View(db, u).slots[s]);
  }

  lemma CommitSafe(hash: Id -> int, db: Db, t: Tx, u: Tx)
    requires Compatible(hash, t, u) && DataOk(db, t) && DataOk(db, u)
    ensures Safe(Behind(db, t, u))
  {
    var c := Behind(db, t, u);
    forall s1, s2 | s1 != s2 && Holds(c, s1) && Holds(c, s2) && c.slots[s1].venue == c.slots[s2].venue ensures Apart(c, s1, s2) {
      HoldsBehind(hash, db, t, u, s1);
      HoldsBehind(hash, db, t, u, s2);
      SlotBehind(db, t, u, s1);
      SlotBehind(db, t, u, s2);
      if u.lock == Some(c.slots[s1].venue) {
        assert Apart(View(db, u), s1, s2);
      } else {
        assert Apart(View(db, t), s1, s2);
      }
    }
  }

  lemma CommitCovered(hash: Id -> int, db: Db, t: Tx, u: Tx)
    requires Compatible(hash, t, u) && DataOk(db, t) && DataOk(db, u)
    ensures LockCovers(View(db, t), Behind(db, t, u), u.lock)
  {
    forall s | Holds(Behind(db, t, u), s) && !Holds(View(db, t), s) ensures u.lock == Some(Behind(db, t, u).slots[s].venue) {
      HoldsBehind(hash, db, t, u, s);
    }
  }

  lemma CommitKeepsData(hash: Id -> int, db: Db, t: Tx, u: Tx)
    requires Compatible(hash, t, u) && DataOk(db, t) && DataOk(db, u)
    ensures DataOk(View(db, t), u)
  {
    CommitGrows(hash, db, t, u);
    CommitGood(hash, db, t, u);
    CommitSafe(hash, db, t, u);
    CommitCovered(hash, db, t, u);
  }

  // ---- What another transaction has read stays good enough ----

  lemma LiveSpansShrink(a: Db, b: Db, id: Id)
    requires Grows(a, b) && id in a.requests
    ensures LiveSpans(b.slots, id) <= LiveSpans(a.slots, id)
  {
    forall x | x in LiveSpans(b.slots, id) ensures x in LiveSpans(a.slots, id) {
      var s :| s in LiveSlots(b.slots, id) && b.slots[s].span == x;
      assert s in a.slots && SlotMoves(a.slots[s], b.slots[s]);
      LiveSpanOf(a.slots, s, id);
    }
  }

  lemma StaysClear(a: Db, b: Db, lock: Option<Id>, venue: Id, spans: set<Span>, exclude: Option<Id>)
    requires Grows(a, b) && LockCovers(a, b, lock) && lock != Some(venue) && Clashes(a, venue, spans, exclude) == {}
    ensures Clashes(b, venue, spans, exclude) == {}
  {
    forall s | s in b.slots ensures !IsClash(b, s, venue, spans, exclude) {
      if Holds(b, s) && b.slots[s].venue == venue {
        assert Holds(a, s) && SlotMoves(a.slots[s], b.slots[s]);
        assert s !in Clashes(a, venue, spans, exclude);
      }
    }
  }

  lemma StaysAt(a: Db, b: Db, id: Id, venue: Id)
    requires RowsMove(a.requests, b.requests) && IsAt(a, id, venue)
    ensures IsAt(b, id, venue)
  {
    assert RowMoves(a.requests[id], b.requests[id]);
  }

  lemma StaysOnceApproved(a: Db, b: Db, id: Id)
    requires RowsMove(a.requests, b.requests) && OnceApproved(a, id)
    ensures OnceApproved(b, id)
  {
    assert RowMoves(a.requests[id], b.requests[id]);
  }

  lemma StaysDealt(a: Db, b: Db, rows: Requests, r: Id)
    requires RowsMove(a.requests, b.requests) && Dealt(a, rows, r)
    ensures Dealt(b, rows, r)
  {
    if r in a.requests { assert RowMoves(a.requests[r], b.requests[r]); }
  }

  // `b` is what some other transaction, under another lock, commits.
  lemma CommitKeepsPc(a: Db, b: Db, lock: Option<Id>, u: Tx)
    requires Grows(a, b) && LockCovers(a, b, lock) && PcOk(a, u)
    requires lock == None || lock != u.lock
    ensures PcOk(b, u)
  {
    match u.pc
    case ApproveFound(id, venue) => StaysAt(a, b, id, venue);
    case ApproveLocked(id, venue) => StaysAt(a, b, id, venue);
    case ApprovePending(id, venue) => StaysAt(a, b, id, venue);
    case ApproveLive(id, venue, spans) => StaysAt(a, b, id, venue); LiveSpansShrink(a, b, id);
    case ApproveClear(id, venue, spans) => ApproveStays(a, b, lock, id, venue, spans);
    case ApproveReady(id, venue, spans, losers) => ApproveStays(a, b, lock, id, venue, spans);
    case DirectClear(d) => StaysClear(a, b, lock, d.venue, SpanSet(d.spans), None);
    case DirectReady(d, _) => StaysClear(a, b, lock, d.venue, SpanSet(d.spans), None);
    case StaffApproved(id, _, _) => StaysOnceApproved(a, b, id);
    case StaffCancelling(id, _, _, _) => StaysOnceApproved(a, b, id);
    case SlotApproved(id, _, _) => StaysOnceApproved(a, b, id);
    case SlotChecked(id, _) => StaysOnceApproved(a, b, id);
    case SlotGone(id) => StaysOnceApproved(a, b, id);
    case SlotCounted(id, _) => StaysOnceApproved(a, b, id);
    case Rejecting(todo, reported) => forall r | r in reported - todo ensures Dealt(b, u.rows, r) { StaysDealt(a, b, u.rows, r); }
    case Finished(reported) => forall r | r in reported ensures Dealt(b, u.rows, r) { StaysDealt(a, b, u.rows, r); }
    case _ =>
  }

  lemma ApproveStays(a: Db, b: Db, lock: Option<Id>, id: Id, venue: Id, spans: set<Span>)
    requires Grows(a, b) && LockCovers(a, b, lock) && lock != Some(venue)
    requires IsAt(a, id, venue) && LiveSpans(a.slots, id) <= spans && Clashes(a, venue, spans, Some(id)) == {}
    ensures IsAt(b, id, venue) && LiveSpans(b.slots, id) <= spans && Clashes(b, venue, spans, Some(id)) == {}
  {
    StaysAt(a, b, id, venue);
    LiveSpansShrink(a, b, id);
    StaysClear(a, b, lock, venue, spans, Some(id));
  }

  lemma CommitKeepsTx(hash: Id -> int, db: Db, t: Tx, u: Tx)
    requires Compatible(hash, t, u) && TxOk(db, t) && TxOk(db, u)
    ensures TxOk(View(db, t), u)
  {
    CommitKeepsData(hash, db, t, u);
    CommitKeepsPc(db, View(db, t), t.lock, u);
  }
}
