// What holds in every interleaving of the booking transactions, and what two of them can do to each
// other when neither takes the venue lock.
module BookingRaceResults {
  import opened Wrappers
  import opened BookingOverlap
  import opened BookingModel
  import opened BookingRuns
  import opened BookingRace
  import opened BookingRaceSafety
  import opened BookingRaceSteps

  // In every interleaving and under any lock hash, two live slots of approved requests at one venue
  // never share an instant. The database's own exclusion constraint is not part of the model.
  lemma NeverDoubleBooked(hash: Id -> int, events: seq<Event>, s: Id, t: Id, at: int)
    requires var db := BookingRace.Run(hash, events).db;
      s != t && Holds(db, s) && Holds(db, t) && db.slots[s].venue == db.slots[t].venue
    ensures var db := BookingRace.Run(hash, events).db;
      Contains(db.slots[s].span, at) ==> !Contains(db.slots[t].span, at)
  {
    RaceKeepsInv(hash, events);
    assert Apart(BookingRace.Run(hash, events).db, s, t);
  }

  // ---- Rows move along the edges, in every interleaving ----

  lemma OnlyCommitsWrite(hash: Id -> int, s: State, e: Event)
    ensures Step(hash, s, e).db == if e.Commit? && e.t in s.txs && s.txs[e.t].pc.Finished? then View(s.db, s.txs[e.t]) else s.db
  {
  }

  lemma MovesSelf(db: Db)
    ensures RowsMove(db.requests, db.requests) && SlotsMove(db.slots, db.slots)
  {
  }

  lemma StepMoves(hash: Id -> int, s: State, e: Event)
    requires RaceInv(hash, s)
    ensures RowsMove(s.db.requests, Step(hash, s, e).db.requests)
    ensures SlotsMove(s.db.slots, Step(hash, s, e).db.slots)
  {
    OnlyCommitsWrite(hash, s, e);
    if e.Commit? && e.t in s.txs && s.txs[e.t].pc.Finished? {
      ViewMoves(hash, s, e.t);
    } else {
      MovesSelf(s.db);
    }
  }

  lemma ViewMoves(hash: Id -> int, s: State, t: TxId)
    requires RaceInv(hash, s) && t in s.txs
    ensures RowsMove(s.db.requests, View(s.db, s.txs[t]).requests) && SlotsMove(s.db.slots, View(s.db, s.txs[t]).slots)
  {
    assert TxOk(s.db, s.txs[t]);
  }

  lemma {:induction false} RaceMoves(hash: Id -> int, events: seq<Event>, i: nat)
    requires i <= |events|
    ensures RowsMove(BookingRace.Run(hash, events[..i]).db.requests, BookingRace.Run(hash, events).db.requests)
    ensures SlotsMove(BookingRace.Run(hash, events[..i]).db.slots, BookingRace.Run(hash, events).db.slots)
  {
    if i == |events| {
      assert events[..i] == events;
    } else {
      var before := events[..|events| - 1];
      assert before[..i] == events[..i];
      RaceMoves(hash, before, i);
      RaceKeepsInv(hash, before);
      StepMoves(hash, BookingRace.Run(hash, before), events[|events| - 1]);
      MovesCompose(BookingRace.Run(hash, events[..i]).db, BookingRace.Run(hash, before).db, BookingRace.Run(hash, events).db);
    }
  }

  // No decision is ever overwritten: a settled request keeps its status, an approved one may only be cancelled.
  lemma DecisionsStand(hash: Id -> int, events: seq<Event>, i: nat, r: Id)
    requires i <= |events| && r in BookingRace.Run(hash, events[..i]).db.requests
    ensures r in BookingRace.Run(hash, events).db.requests
    ensures var p, q := BookingRace.Run(hash, events[..i]).db.requests[r].status, BookingRace.Run(hash, events).db.requests[r].status;
      && (p == Rejected || p == Cancelled || p == Expired ==> q == p)
      && (p == Approved ==> q == Approved || q == Cancelled)
  {
    RaceMoves(hash, events, i);
    assert RowMoves(BookingRace.Run(hash, events[..i]).db.requests[r], BookingRace.Run(hash, events).db.requests[r]);
  }

  // ---- What a decision reports ----

  lemma DealtIsSettled(db: Db, tx: Tx, r: Id)
    requires RowsMove(db.requests, View(db, tx).requests) && Dealt(db, tx.rows, r)
    ensures r in View(db, tx).requests && View(db, tx).requests[r].status != Pending
  {
    if r in db.requests { assert RowMoves(db.requests[r], View(db, tx).requests[r]); }
  }

  lemma ReportedIsSettled(hash: Id -> int, s: State, t: TxId, r: Id)
    requires RaceInv(hash, s) && t in s.txs && s.txs[t].pc.Finished? && r in s.txs[t].pc.reported
    ensures r in View(s.db, s.txs[t]).requests && View(s.db, s.txs[t]).requests[r].status != Pending
  {
    assert TxOk(s.db, s.txs[t]);
    DealtIsSettled(s.db, s.txs[t], r);
  }

  // Once a decision commits, every request it reports as auto-rejected has been settled by someone.
  lemma ReportIsSettled(hash: Id -> int, events: seq<Event>, t: TxId, r: Id)
    requires var s := BookingRace.Run(hash, events); t in s.txs && s.txs[t].pc.Finished? && r in s.txs[t].pc.reported
    ensures var s := Step(hash, BookingRace.Run(hash, events), Commit(t));
      r in s.db.requests && s.db.requests[r].status != Pending
  {
    RaceKeepsInv(hash, events);
    ReportedIsSettled(hash, BookingRace.Run(hash, events), t, r);
    OnlyCommitsWrite(hash, BookingRace.Run(hash, events), Commit(t));
  }

  predicate AutoRejected(q: Request) {
    q.status == Rejected && q.rejectReason == Some(AutoRejectedReason)
  }

  function Reported(pc: Pc): set<Id> {
    match pc case Rejecting(_, reported) => reported case Finished(reported) => reported case _ => {}
  }

  ghost predicate AllReported(tx: Tx) {
    && (forall r :: r in tx.rows && AutoRejected(tx.rows[r]) ==> r in Reported(tx.pc))
    && (tx.pc.Rejecting? ==> tx.pc.todo <= tx.pc.reported)
  }

  ghost predicate GoesOnReported(m: Move) {
    m.Goto? ==> AllReported(m.tx)
  }

  lemma FlipReports(db: Db, h: Held, tx: Tx, r: Id, q: Request, pc: Pc)
    requires AllReported(tx) && Reported(tx.pc) == {} && !AutoRejected(q) && !pc.Rejecting? && r in View(db, tx).requests
    ensures GoesOnReported(FlipPending(db, h, tx, r, q, pc))
  {
  }

  lemma ReadReports(tx: Tx, m: Move)
    requires AllReported(tx) && OnlyReads(tx, m)
    requires m.Goto? ==> Reported(tx.pc) <= Reported(m.tx.pc) && !m.tx.pc.Rejecting?
    ensures GoesOnReported(m)
  {
  }

  lemma SettleKeepsReport(db: Db, h: Held, tx: Tx)
    ensures var m := SettleNext(db, h, tx); m.Goto? ==> Reported(tx.pc) <= Reported(m.tx.pc) && !m.tx.pc.Rejecting?
  {
  }

  lemma SettleReports(db: Db, h: Held, tx: Tx)
    requires AllReported(tx)
    ensures GoesOnReported(SettleNext(db, h, tx))
  {
    var v := View(db, tx);
    if tx.pc.RejectPending? {
      var id := tx.pc.id;
      if id in v.requests { FlipReports(db, h, tx, id, RejectedRow(v.requests[id], Typed(tx.pc.reason)), Finished({})); }
    } else if tx.pc.WithdrawPending? {
      var id := tx.pc.id;
      if id in v.requests { FlipReports(db, h, tx, id, v.requests[id].(status := Cancelled), WithdrawFlipped(id)); }
    } else {
      SettleReads(db, h, tx);
      SettleKeepsReport(db, h, tx);
      ReadReports(tx, SettleNext(db, h, tx));
    }
  }

  lemma RowReports(db: Db, h: Held, tx: Tx, r: Id)
    requires AllReported(tx)
    ensures GoesOnReported(RowMove(db, h, tx, r))
  {
  }

  lemma SlotReports(db: Db, h: Held, tx: Tx, s: Id, now: int)
    requires AllReported(tx)
    ensures GoesOnReported(SlotMove(db, h, tx, s, now))
  {
  }

  lemma ApproveReports(hash: Id -> int, db: Db, h: Held, tx: Tx, now: int)
    requires AllReported(tx)
    ensures GoesOnReported(ApproveNext(hash, db, h, tx, now))
  {
  }

  lemma InsertReports(db: Db, h: Held, tx: Tx, b: NewBooking, approver: Option<Id>, now: int, pc: Pc)
    requires AllReported(tx) && Reported(tx.pc) == {} && BookingOk(b) && (pc.Rejecting? ==> pc.todo <= pc.reported)
    ensures GoesOnReported(Insert(db, h, tx, b, approver, now, pc))
  {
    if Mintable(View(db, tx), h, b) { InsertingReports(tx, b, MintedRow(View(db, tx), b, approver, now), pc); }
  }

  lemma InsertingReports(tx: Tx, b: NewBooking, q: Request, pc: Pc)
    requires AllReported(tx) && Reported(tx.pc) == {} && BookingOk(b) && (pc.Rejecting? ==> pc.todo <= pc.reported)
    requires q.status != Rejected
    ensures AllReported(Inserting(tx, b, q, pc))
  {
  }

  lemma CreateReports(hash: Id -> int, db: Db, h: Held, tx: Tx)
    requires AllReported(tx)
    ensures GoesOnReported(CreateNext(hash, db, h, tx))
  {
  }

  lemma InsertNextReports(db: Db, h: Held, tx: Tx, now: int)
    requires AllReported(tx)
    ensures GoesOnReported(InsertNext(db, h, tx, now))
  {
    match tx.pc
    case DirectReady(b, losers) =>
      if BookingOk(b) { InsertReports(db, h, tx, b, Some(tx.actor), now, Rejecting(losers, losers)); }
    case SubmitClear(b) => if BookingOk(b) { InsertReports(db, h, tx, b, None, now, Finished({})); }
    case _ =>
  }

  lemma SummaryNotRejected(db: Db, tx: Tx, id: Id, remaining: set<Span>)
    requires tx.rows == map[] && OnceApproved(db, id)
    ensures id in View(db, tx).requests && !AutoRejected(Summarised(View(db, tx).requests[id], remaining))
  {
  }

  lemma StaffReports(hash: Id -> int, db: Db, h: Held, tx: Tx)
    requires PcOk(db, tx) && AllReported(tx)
    ensures GoesOnReported(StaffNext(hash, db, h, tx))
  {
    if tx.pc.StaffCancelling? { SummaryNotRejected(db, tx, tx.pc.id, tx.pc.kept); }
  }

  lemma SlotNextReports(db: Db, h: Held, tx: Tx, now: int)
    requires PcOk(db, tx) && AllReported(tx)
    ensures GoesOnReported(SlotNext(db, h, tx, now))
  {
    if tx.pc.SlotCounted? { SummaryNotRejected(db, tx, tx.pc.id, tx.pc.remaining); }
  }

  lemma MoveReports(hash: Id -> int, s: State, e: Event)
    requires RaceInv(hash, s) && (e.Next? || e.UpdateRow? || e.UpdateSlot?) && e.t in s.txs && AllReported(s.txs[e.t])
    ensures GoesOnReported(MoveOf(hash, s, e))
  {
    var db, h, tx := s.db, HeldByOthers(hash, s, e.t), s.txs[e.t];
    assert TxOk(db, tx);
    match e
    case Next(t, now) =>
      ApproveReports(hash, db, h, tx, now);
      CreateReports(hash, db, h, tx);
      InsertNextReports(db, h, tx, now);
      StaffReports(hash, db, h, tx);
      SlotNextReports(db, h, tx, now);
      SettleReports(db, h, tx);
      NextIsOne(hash, db, h, tx, now);
    case UpdateRow(t, r) => RowReports(db, h, tx, r);
    case UpdateSlot(t, x, now) => SlotReports(db, h, tx, x, now);
    case _ =>
  }

  lemma {:induction false} RunReports(hash: Id -> int, events: seq<Event>)
    ensures forall t :: t in BookingRace.Run(hash, events).txs ==> AllReported(BookingRace.Run(hash, events).txs[t])
  {
    if events != [] {
      var before, e := events[..|events| - 1], events[|events| - 1];
      RunReports(hash, before);
      RaceKeepsInv(hash, before);
      StepReports(hash, BookingRace.Run(hash, before), e);
    }
  }

  lemma StepReports(hash: Id -> int, s: State, e: Event)
    requires RaceInv(hash, s) && forall t :: t in s.txs ==> AllReported(s.txs[t])
    ensures forall t :: t in Step(hash, s, e).txs ==> AllReported(Step(hash, s, e).txs[t])
  {
    if (e.Next? || e.UpdateRow? || e.UpdateSlot?) && e.t in s.txs { MoveReports(hash, s, e); }
  }

  // Every request a commit turns to auto-rejected is in the list that is returned and announced.
  lemma ReportIsComplete(hash: Id -> int, events: seq<Event>, t: TxId, r: Id)
    requires var s := BookingRace.Run(hash, events); t in s.txs && s.txs[t].pc.Finished?
    requires var s, s' := BookingRace.Run(hash, events), Step(hash, BookingRace.Run(hash, events), Commit(t));
      r in s'.db.requests && AutoRejected(s'.db.requests[r]) && (r in s.db.requests ==> !AutoRejected(s.db.requests[r]))
    ensures r in BookingRace.Run(hash, events).txs[t].pc.reported
  {
    RunReports(hash, events);
    assert AllReported(BookingRace.Run(hash, events).txs[t]);
  }

  // ---- What may happen without the venue lock ----

  lemma OneMore(hash: Id -> int, s: State, events: seq<Event>, e: Event)
    ensures RunFrom(hash, s, events + [e]) == Step(hash, RunFrom(hash, s, events), e)
  {
    assert (events + [e])[..|events|] == events;
  }

  lemma {:induction false} RunOn(hash: Id -> int, s: State, a: seq<Event>, b: seq<Event>)
    ensures RunFrom(hash, s, a + b) == RunFrom(hash, RunFrom(hash, s, a), b)
  {
    if b == [] {
      assert a + b == a;
    } else {
      assert (a + b)[..|a + b| - 1] == a + b[..|b| - 1];
      RunOn(hash, s, a, b[..|b| - 1]);
    }
  }

  // A request somebody may cancel slots of.
  predicate CanCancel(db: Db, user: Id, id: Id, slot: Id) {
    Owned(db, user, id) && db.requests[id].status == Approved && IsLiveOf(db.slots, slot, id)
  }

  predicate SlotHeld(s: State, x: Id) {
    exists u :: u in s.txs && x in s.txs[u].slots
  }

  predicate RowHeld(s: State, r: Id) {
    exists u :: u in s.txs && r in s.txs[u].rows
  }

  function WithTx(s: State, t: TxId, tx: Tx): State {
    s.(txs := s.txs[t := tx])
  }

  function Cancelling(user: Id, pc: Pc, slots: Slots): Tx {
    Tx(user, pc, None, map[], slots)
  }

  // What the others hold does not depend on the transaction itself.
  lemma HeldWithin(hash: Id -> int, s: State, s': State, t: TxId)
    requires forall u :: u in s.txs && u != t ==> u in s'.txs && s'.txs[u] == s.txs[u]
    ensures var a, b := HeldByOthers(hash, s, t), HeldByOthers(hash, s', t);
      a.rows <= b.rows && a.slots <= b.slots && a.keys <= b.keys
  {
    var a, b := HeldByOthers(hash, s, t), HeldByOthers(hash, s', t);
    forall r | r in a.rows ensures r in b.rows {
      var u :| u in s.txs && u != t && r in s.txs[u].rows;
      assert u in s'.txs && r in s'.txs[u].rows;
    }
    forall x | x in a.slots ensures x in b.slots {
      var u :| u in s.txs && u != t && x in s.txs[u].slots;
      assert u in s'.txs && x in s'.txs[u].slots;
    }
    forall k | k in a.keys ensures k in b.keys {
      var u :| u in s.txs && u != t && s.txs[u].lock.Some? && hash(s.txs[u].lock.value) == k;
      assert u in s'.txs && s'.txs[u].lock.Some? && hash(s'.txs[u].lock.value) == k;
    }
  }

  lemma HeldSame(hash: Id -> int, s: State, t: TxId, tx: Tx)
    ensures HeldByOthers(hash, WithTx(s, t, tx), t) == HeldByOthers(hash, s, t)
  {
    HeldWithin(hash, s, WithTx(s, t, tx), t);
    HeldWithin(hash, WithTx(s, t, tx), s, t);
  }

  lemma NextStep(hash: Id -> int, s: State, t: TxId, tx: Tx, now: int)
    ensures var m := NextMove(hash, s.db, HeldByOthers(hash, s, t), tx, now);
      m.Goto? ==> Step(hash, WithTx(s, t, tx), Next(t, now)) == WithTx(s, t, m.tx)
  {
    HeldSame(hash, s, t, tx);
    var m := NextMove(hash, s.db, HeldByOthers(hash, s, t), tx, now);
    if m.Goto? { assert s.txs[t := tx][t := m.tx] == s.txs[t := m.tx]; }
  }

  lemma NotHeld(hash: Id -> int, s: State, t: TxId, x: Id)
    ensures !SlotHeld(s, x) ==> x !in HeldByOthers(hash, s, t).slots
    ensures !RowHeld(s, x) ==> x !in HeldByOthers(hash, s, t).rows
  {
  }

  lemma CommitStep(hash: Id -> int, s: State, t: TxId, tx: Tx)
    requires t !in s.txs && tx.pc.Finished?
    ensures Step(hash, WithTx(s, t, tx), Commit(t)) == State(View(s.db, tx), s.txs)
  {
    assert WithTx(s, t, tx).txs - {t} == s.txs;
  }

  // Statement by statement: the two reads, the guarded update and the recount of a slot cancellation.
  lemma SlotReads(hash: Id -> int, db: Db, h: Held, user: Id, id: Id, slot: Id, cutoff: int)
    requires CanCancel(db, user, id, slot) && db.slots[slot].span.start > cutoff
    ensures NextMove(hash, db, h, Cancelling(user, SlotBegun(id, slot, cutoff), map[]), 0)
         == Goto(Cancelling(user, SlotApproved(id, slot, cutoff), map[]))
    ensures NextMove(hash, db, h, Cancelling(user, SlotApproved(id, slot, cutoff), map[]), 0)
         == Goto(Cancelling(user, SlotChecked(id, slot), map[]))
  {
    UnwrittenView(db, Cancelling(user, SlotBegun(id, slot, cutoff), map[]));
    UnwrittenView(db, Cancelling(user, SlotApproved(id, slot, cutoff), map[]));
  }

  function Gone(db: Db, user: Id, slot: Id): Slots
    requires slot in db.slots
  {
    map[slot := CancelledSlot(db.slots[slot], Stamp(0, user, LINE_USER_ROLE, None))]
  }

  lemma SlotWrites(hash: Id -> int, db: Db, h: Held, user: Id, id: Id, slot: Id)
    requires CanCancel(db, user, id, slot) && slot !in h.slots
    ensures NextMove(hash, db, h, Cancelling(user, SlotChecked(id, slot), map[]), 0)
         == Goto(Cancelling(user, SlotGone(id), Gone(db, user, slot)))
  {
    UnwrittenView(db, Cancelling(user, SlotChecked(id, slot), map[]));
  }

  lemma SlotRecounts(hash: Id -> int, db: Db, h: Held, user: Id, id: Id, slot: Id)
    requires CanCancel(db, user, id, slot)
    ensures NextMove(hash, db, h, Cancelling(user, SlotGone(id), Gone(db, user, slot)), 0)
         == Goto(Cancelling(user, SlotCounted(id, SpansOf(db.slots, LiveSlots(db.slots, id) - {slot})), Gone(db, user, slot)))
  {
    var v := View(db, Cancelling(user, SlotGone(id), Gone(db, user, slot)));
    assert LiveSlots(v.slots, id) == LiveSlots(db.slots, id) - {slot};
    forall s | s in LiveSlots(db.slots, id) - {slot} ensures v.slots[s] == db.slots[s] {}
    BookingInsert.SameSpans(db.slots, v.slots, LiveSlots(db.slots, id) - {slot});
  }

  // All of them, with nobody else in the way.
  lemma CancelHalfway(hash: Id -> int, s: State, t: TxId, user: Id, id: Id, slot: Id) returns (events: seq<Event>)
    requires t !in s.txs && CanCancel(s.db, user, id, slot) && !SlotHeld(s, slot)
    ensures RunFrom(hash, s, events) == WithTx(s, t,
      Cancelling(user, SlotCounted(id, SpansOf(s.db.slots, LiveSlots(s.db.slots, id) - {slot})), Gone(s.db, user, slot)))
  {
    var cutoff := s.db.slots[slot].span.start - 1;
    var h, begin, next := HeldByOthers(hash, s, t), Begin(t, user, SlotBegun(id, slot, cutoff)), Next(t, 0);
    NotHeld(hash, s, t, slot);
    SlotReads(hash, s.db, h, user, id, slot, cutoff);
    SlotWrites(hash, s.db, h, user, id, slot);
    SlotRecounts(hash, s.db, h, user, id, slot);
    NextStep(hash, s, t, Cancelling(user, SlotBegun(id, slot, cutoff), map[]), 0);
    NextStep(hash, s, t, Cancelling(user, SlotApproved(id, slot, cutoff), map[]), 0);
    NextStep(hash, s, t, Cancelling(user, SlotChecked(id, slot), map[]), 0);
    NextStep(hash, s, t, Cancelling(user, SlotGone(id), Gone(s.db, user, slot)), 0);
    FiveSteps(hash, s, begin, next);
    events := [] + [begin] + [next] + [next] + [next] + [next];
  }

  lemma FiveSteps(hash: Id -> int, s: State, a: Event, b: Event)
    ensures RunFrom(hash, s, [] + [a] + [b] + [b] + [b] + [b]) ==
      Step(hash, Step(hash, Step(hash, Step(hash, Step(hash, s, a), b), b), b), b)
  {
    OneMore(hash, s, [], a);
    OneMore(hash, s, [] + [a], b);
    OneMore(hash, s, [] + [a] + [b], b);
    OneMore(hash, s, [] + [a] + [b] + [b], b);
    OneMore(hash, s, [] + [a] + [b] + [b] + [b], b);
  }

  // The last two statements: the request row, then the commit.
  lemma CancelRest(hash: Id -> int, s: State, t: TxId, user: Id, id: Id, remaining: set<Span>, slots: Slots)
    requires t !in s.txs && id in s.db.requests && !RowHeld(s, id)
    ensures RunFrom(hash, WithTx(s, t, Cancelling(user, SlotCounted(id, remaining), slots)), [Next(t, 0), Commit(t)])
         == State(Db(s.db.requests[id := Summarised(s.db.requests[id], remaining)], s.db.slots + slots), s.txs)
  {
    var tx, h := Cancelling(user, SlotCounted(id, remaining), slots), HeldByOthers(hash, s, t);
    var s0, q := WithTx(s, t, tx), Summarised(s.db.requests[id], remaining);
    NotHeld(hash, s, t, id);
    NextStep(hash, s, t, tx, 0);
    var tx' := Tx(user, Finished({}), None, map[id := q], slots);
    SlotEnds(hash, s.db, h, user, id, remaining, slots);
    CommitStep(hash, s, t, tx');
    assert View(s.db, tx').requests == s.db.requests[id := q];
    OneMore(hash, s0, [], Next(t, 0));
    OneMore(hash, s0, [Next(t, 0)], Commit(t));
    assert [] + [Next(t, 0)] == [Next(t, 0)] && [Next(t, 0)] + [Commit(t)] == [Next(t, 0), Commit(t)];
  }

  lemma SlotEnds(hash: Id -> int, db: Db, h: Held, user: Id, id: Id, remaining: set<Span>, slots: Slots)
    requires id in db.requests && id !in h.rows
    ensures NextMove(hash, db, h, Cancelling(user, SlotCounted(id, remaining), slots), 0)
         == Goto(Tx(user, Finished({}), None, map[id := Summarised(db.requests[id], remaining)], slots))
  {
    var tx := Cancelling(user, SlotCounted(id, remaining), slots);
    assert View(db, tx).requests == db.requests;
    assert tx.rows[id := Summarised(db.requests[id], remaining)] == map[id := Summarised(db.requests[id], remaining)];
  }

  // Two slots of one approved request, cancelled at the same time by its owner: each recount still sees
  // the other slot, both succeed, and the request is left APPROVED with nothing live.
  lemma SlotCancelsMayCross(hash: Id -> int, db: Db, user: Id, id: Id, a: Id, b: Id) returns (events: seq<Event>)
    requires Owned(db, user, id) && db.requests[id].status == Approved && a != b && LiveSlots(db.slots, id) == {a, b}
    ensures var s := RunFrom(hash, State(db, map[]), events);
      && s.txs == map[] && id in s.db.requests
      && s.db.requests[id].status == Approved && LiveSlots(s.db.slots, id) == {}
  {
    var s0 := State(db, map[]);
    assert a in LiveSlots(db.slots, id) && b in LiveSlots(db.slots, id);
    var first := CancelHalfway(hash, s0, 1, user, id, a);
    var t1 := Cancelling(user, SlotCounted(id, SpansOf(db.slots, {b})), Gone(db, user, a));
    assert {a, b} - {a} == {b} && {a, b} - {b} == {a};
    var s1 := WithTx(s0, 1, t1);
    var second := CancelHalfway(hash, s1, 2, user, id, b);
    var t2 := Cancelling(user, SlotCounted(id, SpansOf(db.slots, {a})), Gone(db, user, b));
    var s2 := WithTx(s1, 2, t2);
    assert s2 == WithTx(WithTx(s0, 2, t2), 1, t1);
    CancelRest(hash, WithTx(s0, 2, t2), 1, user, id, SpansOf(db.slots, {b}), Gone(db, user, a));
    var db3 := Db(db.requests[id := Summarised(db.requests[id], SpansOf(db.slots, {b}))], db.slots + Gone(db, user, a));
    assert State(db3, WithTx(s0, 2, t2).txs) == WithTx(State(db3, map[]), 2, t2);
    CancelRest(hash, State(db3, map[]), 2, user, id, SpansOf(db.slots, {a}), Gone(db, user, b));
    events := first + second + [Next(1, 0), Commit(1)] + [Next(2, 0), Commit(2)];
    RunOn(hash, s0, first, second);
    RunOn(hash, s0, first + second, [Next(1, 0), Commit(1)]);
    RunOn(hash, s0, first + second + [Next(1, 0), Commit(1)], [Next(2, 0), Commit(2)]);
    assert db.slots[a].span in SpansOf(db.slots, {a}) && db.slots[b].span in SpansOf(db.slots, {b});
    CrossedLive(db, user, id, a, b);
  }

  lemma CrossedLive(db: Db, user: Id, id: Id, a: Id, b: Id)
    requires a != b && LiveSlots(db.slots, id) == {a, b} && a in db.slots && b in db.slots
    ensures LiveSlots(db.slots + Gone(db, user, a) + Gone(db, user, b), id) == {}
  {
    var after := db.slots + Gone(db, user, a) + Gone(db, user, b);
    forall s | s in after ensures !IsLiveOf(after, s, id) {
      if s != a && s != b { assert s !in LiveSlots(db.slots, id); }
    }
  }

  // An operator's rejection from start to end, with nobody else in the way.
  lemma RejectRuns(hash: Id -> int, s: State, u: TxId, operator: Id, r: Id, reason: string) returns (events: seq<Event>)
    requires u !in s.txs && r in s.db.requests && s.db.requests[r].status == Pending && !RowHeld(s, r)
    ensures RunFrom(hash, s, events) ==
      State(Db(s.db.requests[r := RejectedRow(s.db.requests[r], Typed(reason))], s.db.slots), s.txs)
  {
    var q, h := RejectedRow(s.db.requests[r], Typed(reason)), HeldByOthers(hash, s, u);
    NotHeld(hash, s, u, r);
    RejectMoves(hash, s.db, h, operator, r, reason);
    NextStep(hash, s, u, Cancelling(operator, RejectBegun(r, reason), map[]), 0);
    NextStep(hash, s, u, Cancelling(operator, RejectPending(r, reason), map[]), 0);
    var tx := Tx(operator, Finished({}), None, map[r := q], map[]);
    assert View(s.db, tx) == Db(s.db.requests[r := q], s.db.slots);
    CommitStep(hash, s, u, tx);
    FourSteps(hash, s, Begin(u, operator, RejectBegun(r, reason)), Next(u, 0), Commit(u));
    events := [] + [Begin(u, operator, RejectBegun(r, reason))] + [Next(u, 0)] + [Next(u, 0)] + [Commit(u)];
  }

  lemma RejectMoves(hash: Id -> int, db: Db, h: Held, operator: Id, r: Id, reason: string)
    requires r in db.requests && db.requests[r].status == Pending && r !in h.rows
    ensures NextMove(hash, db, h, Cancelling(operator, RejectBegun(r, reason), map[]), 0)
         == Goto(Cancelling(operator, RejectPending(r, reason), map[]))
    ensures NextMove(hash, db, h, Cancelling(operator, RejectPending(r, reason), map[]), 0)
         == Goto(Tx(operator, Finished({}), None, map[r := RejectedRow(db.requests[r], Typed(reason))], map[]))
  {
    UnwrittenView(db, Cancelling(operator, RejectBegun(r, reason), map[]));
    UnwrittenView(db, Cancelling(operator, RejectPending(r, reason), map[]));
  }

  lemma FourSteps(hash: Id -> int, s: State, a: Event, b: Event, c: Event)
    ensures RunFrom(hash, s, [] + [a] + [b] + [b] + [c]) == Step(hash, Step(hash, Step(hash, Step(hash, s, a), b), b), c)
  {
    OneMore(hash, s, [], a);
    OneMore(hash, s, [] + [a], b);
    OneMore(hash, s, [] + [a] + [b], b);
    OneMore(hash, s, [] + [a] + [b] + [b], c);
  }

  // The report may name a request the decision did not reject: between the read of the losers and their
  // update an operator rejects one of them, the guarded update passes it over, and it is reported anyway.
  lemma ReportMayNameAnothersRejection(hash: Id -> int, s: State, t: TxId, u: TxId, operator: Id, r: Id, reason: string)
    returns (events: seq<Event>)
    requires t in s.txs && s.txs[t].pc.Rejecting? && s.txs[t].pc.todo == {r} && r in s.txs[t].pc.reported
    requires u !in s.txs && r in s.db.requests && s.db.requests[r].status == Pending && !RowHeld(s, r)
    ensures var s' := RunFrom(hash, s, events);
      && t in s'.txs && s'.txs[t].pc == Finished(s.txs[t].pc.reported)
      && var db := Step(hash, s', Commit(t)).db;
      r in db.requests && db.requests[r] == RejectedRow(s.db.requests[r], Typed(reason))
  {
    var first := RejectRuns(hash, s, u, operator, r, reason);
    var q := RejectedRow(s.db.requests[r], Typed(reason));
    var s1 := State(Db(s.db.requests[r := q], s.db.slots), s.txs);
    NotHeld(hash, s1, t, r);
    EndsWithout(hash, s1, t, r);
    events := first + ([] + [UpdateRow(t, r)] + [Next(t, 0)]);
    RunOn(hash, s, first, [] + [UpdateRow(t, r)] + [Next(t, 0)]);
    OnlyCommitsWrite(hash, RunFrom(hash, s, events), Commit(t));
  }

  // A decision whose last loser has been settled by someone else reports it and writes nothing to it.
  lemma EndsWithout(hash: Id -> int, s: State, t: TxId, r: Id)
    requires t in s.txs && s.txs[t].pc.Rejecting? && s.txs[t].pc.todo == {r} && r !in s.txs[t].rows
    requires r in s.db.requests && s.db.requests[r].status != Pending && r !in HeldByOthers(hash, s, t).rows
    ensures var tx := s.txs[t].(pc := Finished(s.txs[t].pc.reported));
      && RunFrom(hash, s, [] + [UpdateRow(t, r)] + [Next(t, 0)]) == WithTx(s, t, tx)
      && View(s.db, tx).requests[r] == s.db.requests[r]
  {
    var tx := s.txs[t];
    PassedOver(hash, s, t, r);
    NextStep(hash, s, t, tx.(pc := Rejecting({}, tx.pc.reported)), 0);
    OneMore(hash, s, [], UpdateRow(t, r));
    OneMore(hash, s, [] + [UpdateRow(t, r)], Next(t, 0));
  }

  lemma PassedOver(hash: Id -> int, s: State, t: TxId, r: Id)
    requires t in s.txs && s.txs[t].pc.Rejecting? && s.txs[t].pc.todo == {r} && r !in s.txs[t].rows
    requires r in s.db.requests && s.db.requests[r].status != Pending && r !in HeldByOthers(hash, s, t).rows
    ensures Step(hash, s, UpdateRow(t, r)) == WithTx(s, t, s.txs[t].(pc := Rejecting({}, s.txs[t].pc.reported)))
  {
    assert View(s.db, s.txs[t]).requests[r] == s.db.requests[r];
    assert {r} - {r} == {};
  }
}
