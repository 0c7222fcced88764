// Two runs from empty tables in which transactions that hold no venue lock get in each other's way.
module BookingRaceWitness {
  import opened Wrappers
  import opened BookingOverlap
  import opened BookingModel
  import opened BookingInsert
  import opened BookingRace
  import opened BookingRaceSafety
  import opened BookingRaceSteps
  import opened BookingRaceResults

  function Tables(db: Db): State {
    State(db, map[])
  }

  const EMPTY := Db(map[], map[])

  lemma NobodyHolds(hash: Id -> int, db: Db, t: TxId)
    ensures HeldByOthers(hash, Tables(db), t) == Held({}, {}, {})
  {
    var h := HeldByOthers(hash, Tables(db), t);
    assert h.rows == {} && h.slots == {} && h.keys == {};
  }

  // ---- A staff booking, statement by statement ----

  function DirectTx(actor: Id, b: NewBooking, pc: Pc): Tx {
    Tx(actor, pc, Some(b.venue), map[], map[])
  }

  predicate Free(db: Db, b: NewBooking) {
    Clashes(db, b.venue, SpanSet(b.spans), None) == {}
  }

  lemma DirectReads(hash: Id -> int, db: Db, actor: Id, b: NewBooking)
    requires Free(db, b)
    ensures var h, losers := Held({}, {}, {}), Losers(db, b.venue, SpanSet(b.spans), None);
      && NextMove(hash, db, h, Tx(actor, DirectBegun(b), None, map[], map[]), 0) == Goto(DirectTx(actor, b, DirectLocked(b)))
      && NextMove(hash, db, h, DirectTx(actor, b, DirectLocked(b)), 0) == Goto(DirectTx(actor, b, DirectClear(b)))
      && NextMove(hash, db, h, DirectTx(actor, b, DirectClear(b)), 0) == Goto(DirectTx(actor, b, DirectReady(b, losers)))
  {
    UnwrittenView(db, DirectTx(actor, b, DirectLocked(b)));
    UnwrittenView(db, DirectTx(actor, b, DirectClear(b)));
  }

  ghost function DirectInserted(db: Db, actor: Id, b: NewBooking, pc: Pc): (tx: Tx)
    requires BookingOk(b)
    ensures tx.pc == pc && tx.lock == Some(b.venue) && tx.rows.Keys == {b.id}
  {
    Tx(actor, pc, Some(b.venue), map[b.id := MintedRow(db, b, Some(actor), 0)], NewSlots(b))
  }

  lemma InsertingIs(tx: Tx, b: NewBooking, q: Request, pc: Pc)
    requires Unwritten(tx) && BookingOk(b)
    ensures Inserting(tx, b, q, pc) == Tx(tx.actor, pc, tx.lock, map[b.id := q], NewSlots(b))
  {
    assert tx.rows[b.id := q] == map[b.id := q] && tx.slots + NewSlots(b) == NewSlots(b);
  }

  lemma InsertMove(db: Db, tx: Tx, b: NewBooking, approver: Option<Id>, pc: Pc)
    requires Unwritten(tx) && BookingOk(b) && Mintable(db, Held({}, {}, {}), b)
    ensures Insert(db, Held({}, {}, {}), tx, b, approver, 0, pc)
         == Goto(Tx(tx.actor, pc, tx.lock, map[b.id := MintedRow(db, b, approver, 0)], NewSlots(b)))
  {
    UnwrittenView(db, tx);
    InsertingIs(tx, b, MintedRow(db, b, approver, 0), pc);
  }

  lemma NextIsInsert(hash: Id -> int, db: Db, h: Held, tx: Tx, now: int)
    requires tx.pc.DirectReady? || tx.pc.SubmitClear?
    ensures NextMove(hash, db, h, tx, now) == InsertNext(db, h, tx, now)
  {
  }

  lemma InsertStep(hash: Id -> int, s: State, t: TxId, tx: Tx, tx': Tx)
    requires tx.pc.DirectReady? || tx.pc.SubmitClear?
    requires InsertNext(s.db, HeldByOthers(hash, s, t), tx, 0) == Goto(tx')
    ensures Step(hash, WithTx(s, t, tx), Next(t, 0)) == WithTx(s, t, tx')
  {
    NextIsInsert(hash, s.db, HeldByOthers(hash, s, t), tx, 0);
    NextStep(hash, s, t, tx, 0);
  }

  lemma DirectInserts(db: Db, actor: Id, b: NewBooking, losers: set<Id>)
    requires BookingOk(b) && Mintable(db, Held({}, {}, {}), b)
    ensures InsertNext(db, Held({}, {}, {}), DirectTx(actor, b, DirectReady(b, losers)), 0)
         == Goto(DirectInserted(db, actor, b, Rejecting(losers, losers)))
  {
    InsertMove(db, DirectTx(actor, b, DirectReady(b, losers)), b, Some(actor), Rejecting(losers, losers));
  }

  lemma OneRowView(db: Db, tx: Tx, id: Id, q: Request)
    requires tx.rows == map[id := q]
    ensures View(db, tx) == Db(db.requests[id := q], db.slots + tx.slots)
  {
    assert db.requests + map[id := q] == db.requests[id := q];
  }

  // As far as the insert: the losers have been read and not yet rejected.
  lemma DirectReaches(hash: Id -> int, db: Db, t: TxId, actor: Id, b: NewBooking) returns (events: seq<Event>)
    requires BookingOk(b) && Mintable(db, Held({}, {}, {}), b) && Free(db, b)
    ensures var losers := Losers(db, b.venue, SpanSet(b.spans), None);
      RunFrom(hash, Tables(db), events) == WithTx(Tables(db), t, DirectInserted(db, actor, b, Rejecting(losers, losers)))
  {
    var s, losers := Tables(db), Losers(db, b.venue, SpanSet(b.spans), None);
    var begin, next := Begin(t, actor, DirectBegun(b)), Next(t, 0);
    NobodyHolds(hash, db, t);
    DirectReads(hash, db, actor, b);
    DirectInserts(db, actor, b, losers);
    NextStep(hash, s, t, Tx(actor, DirectBegun(b), None, map[], map[]), 0);
    NextStep(hash, s, t, DirectTx(actor, b, DirectLocked(b)), 0);
    NextStep(hash, s, t, DirectTx(actor, b, DirectClear(b)), 0);
    InsertStep(hash, s, t, DirectTx(actor, b, DirectReady(b, losers)), DirectInserted(db, actor, b, Rejecting(losers, losers)));
    FiveSteps(hash, s, begin, next);
    events := [] + [begin] + [next] + [next] + [next] + [next];
  }

  lemma DirectEnds(hash: Id -> int, db: Db, t: TxId, tx: Tx)
    requires tx.pc == Rejecting({}, {})
    ensures RunFrom(hash, WithTx(Tables(db), t, tx), [] + [Next(t, 0)] + [Commit(t)]) == Tables(View(db, tx))
  {
    var s, end := Tables(db), tx.(pc := Finished({}));
    NextStep(hash, s, t, tx, 0);
    CommitStep(hash, s, t, end);
    OneMore(hash, WithTx(s, t, tx), [], Next(t, 0));
    OneMore(hash, WithTx(s, t, tx), [] + [Next(t, 0)], Commit(t));
  }

  // With nobody to reject, to its commit.
  lemma DirectRuns(hash: Id -> int, db: Db, t: TxId, actor: Id, b: NewBooking) returns (events: seq<Event>)
    requires BookingOk(b) && Mintable(db, Held({}, {}, {}), b) && Free(db, b)
    requires Losers(db, b.venue, SpanSet(b.spans), None) == {}
    ensures RunFrom(hash, Tables(db), events) ==
      Tables(Db(db.requests[b.id := MintedRow(db, b, Some(actor), 0)], db.slots + NewSlots(b)))
  {
    var first := DirectReaches(hash, db, t, actor, b);
    var tx := DirectInserted(db, actor, b, Rejecting({}, {}));
    DirectEnds(hash, db, t, tx);
    OneRowView(db, tx, b.id, MintedRow(db, b, Some(actor), 0));
    events := first + ([] + [Next(t, 0)] + [Commit(t)]);
    RunOn(hash, Tables(db), first, [] + [Next(t, 0)] + [Commit(t)]);
  }

  // ---- A submission, to its commit ----

  lemma SubmitReads(hash: Id -> int, db: Db, user: Id, b: NewBooking)
    requires Free(db, b)
    ensures NextMove(hash, db, Held({}, {}, {}), Tx(user, SubmitBegun(b), None, map[], map[]), 0)
         == Goto(Tx(user, SubmitClear(b), None, map[], map[]))
  {
    UnwrittenView(db, Tx(user, SubmitBegun(b), None, map[], map[]));
  }

  lemma SubmitInserts(db: Db, user: Id, b: NewBooking)
    requires BookingOk(b) && Mintable(db, Held({}, {}, {}), b)
    ensures InsertNext(db, Held({}, {}, {}), Tx(user, SubmitClear(b), None, map[], map[]), 0)
         == Goto(Tx(user, Finished({}), None, map[b.id := MintedRow(db, b, None, 0)], NewSlots(b)))
  {
    InsertMove(db, Tx(user, SubmitClear(b), None, map[], map[]), b, None, Finished({}));
  }

  lemma Begins(hash: Id -> int, s: State, t: TxId, actor: Id, pc: Pc)
    requires t !in s.txs && Starts(pc)
    ensures Step(hash, s, Begin(t, actor, pc)) == WithTx(s, t, Tx(actor, pc, None, map[], map[]))
  {
  }

  lemma SubmitSteps(hash: Id -> int, db: Db, t: TxId, user: Id, b: NewBooking, tx: Tx)
    requires BookingOk(b) && tx.pc == Finished({})
    requires NextMove(hash, db, Held({}, {}, {}), Tx(user, SubmitBegun(b), None, map[], map[]), 0)
          == Goto(Tx(user, SubmitClear(b), None, map[], map[]))
    requires InsertNext(db, Held({}, {}, {}), Tx(user, SubmitClear(b), None, map[], map[]), 0) == Goto(tx)
    ensures RunFrom(hash, Tables(db), [] + [Begin(t, user, SubmitBegun(b))] + [Next(t, 0)] + [Next(t, 0)] + [Commit(t)])
         == Tables(View(db, tx))
  {
    var s := Tables(db);
    NobodyHolds(hash, db, t);
    Begins(hash, s, t, user, SubmitBegun(b));
    NextStep(hash, s, t, Tx(user, SubmitBegun(b), None, map[], map[]), 0);
    InsertStep(hash, s, t, Tx(user, SubmitClear(b), None, map[], map[]), tx);
    CommitStep(hash, s, t, tx);
    FourSteps(hash, s, Begin(t, user, SubmitBegun(b)), Next(t, 0), Commit(t));
  }

  lemma SubmitRuns(hash: Id -> int, db: Db, t: TxId, user: Id, b: NewBooking) returns (events: seq<Event>)
    requires BookingOk(b) && Mintable(db, Held({}, {}, {}), b) && Free(db, b)
    ensures RunFrom(hash, Tables(db), events) ==
      Tables(Db(db.requests[b.id := MintedRow(db, b, None, 0)], db.slots + NewSlots(b)))
  {
    var tx := Tx(user, Finished({}), None, map[b.id := MintedRow(db, b, None, 0)], NewSlots(b));
    SubmitReads(hash, db, user, b);
    SubmitInserts(db, user, b);
    SubmitSteps(hash, db, t, user, b, tx);
    OneRowView(db, tx, b.id, MintedRow(db, b, None, 0));
    events := [] + [Begin(t, user, SubmitBegun(b))] + [Next(t, 0)] + [Next(t, 0)] + [Commit(t)];
  }

  // ---- From empty tables ----

  lemma EmptyIsFree(b: NewBooking)
    requires BookingOk(b)
    ensures Free(EMPTY, b) && Losers(EMPTY, b.venue, SpanSet(b.spans), None) == {} && Mintable(EMPTY, Held({}, {}, {}), b)
  {
  }

  const DAYS := NewBooking("booking", ["monday", "tuesday"], [Span(0, 1), Span(1, 2)], "hall", Some("owner"), 0)

  lemma DaysOk()
    ensures BookingOk(DAYS) && NewSlots(DAYS).Keys == {"monday", "tuesday"}
  {
    assert DAYS.slotIds[0][0] != DAYS.slotIds[1][0];
    TwoSlots(DAYS);
  }

  lemma TwoSlots(b: NewBooking)
    requires |b.slotIds| == |b.spans| == 2 && b.slotIds[0] != b.slotIds[1]
    ensures NewSlots(b).Keys == {b.slotIds[0], b.slotIds[1]}
  {
  }

  // A two-day booking is made; then its owner cancels both days at the same time.
  lemma SlotCancelsCrossFromEmpty(hash: Id -> int) returns (events: seq<Event>, id: Id)
    ensures var s := BookingRace.Run(hash, events);
      s.txs == map[] && id in s.db.requests && s.db.requests[id].status == Approved && LiveSlots(s.db.slots, id) == {}
  {
    id := DAYS.id;
    DaysOk();
    EmptyIsFree(DAYS);
    var first := DirectRuns(hash, EMPTY, 1, "staff", DAYS);
    var db := Db(EMPTY.requests[id := MintedRow(EMPTY, DAYS, Some("staff"), 0)], EMPTY.slots + NewSlots(DAYS));
    DaysLive(db);
    var second := SlotCancelsMayCross(hash, db, "owner", id, "monday", "tuesday");
    events := first + second;
    RunOn(hash, Tables(EMPTY), first, second);
  }

  lemma DaysLive(db: Db)
    requires db.slots == EMPTY.slots + NewSlots(DAYS) && BookingOk(DAYS) && NewSlots(DAYS).Keys == {"monday", "tuesday"}
    ensures LiveSlots(db.slots, DAYS.id) == {"monday", "tuesday"}
  {
    forall s | s in db.slots ensures IsLiveOf(db.slots, s, DAYS.id) { var i := NewSlotAt(DAYS, s); }
  }

  const REQUESTED := NewBooking("request", ["its slot"], [Span(0, 1)], "hall", Some("owner"), 0)
  const STAFFED := NewBooking("booking", ["a slot"], [Span(0, 1)], "hall", None, 0)

  lemma OneSlotOk()
    ensures BookingOk(REQUESTED) && BookingOk(STAFFED)
    ensures NewSlots(REQUESTED).Keys == {"its slot"} && NewSlots(STAFFED).Keys == {"a slot"}
  {
    assert REQUESTED.slotIds[0] in NewSlots(REQUESTED) && STAFFED.slotIds[0] in NewSlots(STAFFED);
  }

  // A request waits, and a staff booking over it has read its losers.
  lemma RequestAboutToLose(hash: Id -> int) returns (events: seq<Event>, db: Db, tx: Tx)
    ensures BookingRace.Run(hash, events) == WithTx(Tables(db), 2, tx)
    ensures tx.pc == Rejecting({REQUESTED.id}, {REQUESTED.id}) && REQUESTED.id !in tx.rows
    ensures REQUESTED.id in db.requests && db.requests[REQUESTED.id].status == Pending
  {
    OneSlotOk();
    EmptyIsFree(REQUESTED);
    var first := SubmitRuns(hash, EMPTY, 1, "owner", REQUESTED);
    db := Db(EMPTY.requests[REQUESTED.id := MintedRow(EMPTY, REQUESTED, None, 0)], EMPTY.slots + NewSlots(REQUESTED));
    RequestLoses(db);
    var second := DirectReaches(hash, db, 2, "staff", STAFFED);
    tx := DirectInserted(db, "staff", STAFFED, Rejecting({REQUESTED.id}, {REQUESTED.id}));
    assert STAFFED.id[0] != REQUESTED.id[0];
    events := first + second;
    RunOn(hash, Tables(EMPTY), first, second);
  }

  // Then an operator rejects the request before the booking does.
  lemma ReportGoesWrongFromEmpty(hash: Id -> int) returns (events: seq<Event>, t: TxId, r: Id)
    ensures var s := BookingRace.Run(hash, events);
      && t in s.txs && s.txs[t].pc.Finished? && r in s.txs[t].pc.reported
      && var after := Step(hash, s, Commit(t)).db;
      r in after.requests && after.requests[r].status == Rejected && after.requests[r].rejectReason == Some(Typed("no"))
  {
    r, t := REQUESTED.id, 2;
    var before, db, tx := RequestAboutToLose(hash);
    var s := WithTx(Tables(db), t, tx);
    assert !RowHeld(s, r);
    var rest := ReportMayNameAnothersRejection(hash, s, t, 3, "operator", r, "no");
    events := before + rest;
    RunOn(hash, Tables(EMPTY), before, rest);
  }

  lemma RequestLoses(db: Db)
    requires BookingOk(REQUESTED) && BookingOk(STAFFED)
    requires NewSlots(REQUESTED).Keys == {"its slot"} && NewSlots(STAFFED).Keys == {"a slot"}
    requires db == Db(EMPTY.requests[REQUESTED.id := MintedRow(EMPTY, REQUESTED, None, 0)], EMPTY.slots + NewSlots(REQUESTED))
    ensures Free(db, STAFFED) && Mintable(db, Held({}, {}, {}), STAFFED)
    ensures Losers(db, STAFFED.venue, SpanSet(STAFFED.spans), None) == {REQUESTED.id}
  {
    var s := "its slot";
    var i := NewSlotAt(REQUESTED, s);
    assert db.slots[s] == NewSlot(REQUESTED, Span(0, 1));
    assert STAFFED.spans[0] in SpanSet(STAFFED.spans);
    assert Overlaps(db.slots[s].span, Span(0, 1));
    assert Hits(db.slots[s].span, SpanSet(STAFFED.spans));
    assert IsLiveOf(db.slots, s, REQUESTED.id);
    assert IsLoser(db, REQUESTED.id, STAFFED.venue, SpanSet(STAFFED.spans), None);
    assert STAFFED.id[0] != REQUESTED.id[0] && "a slot"[0] != s[0];
  }
}
