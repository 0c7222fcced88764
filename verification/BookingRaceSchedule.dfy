// A schedule under which a request always follows its slots: no owner's slot cancellation of it is open,
// from its read of the slot to its commit, beside another cancellation of it.
module BookingRaceSchedule {
  import opened Wrappers
  import opened BookingOverlap
  import opened BookingModel
  import opened BookingRuns
  import opened BookingRace
  import opened BookingRaceSafety
  import opened BookingRaceSteps
  import opened BookingRaceSlots
  import opened BookingRaceCounts

  // ---- The schedule ----

  // A cancellation of `r` that has read its slots and not yet ended.
  predicate Open(tx: Tx, r: Id) {
    HoldsSlotOf(tx, r) || (MidCut(tx.pc) && tx.pc.id == r)
  }

  // It is the owner's, which takes no venue lock.
  predicate OwnerOpen(tx: Tx, r: Id) {
    Open(tx, r) && tx.lock == None
  }

  ghost predicate Crossed(s: State, r: Id) {
    exists t, u :: t in s.txs && u in s.txs && t != u && OwnerOpen(s.txs[t], r) && Open(s.txs[u], r)
  }

  ghost predicate NeverCrossed(hash: Id -> int, events: seq<Event>, r: Id) {
    forall i :: 0 <= i <= |events| ==> !Crossed(BookingRace.Run(hash, events[..i]), r)
  }

  // ---- What was counted is still there ----

  ghost predicate Still(db: Db, tx: Tx, r: Id, todo: set<Id>, spans: set<Span>) {
    spans <= SpansOf(View(db, tx).slots, LiveSlots(View(db, tx).slots, r) - todo)
  }

  ghost predicate Exact(db: Db, tx: Tx, c: Option<Count>, r: Id) {
    && (tx.pc.StaffCancelling? && tx.pc.id == r ==> Still(db, tx, r, tx.pc.todo, tx.pc.kept))
    && (tx.pc.SlotCounted? && tx.pc.id == r ==> Still(db, tx, r, {}, tx.pc.remaining))
    && (tx.pc.Finished? && c.Some? && c.value.id == r ==> Still(db, tx, r, {}, c.value.spans))
  }

  // ---- Another transaction commits ----

  // The committing transaction has no slot of a request whose cancellation is open.
  lemma OthersHaveNoSlot(hash: Id -> int, db: Db, u: Tx, t: Tx, r: Id)
    requires Compatible(hash, u, t) && RowWithSlots(db, u, r) && r in db.requests && Open(t, r)
    requires t.lock == None || t.lock == Some(db.requests[r].venue)
    requires !(OwnerOpen(u, r) && Open(t, r)) && !(OwnerOpen(t, r) && Open(u, r))
    ensures !HoldsSlotOf(u, r)
  {
  }

  lemma StillStays(db: Db, u: Tx, t: Tx, r: Id, todo: set<Id>, spans: set<Span>)
    requires Grows(db, View(db, u)) && Grows(db, View(db, t)) && !HoldsSlotOf(u, r) && u.slots.Keys !! t.slots.Keys
    requires Still(db, t, r, todo, spans)
    ensures Still(View(db, u), t, r, todo, spans)
  {
    var a, b := View(db, t).slots, Behind(db, u, t).slots;
    BehindSlots(db, u, t, r);
    SameLive(a, b, r);
    SpansAgree(a, b, LiveSlots(a, r) - todo);
  }

  lemma CommitKeepsExact(hash: Id -> int, db: Db, u: Tx, t: Tx, c: Option<Count>, r: Id)
    requires Compatible(hash, u, t) && DataOk(db, u) && DataOk(db, t) && RowWithSlots(db, u, r)
    requires Known(db, t, c, r) && Exact(db, t, c, r)
    requires !(OwnerOpen(u, r) && Open(t, r)) && !(OwnerOpen(t, r) && Open(u, r))
    ensures Exact(View(db, u), t, c, r)
  {
    if t.pc.StaffCancelling? && t.pc.id == r {
      OthersHaveNoSlot(hash, db, u, t, r);
      StillStays(db, u, t, r, t.pc.todo, t.pc.kept);
    } else if t.pc.SlotCounted? && t.pc.id == r {
      OthersHaveNoSlot(hash, db, u, t, r);
      StillStays(db, u, t, r, {}, t.pc.remaining);
    } else if t.pc.Finished? && c.Some? && c.value.id == r {
      assert r in t.rows;
      StillStays(db, u, t, r, {}, c.value.spans);
    }
  }

  // ---- Each statement ----

  ghost predicate KeepsExact(db: Db, c: Option<Count>, r: Id, m: Move) {
    m.Goto? ==> Exact(db, m.tx, CountAt(m.tx.pc, c), r)
  }

  lemma StaffExact(hash: Id -> int, db: Db, h: Held, tx: Tx, c: Option<Count>, r: Id)
    requires TxWhole(db, tx, r) && Exact(db, tx, c, r) && Recorded(tx.pc, c)
    requires tx.pc.StaffApproved? || tx.pc.StaffCancelling?
    ensures KeepsExact(db, c, r, StaffNext(hash, db, h, tx))
  {
    var m := StaffNext(hash, db, h, tx);
    if m.Goto? { assert View(db, m.tx).slots == View(db, tx).slots; }
  }

  lemma StaffCutExact(db: Db, h: Held, tx: Tx, s: Id, now: int, c: Option<Count>, r: Id)
    requires Known(db, tx, c, r) && Exact(db, tx, c, r) && tx.pc.StaffCancelling?
    ensures KeepsExact(db, c, r, SlotMove(db, h, tx, s, now))
  {
    var m := SlotMove(db, h, tx, s, now);
    if m.Goto? {
      var id, todo := tx.pc.id, tx.pc.todo;
      CancelIs(db, h, tx, s, tx.pc.st, m.tx.pc);
      CutOne(db, tx, m.tx, s, tx.pc.st, id);
      var v, v' := View(db, tx).slots, View(db, m.tx).slots;
      assert LiveSlots(v', id) - (todo - {s}) == LiveSlots(v, id) - todo;
      SpansAgree(v, v', LiveSlots(v, id) - todo);
    }
  }

  lemma OwnerExact(db: Db, h: Held, tx: Tx, now: int, c: Option<Count>, r: Id)
    requires Exact(db, tx, c, r) && Recorded(tx.pc, c) && OfOwner(tx.pc)
    ensures KeepsExact(db, c, r, SlotNext(db, h, tx, now))
  {
    var m := SlotNext(db, h, tx, now);
    if m.Goto? && !tx.pc.SlotChecked? {
      assert View(db, m.tx).slots == View(db, tx).slots;
      var live := LiveSlots(View(db, tx).slots, r);
      assert live - {} == live;
    }
  }

  // No other statement counts anything.
  predicate Uncounted(m: Move) {
    m.Goto? ==> CountAt(m.tx.pc, None) == None
  }

  lemma OthersUncounted(hash: Id -> int, db: Db, h: Held, tx: Tx, now: int)
    requires !OfCancel(tx.pc)
    ensures Uncounted(ApproveNext(hash, db, h, tx, now)) && Uncounted(CreateNext(hash, db, h, tx))
    ensures Uncounted(InsertNext(db, h, tx, now)) && Uncounted(SettleNext(db, h, tx))
  {
  }

  lemma NextExact(hash: Id -> int, db: Db, h: Held, tx: Tx, now: int, c: Option<Count>, r: Id)
    requires Known(db, tx, c, r) && Exact(db, tx, c, r) && Recorded(tx.pc, c)
    ensures KeepsExact(db, c, r, NextMove(hash, db, h, tx, now))
  {
    if !OfCancel(tx.pc) {
      OtherNext(hash, db, h, tx, now);
      OthersUncounted(hash, db, h, tx, now);
    } else {
      CancelNext(hash, db, h, tx, now);
      if OfOwner(tx.pc) { OwnerExact(db, h, tx, now, c, r); }
      else if tx.pc.StaffApproved? || tx.pc.StaffCancelling? { StaffExact(hash, db, h, tx, c, r); }
    }
  }

  lemma UpdatesExact(db: Db, h: Held, tx: Tx, x: Id, now: int, c: Option<Count>, r: Id)
    requires Known(db, tx, c, r) && Exact(db, tx, c, r) && Recorded(tx.pc, c)
    ensures KeepsExact(db, c, r, RowMove(db, h, tx, x)) && KeepsExact(db, c, r, SlotMove(db, h, tx, x, now))
  {
    if tx.pc.StaffCancelling? { StaffCutExact(db, h, tx, x, now, c, r); }
  }

  lemma MoveExact(hash: Id -> int, s: State, e: Event, c: Option<Count>, r: Id)
    requires (e.Next? || e.UpdateRow? || e.UpdateSlot?) && e.t in s.txs
    requires Known(s.db, s.txs[e.t], c, r) && Exact(s.db, s.txs[e.t], c, r) && Recorded(s.txs[e.t].pc, c)
    ensures KeepsExact(s.db, c, r, MoveOf(hash, s, e))
  {
    var db, h, tx := s.db, HeldByOthers(hash, s, e.t), s.txs[e.t];
    match e
    case Next(_, now) => NextExact(hash, db, h, tx, now, c, r);
    case UpdateRow(_, x) => UpdatesExact(db, h, tx, x, 0, c, r);
    case UpdateSlot(_, x, now) => UpdatesExact(db, h, tx, x, now, c, r);
    case _ =>
  }

  // ---- Steps and runs ----

  ghost predicate AllExact(hash: Id -> int, events: seq<Event>, r: Id) {
    var s := BookingRace.Run(hash, events);
    forall t :: t in s.txs ==> Exact(s.db, s.txs[t], Counted(hash, events, t), r)
  }

  lemma CommitExact(hash: Id -> int, s: State, u: TxId, t: TxId, c: Option<Count>, r: Id)
    requires RaceInv(hash, s) && u in s.txs && t in s.txs && t != u && !Crossed(s, r)
    requires Known(s.db, s.txs[t], c, r) && Exact(s.db, s.txs[t], c, r) && RowWithSlots(s.db, s.txs[u], r)
    ensures Exact(View(s.db, s.txs[u]), s.txs[t], c, r)
  {
    assert TxOk(s.db, s.txs[u]) && TxOk(s.db, s.txs[t]) && Compatible(hash, s.txs[u], s.txs[t]);
    CommitKeepsExact(hash, s.db, s.txs[u], s.txs[t], c, r);
  }

  lemma CommitStepExact(hash: Id -> int, before: seq<Event>, e: Event, r: Id)
    requires AllKnown(hash, before, r) && AllExact(hash, before, r) && !Crossed(BookingRace.Run(hash, before), r)
    requires RaceInv(hash, BookingRace.Run(hash, before))
    requires var s := BookingRace.Run(hash, before); e.Commit? && e.t in s.txs && s.txs[e.t].pc.Finished?
    ensures AllExact(hash, before + [e], r)
  {
    var s, s' := BookingRace.Run(hash, before), BookingRace.Run(hash, before + [e]);
    AfterCommit(hash, before, e);
    CommitterWhole(hash, before, e.t, r);
    forall t | t in s'.txs ensures Exact(s'.db, s'.txs[t], Counted(hash, before + [e], t), r) {
      assert Known(s.db, s.txs[t], Counted(hash, before, t), r);
      CommitExact(hash, s, e.t, t, Counted(hash, before, t), r);
      SameCounted(hash, before, e, t);
    }
  }

  lemma OwnStepExact(hash: Id -> int, before: seq<Event>, e: Event, r: Id)
    requires AllKnown(hash, before, r) && AllExact(hash, before, r)
    requires var s := BookingRace.Run(hash, before); !(e.Commit? && e.t in s.txs && s.txs[e.t].pc.Finished?)
    requires e.t in BookingRace.Run(hash, before + [e]).txs
    ensures var s' := BookingRace.Run(hash, before + [e]); Exact(s'.db, s'.txs[e.t], Counted(hash, before + [e], e.t), r)
  {
    var s := BookingRace.Run(hash, before);
    RunSnoc(hash, before, e);
    OthersStay(hash, s, e);
    CountedSnoc(hash, before, e, e.t);
    if e.t in s.txs {
      IsRecorded(hash, before, e.t);
      if Step(hash, s, e).txs[e.t] != s.txs[e.t] { MoveExact(hash, s, e, Counted(hash, before, e.t), r); }
    }
  }

  lemma MoveStepExact(hash: Id -> int, before: seq<Event>, e: Event, r: Id)
    requires AllKnown(hash, before, r) && AllExact(hash, before, r)
    requires var s := BookingRace.Run(hash, before); !(e.Commit? && e.t in s.txs && s.txs[e.t].pc.Finished?)
    ensures AllExact(hash, before + [e], r)
  {
    var s, s' := BookingRace.Run(hash, before), BookingRace.Run(hash, before + [e]);
    RunSnoc(hash, before, e);
    OthersStay(hash, s, e);
    forall t | t in s'.txs ensures Exact(s'.db, s'.txs[t], Counted(hash, before + [e], t), r) {
      if t == e.t {
        OwnStepExact(hash, before, e, r);
      } else {
        SameCounted(hash, before, e, t);
      }
    }
  }

  lemma StillIsFresh(db: Db, tx: Tx, c: Count)
    requires Grows(db, View(db, tx)) && Wrote(db, tx, c) && Still(db, tx, c.id, {}, c.spans)
    ensures Fresh(c.spans, Left(db, tx, c.id))
  {
    CountsAllLeft(db, tx, c);
    var live := LiveSlots(View(db, tx).slots, c.id);
    assert live - {} == live;
  }

  lemma ExactIsFresh(hash: Id -> int, before: seq<Event>, e: Event, r: Id)
    requires AlwaysWhole(hash, before, r) && AllExact(hash, before, r)
    ensures !Overlooks(hash, before, e, r)
  {
    if Overlooks(hash, before, e, r) {
      var s := BookingRace.Run(hash, before);
      var c := Counted(hash, before, e.t).value;
      CommitsWrote(hash, before, e.t, r, c.spans);
      assert Exact(s.db, s.txs[e.t], Some(c), r);
      StillIsFresh(s.db, s.txs[e.t], c);
      assert false;
    }
  }

  lemma {:induction false} UncrossedFollows(hash: Id -> int, events: seq<Event>, r: Id)
    requires NeverCrossed(hash, events, r)
    ensures AlwaysWhole(hash, events, r) && AllExact(hash, events, r)
  {
    if events != [] {
      var before, e := events[..|events| - 1], events[|events| - 1];
      assert events == before + [e] && before[..|before|] == before;
      forall i | 0 <= i <= |before| ensures before[..i] == events[..i] {}
      UncrossedFollows(hash, before, r);
      ExactIsFresh(hash, before, e, r);
      StepKeepsWhole(hash, before, e, r);
      AlwaysSnoc(hash, before, e, r);
      RunKnown(hash, before, r);
      RaceKeepsInv(hash, before);
      var s := BookingRace.Run(hash, before);
      if e.Commit? && e.t in s.txs && s.txs[e.t].pc.Finished? {
        CommitStepExact(hash, before, e, r);
      } else {
        MoveStepExact(hash, before, e, r);
      }
    }
  }

  // ---- Main result ----

  // In every interleaving in which no owner's slot cancellation of `r` is open beside another cancellation
  // of `r`: the request is CANCELLED exactly when nothing of it is live, its span is that of its live
  // slots, and a PENDING, REJECTED or EXPIRED one has them all.
  lemma RequestFollowsSlots(hash: Id -> int, events: seq<Event>, r: Id)
    requires NeverCrossed(hash, events, r) && r in BookingRace.Run(hash, events).db.requests
    ensures var db := BookingRace.Run(hash, events).db;
      var q, live := db.requests[r], LiveSlots(db.slots, r);
      && (q.status == Cancelled <==> live == {})
      && (forall s :: s in live ==> q.firstStart <= db.slots[s].span.start && db.slots[s].span.end <= q.lastEnd)
      && (live != {} ==> exists s :: s in live && db.slots[s].span.start == q.firstStart)
      && (live != {} ==> exists s :: s in live && db.slots[s].span.end == q.lastEnd)
      && (q.status == Pending || q.status == Rejected || q.status == Expired ==>
            forall s :: s in db.slots && db.slots[s].request == r ==> s in live)
  {
    UncrossedFollows(hash, events, r);
    assert events[..|events|] == events;
    SpanSummary(BookingRace.Run(hash, events).db, r);
  }
}
