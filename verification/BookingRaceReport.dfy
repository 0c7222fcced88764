// Exactly when the list a decision reports is the set of rows its commit rejects, in every interleaving,
// and a run from empty tables in which it is not.
module BookingRaceReport {
  import opened BookingModel
  import opened BookingRuns
  import opened BookingRace
  import opened BookingRaceSafety
  import opened BookingRaceSteps
  import opened BookingRaceResults

  // A reported request the decision has been through: written if it is PENDING in the committed tables,
  // and then held by it since; not written otherwise.
  ghost predicate Written(db: Db, rows: Requests, r: Id) {
    && r in db.requests
    && if db.requests[r].status == Pending then r in rows && rows[r] == RejectedRow(db.requests[r], AutoRejectedReason)
       else r !in rows
  }

  function Through(pc: Pc): set<Id> {
    match pc case Rejecting(todo, reported) => reported - todo case Finished(reported) => reported case _ => {}
  }

  ghost predicate ExactSoFar(db: Db, tx: Tx) {
    forall r :: r in Through(tx.pc) ==> Written(db, tx.rows, r)
  }

  // ---- Every step keeps it ----

  lemma RowMoveExact(db: Db, h: Held, tx: Tx, r: Id)
    requires PcOk(db, tx) && ExactSoFar(db, tx)
    ensures var m := RowMove(db, h, tx, r); m.Goto? ==> ExactSoFar(db, m.tx)
  {
    var m := RowMove(db, h, tx, r);
    if m.Goto? && tx.pc.Rejecting? {
      RejectingExact(db, h, tx, r, m.tx);
    }
  }

  lemma RejectingExact(db: Db, h: Held, tx: Tx, r: Id, tx': Tx)
    requires PcOk(db, tx) && ExactSoFar(db, tx) && tx.pc.Rejecting? && RowMove(db, h, tx, r) == Goto(tx')
    ensures ExactSoFar(db, tx')
  {
    assert r in tx.pc.todo && r !in tx.rows;
    forall x | x in Through(tx'.pc) ensures Written(db, tx'.rows, x) {
      if x != r { assert x in Through(tx.pc); }
    }
  }

  // Every other statement either reports nothing yet or goes on with what it had.
  lemma ApproveThrough(hash: Id -> int, db: Db, h: Held, tx: Tx, now: int)
    ensures var m := ApproveNext(hash, db, h, tx, now); m.Goto? ==> Through(m.tx.pc) == {}
  {
  }

  lemma CreateThrough(hash: Id -> int, db: Db, h: Held, tx: Tx)
    ensures var m := CreateNext(hash, db, h, tx); m.Goto? ==> Through(m.tx.pc) == {}
  {
  }

  lemma InsertThrough(db: Db, h: Held, tx: Tx, now: int)
    ensures var m := InsertNext(db, h, tx, now); m.Goto? ==> Through(m.tx.pc) == {}
  {
  }

  lemma StaffThrough(hash: Id -> int, db: Db, h: Held, tx: Tx)
    ensures var m := StaffNext(hash, db, h, tx); m.Goto? ==> Through(m.tx.pc) == {}
  {
  }

  lemma SlotThrough(db: Db, h: Held, tx: Tx, now: int)
    ensures var m := SlotNext(db, h, tx, now); m.Goto? ==> Through(m.tx.pc) == {}
  {
  }

  lemma SlotMoveThrough(db: Db, h: Held, tx: Tx, s: Id, now: int)
    ensures var m := SlotMove(db, h, tx, s, now); m.Goto? ==> Through(m.tx.pc) == {}
  {
  }

  lemma SettleThrough(db: Db, h: Held, tx: Tx)
    ensures var m := SettleNext(db, h, tx);
      m.Goto? ==> Through(m.tx.pc) == {} || (Through(m.tx.pc) == Through(tx.pc) && m.tx.rows == tx.rows)
  {
  }

  ghost predicate GoesOnExact(db: Db, m: Move) {
    m.Goto? ==> ExactSoFar(db, m.tx)
  }

  lemma MoveExact(hash: Id -> int, s: State, e: Event)
    requires RaceInv(hash, s) && (e.Next? || e.UpdateRow? || e.UpdateSlot?) && e.t in s.txs && ExactSoFar(s.db, s.txs[e.t])
    ensures GoesOnExact(s.db, MoveOf(hash, s, e))
  {
    var db, h, tx := s.db, HeldByOthers(hash, s, e.t), s.txs[e.t];
    assert TxOk(db, tx);
    match e
    case Next(t, now) =>
      ApproveThrough(hash, db, h, tx, now);
      CreateThrough(hash, db, h, tx);
      InsertThrough(db, h, tx, now);
      StaffThrough(hash, db, h, tx);
      SlotThrough(db, h, tx, now);
      SettleThrough(db, h, tx);
      NextIsOne(hash, db, h, tx, now);
    case UpdateRow(t, r) => RowMoveExact(db, h, tx, r);
    case UpdateSlot(t, x, now) => SlotMoveThrough(db, h, tx, x, now);
    case _ =>
  }

  // Another transaction's commit touches no row this one holds, and settles nothing back to PENDING.
  lemma CommitExact(hash: Id -> int, db: Db, u: Tx, tx: Tx)
    requires Compatible(hash, u, tx) && RowsMove(db.requests, View(db, u).requests) && ExactSoFar(db, tx)
    ensures ExactSoFar(View(db, u), tx)
  {
    forall r | r in Through(tx.pc) ensures Written(View(db, u), tx.rows, r) {
      assert Written(db, tx.rows, r) && RowMoves(db.requests[r], View(db, u).requests[r]);
    }
  }

  ghost predicate AllExact(s: State) {
    forall t :: t in s.txs ==> ExactSoFar(s.db, s.txs[t])
  }

  lemma CommitKeepsExact(hash: Id -> int, s: State, t: TxId)
    requires RaceInv(hash, s) && AllExact(s) && t in s.txs && s.txs[t].pc.Finished?
    ensures AllExact(State(View(s.db, s.txs[t]), s.txs - {t}))
  {
    assert TxOk(s.db, s.txs[t]);
    forall u | u in s.txs && u != t ensures ExactSoFar(View(s.db, s.txs[t]), s.txs[u]) {
      CommitExact(hash, s.db, s.txs[t], s.txs[u]);
    }
  }

  lemma StepKeepsExact(hash: Id -> int, s: State, e: Event)
    requires RaceInv(hash, s) && AllExact(s)
    ensures AllExact(Step(hash, s, e))
  {
    if e.Commit? {
      if e.t in s.txs && s.txs[e.t].pc.Finished? { CommitKeepsExact(hash, s, e.t); }
    } else if (e.Next? || e.UpdateRow? || e.UpdateSlot?) && e.t in s.txs {
      MoveExact(hash, s, e);
    }
  }

  lemma {:induction false} RunKeepsExact(hash: Id -> int, events: seq<Event>)
    ensures AllExact(BookingRace.Run(hash, events))
  {
    if events != [] {
      var before := events[..|events| - 1];
      RunKeepsExact(hash, before);
      RaceKeepsInv(hash, before);
      StepKeepsExact(hash, BookingRace.Run(hash, before), events[|events| - 1]);
    }
  }

  // ---- Main results ----

  // In every reachable state, committing a decision rejects a request it reports exactly when that
  // request is still PENDING in the committed tables; any other reported row it leaves as it is.
  lemma ReportedRowChangesExactly(hash: Id -> int, events: seq<Event>, t: TxId, r: Id)
    requires var s := BookingRace.Run(hash, events); t in s.txs && s.txs[t].pc.Finished? && r in s.txs[t].pc.reported
    ensures var s, s' := BookingRace.Run(hash, events), Step(hash, BookingRace.Run(hash, events), Commit(t));
      && r in s.db.requests && r in s'.db.requests
      && (s.db.requests[r].status == Pending ==> s'.db.requests[r] == RejectedRow(s.db.requests[r], AutoRejectedReason))
      && (s'.db.requests[r] != s.db.requests[r] <==> s.db.requests[r].status == Pending)
  {
    RunKeepsExact(hash, events);
    var s := BookingRace.Run(hash, events);
    assert ExactSoFar(s.db, s.txs[t]) && Written(s.db, s.txs[t].rows, r);
    OnlyCommitsWrite(hash, s, Commit(t));
  }

  // The rows a commit turns to auto-rejected.
  ghost predicate NewlyRejected(a: Db, b: Db, r: Id) {
    r in b.requests && AutoRejected(b.requests[r]) && !(r in a.requests && AutoRejected(a.requests[r]))
  }

  // The list returned and announced is the set of rows the commit rejects if and only if every request on
  // it is still PENDING when the decision commits.
  lemma ReportIsChangedSetExactly(hash: Id -> int, events: seq<Event>, t: TxId)
    requires var s := BookingRace.Run(hash, events); t in s.txs && s.txs[t].pc.Finished?
    ensures var s, s' := BookingRace.Run(hash, events), Step(hash, BookingRace.Run(hash, events), Commit(t));
      (forall r :: r in s.txs[t].pc.reported <==> NewlyRejected(s.db, s'.db, r))
      <==> (forall r :: r in s.txs[t].pc.reported ==> r in s.db.requests && s.db.requests[r].status == Pending)
  {
    var s := BookingRace.Run(hash, events);
    var s' := Step(hash, s, Commit(t));
    forall r | r in s.txs[t].pc.reported
      ensures r in s.db.requests && (NewlyRejected(s.db, s'.db, r) <==> s.db.requests[r].status == Pending) {
      ReportedRowChangesExactly(hash, events, t, r);
    }
    forall r | NewlyRejected(s.db, s'.db, r) ensures r in s.txs[t].pc.reported {
      ReportIsComplete(hash, events, t, r);
    }
  }
}
