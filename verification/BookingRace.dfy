// The booking transactions interleaved statement by statement under READ COMMITTED. A statement sees
// what is committed plus its own transaction's writes. A guarded update waits for a row another
// transaction has written, looks at the row again, and holds it to the end. The venue lock is keyed by
// a hash of the venue id and goes with the transaction. Any transaction may fail at any point.
module BookingRace {
  import opened Wrappers
  import opened BookingOverlap
  import opened BookingModel

  type TxId = nat

  // How far a transaction has come, with what it has read so far.
  datatype Pc =
    | ApproveBegun(id: Id)
    | ApproveFound(id: Id, venue: Id)
    | ApproveLocked(id: Id, venue: Id)
    | ApprovePending(id: Id, venue: Id)
    | ApproveLive(id: Id, venue: Id, spans: set<Span>)
    | ApproveClear(id: Id, venue: Id, spans: set<Span>)
    | ApproveReady(id: Id, venue: Id, spans: set<Span>, losers: set<Id>)
    | DirectBegun(b: NewBooking)
    | DirectLocked(b: NewBooking)
    | DirectClear(b: NewBooking)
    | DirectReady(b: NewBooking, losers: set<Id>)
    | Rejecting(todo: set<Id>, reported: set<Id>)
    | StaffBegun(id: Id, slotIds: Option<seq<Id>>, st: Stamp)
    | StaffFound(id: Id, venue: Id, slotIds: Option<seq<Id>>, st: Stamp)
    | StaffLocked(id: Id, slotIds: Option<seq<Id>>, st: Stamp)
    | StaffApproved(id: Id, slotIds: Option<seq<Id>>, st: Stamp)
    | StaffCancelling(id: Id, kept: set<Span>, todo: set<Id>, st: Stamp)
    | SubmitBegun(b: NewBooking)
    | SubmitClear(b: NewBooking)
    | RejectBegun(id: Id, reason: string)
    | RejectPending(id: Id, reason: string)
    | WithdrawBegun(id: Id)
    | WithdrawPending(id: Id)
    | WithdrawFlipped(id: Id)
    | SlotBegun(id: Id, slot: Id, cutoff: int)
    | SlotApproved(id: Id, slot: Id, cutoff: int)
    | SlotChecked(id: Id, slot: Id)
    | SlotGone(id: Id)
    | SlotCounted(id: Id, remaining: set<Span>)
    | Expiring(now: int)
    | Finished(reported: set<Id>)

  // `rows` and `slots` are the transaction's own writes, each of them a row it holds.
  datatype Tx = Tx(actor: Id, pc: Pc, lock: Option<Id>, rows: Requests, slots: Slots)

  datatype State = State(db: Db, txs: map<TxId, Tx>)

  datatype Event =
    | Begin(t: TxId, actor: Id, pc: Pc)
    | Next(t: TxId, now: int)
    | UpdateRow(t: TxId, r: Id)
    | UpdateSlot(t: TxId, s: Id, now: int)
    | Commit(t: TxId)
    | Abort(t: TxId)

  function View(db: Db, tx: Tx): Db {
    Db(db.requests + tx.rows, db.slots + tx.slots)
  }

  // What the other transactions hold: rows, slots and lock keys.
  datatype Held = Held(rows: set<Id>, slots: set<Id>, keys: set<int>)

  ghost function HeldByOthers(hash: Id -> int, s: State, t: TxId): Held {
    Held(set u, r | u in s.txs && u != t && r in s.txs[u].rows :: r,
         set u, x | u in s.txs && u != t && x in s.txs[u].slots :: x,
         set u | u in s.txs && u != t && s.txs[u].lock.Some? :: hash(s.txs[u].lock.value))
  }

  // What a statement does to its own transaction. A refusal rolls it back.
  datatype Move = Wait | Goto(tx: Tx) | Refuse

  function At(tx: Tx, pc: Pc): Move {
    Goto(tx.(pc := pc))
  }

  function Lock(hash: Id -> int, h: Held, tx: Tx, venue: Id, pc: Pc): Move {
    if hash(venue) in h.keys then Wait else Goto(tx.(pc := pc, lock := Some(venue)))
  }

  function WriteRow(h: Held, tx: Tx, r: Id, q: Request, pc: Pc): Move {
    if r in h.rows then Wait else Goto(tx.(pc := pc, rows := tx.rows[r := q]))
  }

  // `updateMany({ where: { id, status: PENDING } })`, refused when it matches nothing.
  function FlipPending(db: Db, h: Held, tx: Tx, r: Id, q: Request, pc: Pc): Move
    requires r in View(db, tx).requests
  {
    if r in h.rows then Wait
    else if View(db, tx).requests[r].status != Pending then Refuse
    else WriteRow(h, tx, r, q, pc)
  }

  ghost predicate BookingOk(b: NewBooking) {
    && |b.slotIds| == |b.spans| > 0
    && (forall i, j :: 0 <= i < j < |b.slotIds| ==> b.slotIds[i] != b.slotIds[j])
    && (forall i :: 0 <= i < |b.spans| ==> NonEmpty(b.spans[i]))
    && PairwiseDisjoint(b.spans)
  }

  // The ids are new to the tables and to every other transaction.
  predicate Mintable(v: Db, h: Held, b: NewBooking)
    requires |b.slotIds| == |b.spans|
    requires forall i, j :: 0 <= i < j < |b.slotIds| ==> b.slotIds[i] != b.slotIds[j]
  {
    && b.id !in v.requests && b.id !in h.rows
    && NewSlots(b).Keys !! v.slots.Keys && NewSlots(b).Keys !! h.slots
  }

  ghost function MintedRow(v: Db, b: NewBooking, approver: Option<Id>, now: int): (q: Request)
    requires BookingOk(b)
    ensures q.venue == b.venue && q.status == if approver.Some? then Approved else Pending
  {
    SpanSetNonEmpty(b.spans);
    NewRequest(b, NextCode(v, now), now, approver)
  }

  function Inserting(tx: Tx, b: NewBooking, q: Request, pc: Pc): Tx
    requires |b.slotIds| == |b.spans|
    requires forall i, j :: 0 <= i < j < |b.slotIds| ==> b.slotIds[i] != b.slotIds[j]
  {
    tx.(pc := pc, rows := tx.rows[b.id := q], slots := tx.slots + NewSlots(b))
  }

  // The race for the code is CodeCounter's subject: here the row just carries what was counted.
  ghost function Insert(db: Db, h: Held, tx: Tx, b: NewBooking, approver: Option<Id>, now: int, pc: Pc): Move
    requires BookingOk(b)
  {
    var v := View(db, tx);
    if !Mintable(v, h, b) then Refuse
    else Goto(Inserting(tx, b, MintedRow(v, b, approver, now), pc))
  }

  // ---- approve ----

  ghost function ApproveNext(hash: Id -> int, db: Db, h: Held, tx: Tx, now: int): Move {
    var v := View(db, tx);
    match tx.pc
    case ApproveBegun(id) => if id !in v.requests then Refuse else At(tx, ApproveFound(id, v.requests[id].venue))
    case ApproveFound(id, venue) => Lock(hash, h, tx, venue, ApproveLocked(id, venue))
    case ApproveLocked(id, venue) =>
      if id !in v.requests || v.requests[id].status != Pending then Refuse else At(tx, ApprovePending(id, venue))
    case ApprovePending(id, venue) =>
      if LiveSlots(v.slots, id) == {} then Refuse else At(tx, ApproveLive(id, venue, LiveSpans(v.slots, id)))
    case ApproveLive(id, venue, spans) =>
      if Clashes(v, venue, spans, Some(id)) != {} then Refuse else At(tx, ApproveClear(id, venue, spans))
    case ApproveClear(id, venue, spans) => At(tx, ApproveReady(id, venue, spans, Losers(v, venue, spans, Some(id))))
    case ApproveReady(id, venue, spans, losers) =>
      if id !in v.requests then Refuse
      else FlipPending(db, h, tx, id, ApprovedRow(v.requests[id], tx.actor, now), Rejecting(losers, losers))
    case _ => Wait
  }

  // ---- direct booking and LINE submission ----

  ghost function CreateNext(hash: Id -> int, db: Db, h: Held, tx: Tx): Move {
    var v := View(db, tx);
    match tx.pc
    case DirectBegun(b) => Lock(hash, h, tx, b.venue, DirectLocked(b))
    case DirectLocked(b) => if Clashes(v, b.venue, SpanSet(b.spans), None) != {} then Refuse else At(tx, DirectClear(b))
    case DirectClear(b) => At(tx, DirectReady(b, Losers(v, b.venue, SpanSet(b.spans), None)))
    case SubmitBegun(b) => if Clashes(v, b.venue, SpanSet(b.spans), None) != {} then Refuse else At(tx, SubmitClear(b))
    case _ => Wait
  }

  ghost function InsertNext(db: Db, h: Held, tx: Tx, now: int): Move {
    match tx.pc
    case DirectReady(b, losers) =>
      if BookingOk(b) then Insert(db, h, tx, b, Some(tx.actor), now, Rejecting(losers, losers)) else Refuse
    case SubmitClear(b) => if BookingOk(b) then Insert(db, h, tx, b, None, now, Finished({})) else Refuse
    case _ => Wait
  }

  // ---- staff cancel, slot cancel ----

  ghost function StaffNext(hash: Id -> int, db: Db, h: Held, tx: Tx): Move {
    var v := View(db, tx);
    match tx.pc
    case StaffBegun(id, slotIds, st) =>
      if id !in v.requests then Refuse else At(tx, StaffFound(id, v.requests[id].venue, slotIds, st))
    case StaffFound(id, venue, slotIds, st) => Lock(hash, h, tx, venue, StaffLocked(id, slotIds, st))
    case StaffLocked(id, slotIds, st) =>
      if id !in v.requests || v.requests[id].status != Approved then Refuse else At(tx, StaffApproved(id, slotIds, st))
    case StaffApproved(id, slotIds, st) =>
      var live, targets := LiveSlots(v.slots, id), Targets(v, id, slotIds);
      if live == {} || (slotIds.Some? && FirstBadSlot(v, id, slotIds.value).Some?) then Refuse
      else At(tx, StaffCancelling(id, SpansOf(v.slots, live - targets), targets, st))
    case StaffCancelling(id, kept, todo, st) =>
      if todo != {} then Wait
      else if id !in v.requests then Refuse
      else WriteRow(h, tx, id, Summarised(v.requests[id], kept), Finished({}))
    case _ => Wait
  }

  ghost function SlotNext(db: Db, h: Held, tx: Tx, now: int): Move {
    var v := View(db, tx);
    match tx.pc
    case SlotBegun(id, slot, cutoff) =>
      if !Owned(v, tx.actor, id) || v.requests[id].status != Approved then Refuse else At(tx, SlotApproved(id, slot, cutoff))
    case SlotApproved(id, slot, cutoff) =>
      if !IsLiveOf(v.slots, slot, id) || v.slots[slot].span.start <= cutoff then Refuse else At(tx, SlotChecked(id, slot))
    case SlotChecked(id, slot) => CancelSlot(db, h, tx, slot, Stamp(now, tx.actor, LINE_USER_ROLE, None), SlotGone(id))
    case SlotGone(id) => At(tx, SlotCounted(id, LiveSpans(v.slots, id)))
    case SlotCounted(id, remaining) =>
      if id !in v.requests then Refuse else WriteRow(h, tx, id, Summarised(v.requests[id], remaining), Finished({}))
    case _ => Wait
  }

  // `updateMany({ where: { id, isCancelled: false } })`, refused when it matches nothing.
  function CancelSlot(db: Db, h: Held, tx: Tx, s: Id, st: Stamp, pc: Pc): Move {
    var v := View(db, tx);
    if s in h.slots then Wait
    else if s !in v.slots || v.slots[s].isCancelled then Refuse
    else Goto(tx.(pc := pc, slots := tx.slots[s := CancelledSlot(v.slots[s], st)]))
  }

  // ---- reject, withdraw, expire ----

  function SettleNext(db: Db, h: Held, tx: Tx): Move {
    var v := View(db, tx);
    match tx.pc
    case RejectBegun(id, reason) =>
      if id !in v.requests || v.requests[id].status != Pending then Refuse else At(tx, RejectPending(id, reason))
    case RejectPending(id, reason) =>
      if id !in v.requests then Refuse
      else FlipPending(db, h, tx, id, RejectedRow(v.requests[id], Typed(reason)), Finished({}))
    case WithdrawBegun(id) =>
      if !Owned(v, tx.actor, id) || v.requests[id].status != Pending then Refuse else At(tx, WithdrawPending(id))
    case WithdrawPending(id) =>
      if id !in v.requests then Refuse
      else FlipPending(db, h, tx, id, v.requests[id].(status := Cancelled), WithdrawFlipped(id))
    case WithdrawFlipped(id) => if LiveSlots(v.slots, id) != {} then Wait else At(tx, Finished({}))
    case Rejecting(todo, reported) => if todo != {} then Wait else At(tx, Finished(reported))
    case Expiring(now) => At(tx, Finished({}))
    case _ => Wait
  }

  // One row of `rejectLosers` or of the expiry sweep: a row no longer pending is passed over.
  function RowMove(db: Db, h: Held, tx: Tx, r: Id): Move {
    var v := View(db, tx);
    if r in h.rows || r !in v.requests then Wait
    else match tx.pc
      case Rejecting(todo, reported) =>
        if r !in todo then Wait
        else if v.requests[r].status != Pending then At(tx, Rejecting(todo - {r}, reported))
        else WriteRow(h, tx, r, RejectedRow(v.requests[r], AutoRejectedReason), Rejecting(todo - {r}, reported))
      case Expiring(now) =>
        if !Overdue(v.requests[r], now) then Wait
        else WriteRow(h, tx, r, v.requests[r].(status := Expired, rejectReason := Some(AutoExpiredReason)), Expiring(now))
      case _ => Wait
  }

  // One slot of a staff cancellation or of a withdrawal.
  function SlotMove(db: Db, h: Held, tx: Tx, s: Id, now: int): Move {
    match tx.pc
    case StaffCancelling(id, kept, todo, st) =>
      if s !in todo then Wait else CancelSlot(db, h, tx, s, st, StaffCancelling(id, kept, todo - {s}, st))
    case WithdrawFlipped(id) =>
      if !IsLiveOf(View(db, tx).slots, s, id) then Wait
      else CancelSlot(db, h, tx, s, Stamp(now, tx.actor, LINE_USER_ROLE, None), WithdrawFlipped(id))
    case _ => Wait
  }

  // ---- The machine ----

  ghost predicate Starts(pc: Pc) {
    match pc
    case ApproveBegun(_) | StaffBegun(_, _, _) | RejectBegun(_, _) | WithdrawBegun(_) | SlotBegun(_, _, _) | Expiring(_) => true
    case DirectBegun(b) => BookingOk(b)
    case SubmitBegun(b) => BookingOk(b)
    case _ => false
  }

  ghost function NextMove(hash: Id -> int, db: Db, h: Held, tx: Tx, now: int): Move {
    match tx.pc
    case ApproveBegun(_) | ApproveFound(_, _) | ApproveLocked(_, _) | ApprovePending(_, _)
       | ApproveLive(_, _, _) | ApproveClear(_, _, _) | ApproveReady(_, _, _, _) => ApproveNext(hash, db, h, tx, now)
    case DirectBegun(_) | DirectLocked(_) | DirectClear(_) | SubmitBegun(_) => CreateNext(hash, db, h, tx)
    case DirectReady(_, _) | SubmitClear(_) => InsertNext(db, h, tx, now)
    case StaffBegun(_, _, _) | StaffFound(_, _, _, _) | StaffLocked(_, _, _) | StaffApproved(_, _, _)
       | StaffCancelling(_, _, _, _) => StaffNext(hash, db, h, tx)
    case SlotBegun(_, _, _) | SlotApproved(_, _, _) | SlotChecked(_, _) | SlotGone(_) | SlotCounted(_, _) =>
      SlotNext(db, h, tx, now)
    case _ => SettleNext(db, h, tx)
  }

  ghost function MoveOf(hash: Id -> int, s: State, e: Event): Move
    requires (e.Next? || e.UpdateRow? || e.UpdateSlot?) && e.t in s.txs
  {
    var h := HeldByOthers(hash, s, e.t);
    match e
    case Next(t, now) => NextMove(hash, s.db, h, s.txs[t], now)
    case UpdateRow(t, r) => RowMove(s.db, h, s.txs[t], r)
    case UpdateSlot(t, x, now) => SlotMove(s.db, h, s.txs[t], x, now)
    case _ => Wait
  }

  function Apply(s: State, t: TxId, m: Move): State {
    match m
    case Wait => s
    case Goto(tx) => s.(txs := s.txs[t := tx])
    case Refuse => s.(txs := s.txs - {t})
  }

  // A step that is not enabled leaves the state as it is.
  ghost function Step(hash: Id -> int, s: State, e: Event): State {
    match e
    case Begin(t, actor, pc) =>
      if t !in s.txs && Starts(pc) then s.(txs := s.txs[t := Tx(actor, pc, None, map[], map[])]) else s
    case Commit(t) =>
      if t in s.txs && s.txs[t].pc.Finished? then State(View(s.db, s.txs[t]), s.txs - {t}) else s
    case Abort(t) => s.(txs := s.txs - {t})
    case _ => if e.t in s.txs then Apply(s, e.t, MoveOf(hash, s, e)) else s
  }

  ghost function RunFrom(hash: Id -> int, s: State, events: seq<Event>): State {
    if events == [] then s else Step(hash, RunFrom(hash, s, events[..|events| - 1]), events[|events| - 1])
  }

  // From empty tables.
  ghost function Run(hash: Id -> int, events: seq<Event>): State {
    RunFrom(hash, State(Db(map[], map[]), map[]), events)
  }
}
