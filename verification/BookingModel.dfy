// The two booking tables, the reads every decision makes, and what each transaction does to them when
// it runs alone.
module BookingModel {
  import opened Wrappers
  import opened BookingOverlap
  import opened BookingCode

  type Id = string

  datatype Status = Pending | Approved | Rejected | Cancelled | Expired

  datatype Request = Request(
    venue: Id, code: Code, status: Status, firstStart: int, lastEnd: int, createdAt: int,
    lineUser: Option<Id>, createdBy: Option<Id>, approvedBy: Option<Id>, approvedAt: Option<int>,
    rejectReason: Option<Reason>)

  datatype Slot = Slot(
    request: Id, venue: Id, span: Span, isCancelled: bool,
    cancelledAt: Option<int>, cancelledById: Option<Id>, cancelledByRole: Option<string>,
    cancelReason: Option<string>, reminderSentAt: Option<int>)

  type Requests = map<Id, Request>
  type Slots = map<Id, Slot>

  datatype Db = Db(requests: Requests, slots: Slots)

  datatype Error =
    | BookingNotFound | NotPending | NotApproved | AlreadyCancelled | SlotTaken | SlotNotFound
    | SlotNotOnBooking | SlotAlreadyCancelled | SlotCancelTooLate | VenueNotFound | VenueClosed
    | InvalidLineUser | InvalidDepartment | BookingNotAllowed | OriginInvalid | CodeCollision
    | InvalidSlots(why: SlotError)

  // The subject of a decision and the requests it auto-rejected, or a refusal that wrote nothing.
  datatype Outcome = Done(id: Id, autoRejected: set<Id>) | Refused(error: Error)

  // Why a request was refused: an operator's words, or one of the two fixed sentences.
  datatype Reason = Typed(text: string) | AutoRejectedReason | AutoExpiredReason

  const LINE_USER_ROLE := "LINE_USER"
  const CODE_MAX_ATTEMPTS := 5
  const REMINDER_LEAD_MS := 60 * 60_000

  // ---- Reads ----

  predicate IsLiveOf(slots: Slots, s: Id, r: Id) {
    s in slots && slots[s].request == r && !slots[s].isCancelled
  }

  function LiveSlots(slots: Slots, r: Id): set<Id> {
    set s | s in slots && IsLiveOf(slots, s, r)
  }

  function SpansOf(slots: Slots, ss: set<Id>): set<Span> {
    set s | s in ss && s in slots :: slots[s].span
  }

  function LiveSpans(slots: Slots, r: Id): set<Span> {
    SpansOf(slots, LiveSlots(slots, r))
  }

  predicate Hits(theirs: Span, spans: set<Span>) {
    exists mine :: mine in spans && Overlaps(theirs, mine)
  }

  predicate IsClash(db: Db, s: Id, venue: Id, spans: set<Span>, exclude: Option<Id>) {
    && s in db.slots && !db.slots[s].isCancelled && db.slots[s].venue == venue
    && db.slots[s].request in db.requests && db.requests[db.slots[s].request].status == Approved
    && exclude != Some(db.slots[s].request)
    && Hits(db.slots[s].span, spans)
  }

  // `approvedClashWhere`.
  function Clashes(db: Db, venue: Id, spans: set<Span>, exclude: Option<Id>): set<Id> {
    set s | s in db.slots && IsClash(db, s, venue, spans, exclude)
  }

  predicate SomeSlotHits(slots: Slots, r: Id, spans: set<Span>) {
    exists s :: s in slots && IsLiveOf(slots, s, r) && Hits(slots[s].span, spans)
  }

  predicate IsLoser(db: Db, r: Id, venue: Id, spans: set<Span>, exclude: Option<Id>) {
    && r in db.requests && db.requests[r].venue == venue && db.requests[r].status == Pending
    && exclude != Some(r)
    && SomeSlotHits(db.slots, r, spans)
  }

  // `findPendingLosers`, as the set of ids.
  function Losers(db: Db, venue: Id, spans: set<Span>, exclude: Option<Id>): set<Id> {
    set r | r in db.requests && IsLoser(db, r, venue, spans, exclude)
  }

  // The rows `nextBookingCode` counts.
  function OnDay(requests: Requests, now: int): set<Id> {
    set r | r in requests && Within(DayRange(now), requests[r].createdAt)
  }

  function NextCode(db: Db, now: int): Code {
    Code(LocalDay(now), |OnDay(db.requests, now)|)
  }

  predicate CodeTaken(db: Db, code: Code) {
    exists r :: r in db.requests && db.requests[r].code == code
  }

  // ---- Earliest start and latest end ----

  ghost function MinStart(spans: set<Span>): (m: int)
    requires spans != {}
    ensures exists s :: s in spans && s.start == m
    ensures forall s :: s in spans ==> m <= s.start
  {
    var x :| x in spans;
    var rest := spans - {x};
    assert spans == rest + {x};
    if rest == {} then x.start else
    var m := MinStart(rest);
    if x.start < m then x.start else m
  }

  ghost function MaxEnd(spans: set<Span>): (m: int)
    requires spans != {}
    ensures exists s :: s in spans && s.end == m
    ensures forall s :: s in spans ==> s.end <= m
  {
    var x :| x in spans;
    var rest := spans - {x};
    assert spans == rest + {x};
    if rest == {} then x.end else
    var m := MaxEnd(rest);
    if x.end > m then x.end else m
  }

  // ---- Writes ----

  function ApprovedRow(q: Request, actor: Id, now: int): Request {
    q.(status := Approved, approvedBy := Some(actor), approvedAt := Some(now))
  }

  function RejectedRow(q: Request, reason: Reason): Request {
    q.(status := Rejected, rejectReason := Some(reason))
  }

  // `updateMany({ id: { in: losers }, status: PENDING })`.
  function RejectAll(requests: Requests, losers: set<Id>): Requests {
    map r | r in requests ::
      if r in losers && requests[r].status == Pending then RejectedRow(requests[r], AutoRejectedReason) else requests[r]
  }

  // Who cancelled a slot, when and why. A LINE user's cancellation leaves the reason column alone.
  datatype Stamp = Stamp(at: int, actor: Id, role: string, reason: Option<string>)

  function CancelledSlot(s: Slot, st: Stamp): Slot {
    s.(isCancelled := true, cancelledAt := Some(st.at), cancelledById := Some(st.actor), cancelledByRole := Some(st.role),
       cancelReason := if st.reason.Some? then st.reason else s.cancelReason)
  }

  function StampSlots(slots: Slots, targets: set<Id>, st: Stamp): Slots {
    map s | s in slots :: if s in targets && !slots[s].isCancelled then CancelledSlot(slots[s], st) else slots[s]
  }

  // The span follows the slots that remain, and the last slot takes the request with it.
  ghost function Summarised(q: Request, remaining: set<Span>): Request {
    if remaining == {} then q.(status := Cancelled)
    else q.(firstStart := MinStart(remaining), lastEnd := MaxEnd(remaining))
  }

  ghost function CancelSlots(db: Db, id: Id, targets: set<Id>, st: Stamp): Db
    requires id in db.requests
  {
    var remaining := SpansOf(db.slots, LiveSlots(db.slots, id) - targets);
    Db(db.requests[id := Summarised(db.requests[id], remaining)], StampSlots(db.slots, targets, st))
  }

  // A booking to insert: the caller's parsed spans, and what the database supplies, ids and `createdAt`.
  datatype NewBooking = NewBooking(id: Id, slotIds: seq<Id>, spans: seq<Span>, venue: Id, lineUser: Option<Id>, stamp: int)

  ghost predicate Insertable(db: Db, b: NewBooking) {
    && b.id !in db.requests
    && |b.slotIds| == |b.spans| > 0
    && (forall i :: 0 <= i < |b.slotIds| ==> b.slotIds[i] !in db.slots)
    && (forall i, j :: 0 <= i < j < |b.slotIds| ==> b.slotIds[i] != b.slotIds[j])
    && (forall i :: 0 <= i < |b.spans| ==> NonEmpty(b.spans[i]))
    && PairwiseDisjoint(b.spans)
  }

  function NewSlot(b: NewBooking, span: Span): Slot {
    Slot(b.id, b.venue, span, false, None, None, None, None, None)
  }

  function NewSlots(b: NewBooking): Slots
    requires |b.slotIds| == |b.spans|
    requires forall i, j :: 0 <= i < j < |b.slotIds| ==> b.slotIds[i] != b.slotIds[j]
  {
    map i | 0 <= i < |b.slotIds| :: b.slotIds[i] := NewSlot(b, b.spans[i])
  }

  function SpanSet(spans: seq<Span>): set<Span> {
    set i | 0 <= i < |spans| :: spans[i]
  }

  ghost function NewRequest(b: NewBooking, code: Code, now: int, approver: Option<Id>): Request
    requires SpanSet(b.spans) != {}
  {
    Request(b.venue, code, if approver.Some? then Approved else Pending,
            MinStart(SpanSet(b.spans)), MaxEnd(SpanSet(b.spans)), b.stamp,
            b.lineUser, approver, approver, if approver.Some? then Some(now) else None, None)
  }

  // ---- The transactions ----

  function ApproveOutcome(db: Db, id: Id): Outcome {
    if id !in db.requests then Refused(BookingNotFound)
    else if db.requests[id].status != Pending then Refused(NotPending)
    else if LiveSlots(db.slots, id) == {} then Refused(AlreadyCancelled)
    else
      var venue, spans := db.requests[id].venue, LiveSpans(db.slots, id);
      if Clashes(db, venue, spans, Some(id)) != {} then Refused(SlotTaken)
      else Done(id, Losers(db, venue, spans, Some(id)))
  }

  function ApproveDb(db: Db, id: Id, actor: Id, now: int): Db {
    match ApproveOutcome(db, id)
    case Refused(_) => db
    case Done(_, losers) =>
      if id in db.requests then
        db.(requests := RejectAll(db.requests[id := ApprovedRow(db.requests[id], actor, now)], losers))
      else db
  }

  function RejectOutcome(db: Db, id: Id): Outcome {
    if id !in db.requests then Refused(BookingNotFound)
    else if db.requests[id].status != Pending then Refused(NotPending)
    else Done(id, {})
  }

  function RejectDb(db: Db, id: Id, reason: string): Db {
    if RejectOutcome(db, id).Done? && id in db.requests then
      db.(requests := db.requests[id := RejectedRow(db.requests[id], Typed(reason))])
    else db
  }

  // The first named slot that is not on the booking, or already cancelled, decides.
  function FirstBadSlot(db: Db, id: Id, slotIds: seq<Id>): Option<Error> {
    if slotIds == [] then None
    else
      var s := slotIds[0];
      if s !in db.slots || db.slots[s].request != id then Some(SlotNotOnBooking)
      else if db.slots[s].isCancelled then Some(SlotAlreadyCancelled)
      else FirstBadSlot(db, id, slotIds[1..])
  }

  function StaffCancelOutcome(db: Db, id: Id, slotIds: Option<seq<Id>>): Outcome {
    if id !in db.requests then Refused(BookingNotFound)
    else if db.requests[id].status != Approved then Refused(NotApproved)
    else if LiveSlots(db.slots, id) == {} then Refused(AlreadyCancelled)
    else if slotIds.Some? && FirstBadSlot(db, id, slotIds.value).Some? then
      Refused(FirstBadSlot(db, id, slotIds.value).value)
    else Done(id, {})
  }

  function Targets(db: Db, id: Id, slotIds: Option<seq<Id>>): set<Id> {
    if slotIds.None? then LiveSlots(db.slots, id) else set s | s in LiveSlots(db.slots, id) && s in slotIds.value
  }

  ghost function StaffCancelDb(db: Db, id: Id, slotIds: Option<seq<Id>>, st: Stamp): Db {
    if StaffCancelOutcome(db, id, slotIds).Done? && id in db.requests then
      CancelSlots(db, id, Targets(db, id, slotIds), st)
    else db
  }

  predicate Owned(db: Db, user: Id, id: Id) {
    id in db.requests && db.requests[id].lineUser == Some(user)
  }

  function WithdrawOutcome(db: Db, user: Id, id: Id): Outcome {
    if !Owned(db, user, id) then Refused(BookingNotFound)
    else if db.requests[id].status != Pending then Refused(NotPending)
    else Done(id, {})
  }

  function WithdrawDb(db: Db, user: Id, id: Id, now: int): Db {
    if WithdrawOutcome(db, user, id).Done? && Owned(db, user, id) then
      Db(db.requests[id := db.requests[id].(status := Cancelled)],
         StampSlots(db.slots, LiveSlots(db.slots, id), Stamp(now, user, LINE_USER_ROLE, None)))
    else db
  }

  function SlotCancelOutcome(db: Db, user: Id, id: Id, slot: Id, cutoff: int): Outcome {
    if !Owned(db, user, id) then Refused(BookingNotFound)
    else if db.requests[id].status != Approved then Refused(NotApproved)
    else if slot !in db.slots || db.slots[slot].request != id then Refused(SlotNotFound)
    else if db.slots[slot].isCancelled then Refused(SlotAlreadyCancelled)
    else if db.slots[slot].span.start <= cutoff then Refused(SlotCancelTooLate)
    else Done(id, {})
  }

  ghost function SlotCancelDb(db: Db, user: Id, id: Id, slot: Id, now: int, cutoff: int): Db {
    if SlotCancelOutcome(db, user, id, slot, cutoff).Done? && id in db.requests then
      CancelSlots(db, id, {slot}, Stamp(now, user, LINE_USER_ROLE, None))
    else db
  }

  // One attempt of a LINE submission.
  function SubmitOutcome(db: Db, b: NewBooking, now: int): Outcome {
    if Clashes(db, b.venue, SpanSet(b.spans), None) != {} then Refused(SlotTaken)
    else if CodeTaken(db, NextCode(db, now)) then Refused(CodeCollision)
    else Done(b.id, {})
  }

  ghost function SubmitDb(db: Db, b: NewBooking, now: int): Db
    requires Insertable(db, b)
  {
    SpanSetNonEmpty(b.spans);
    if SubmitOutcome(db, b, now).Done? then
      Db(db.requests[b.id := NewRequest(b, NextCode(db, now), now, None)], db.slots + NewSlots(b))
    else db
  }

  // What a direct booking looks up before anything else.
  datatype DirectInput = DirectInput(venueActive: bool, lineUserAllowed: bool, departmentActive: bool)

  // One attempt of a staff booking: creation is the approval.
  function DirectOutcome(db: Db, b: NewBooking, env: DirectInput, now: int): Outcome {
    if !env.venueActive then Refused(VenueNotFound)
    else if b.lineUser.Some? && !env.lineUserAllowed then Refused(InvalidLineUser)
    else if !env.departmentActive then Refused(InvalidDepartment)
    else if Clashes(db, b.venue, SpanSet(b.spans), None) != {} then Refused(SlotTaken)
    else if CodeTaken(db, NextCode(db, now)) then Refused(CodeCollision)
    else Done(b.id, Losers(db, b.venue, SpanSet(b.spans), None))
  }

  ghost function DirectDb(db: Db, b: NewBooking, env: DirectInput, actor: Id, now: int): Db
    requires Insertable(db, b)
  {
    SpanSetNonEmpty(b.spans);
    match DirectOutcome(db, b, env, now)
    case Refused(_) => db
    case Done(_, losers) =>
      Db(RejectAll(db.requests[b.id := NewRequest(b, NextCode(db, now), now, Some(actor))], losers),
         db.slots + NewSlots(b))
  }

  predicate Overdue(q: Request, now: int) {
    q.status == Pending && q.firstStart < now
  }

  function OverdueIds(db: Db, now: int): set<Id> {
    set r | r in db.requests && Overdue(db.requests[r], now)
  }

  function ExpireDb(db: Db, now: int): Db {
    db.(requests := map r | r in db.requests ::
      if Overdue(db.requests[r], now) then db.requests[r].(status := Expired, rejectReason := Some(AutoExpiredReason))
      else db.requests[r])
  }

  predicate DueForReminder(db: Db, s: Slot, now: int) {
    && s.reminderSentAt == None && !s.isCancelled && now < s.span.start <= now + REMINDER_LEAD_MS
    && s.request in db.requests && db.requests[s.request].status == Approved && db.requests[s.request].lineUser.Some?
  }

  function ReminderIds(db: Db, now: int): set<Id> {
    set s | s in db.slots && DueForReminder(db, db.slots[s], now)
  }

  function RemindDb(db: Db, now: int): Db {
    db.(slots := map s | s in db.slots ::
      if DueForReminder(db, db.slots[s], now) then db.slots[s].(reminderSentAt := Some(now)) else db.slots[s])
  }

  lemma SpanSetNonEmpty(spans: seq<Span>)
    ensures |spans| > 0 ==> SpanSet(spans) != {}
  {
    if |spans| > 0 { assert spans[0] in SpanSet(spans); }
  }

  // ---- Advice ----

  // `conflictPicture`: how many approved slots overlap, and which pending requests would lose.
  function ConflictPicture(db: Db, venue: Id, spans: set<Span>, exclude: Option<Id>): (nat, set<Id>) {
    if spans == {} then (0, {})
    else (|Clashes(db, venue, spans, exclude)|, Losers(db, venue, spans, exclude))
  }

  // The `conflicts` block of a saved request.
  function ConflictsOf(db: Db, id: Id): (bool, set<Id>)
    requires id in db.requests
  {
    if db.requests[id].status != Pending then (false, {})
    else
      var (count, losers) := ConflictPicture(db, db.requests[id].venue, LiveSpans(db.slots, id), Some(id));
      (count > 0, losers)
  }
}
