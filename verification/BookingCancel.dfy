// What each cancellation changes, and that it changes nothing else.
module BookingCancel {
  import opened Wrappers
  import opened BookingModel
  import opened BookingInvariant

  // The named slots pass exactly when each of them is live and on the booking, and otherwise the first
  // that is not decides the refusal.
  lemma {:induction false} NamedSlotsPass(db: Db, id: Id, slotIds: seq<Id>)
    ensures FirstBadSlot(db, id, slotIds).None? <==> forall s :: s in slotIds ==> IsLiveOf(db.slots, s, id)
  {
    if slotIds != [] {
      NamedSlotsPass(db, id, slotIds[1..]);
      assert slotIds[0] in slotIds;
      assert forall s :: s in slotIds <==> s == slotIds[0] || s in slotIds[1..];
    }
  }

  lemma {:induction false} FirstBadDecides(db: Db, id: Id, slotIds: seq<Id>, k: nat)
    requires k < |slotIds| && !IsLiveOf(db.slots, slotIds[k], id)
    requires forall i :: 0 <= i < k ==> IsLiveOf(db.slots, slotIds[i], id)
    ensures FirstBadSlot(db, id, slotIds) ==
      Some(if slotIds[k] in db.slots && db.slots[slotIds[k]].request == id then SlotAlreadyCancelled else SlotNotOnBooking)
  {
    if k > 0 {
      assert IsLiveOf(db.slots, slotIds[0], id);
      FirstBadDecides(db, id, slotIds[1..], k - 1);
    }
  }

  // All five cancellation columns, from one helper; a LINE user's leaves the reason as it was.
  predicate Stamped(a: Slot, b: Slot, st: Stamp) {
    && b.isCancelled && b.cancelledAt == Some(st.at) && b.cancelledById == Some(st.actor)
    && b.cancelledByRole == Some(st.role) && b.cancelReason == (if st.reason.Some? then st.reason else a.cancelReason)
    && b.request == a.request && b.venue == a.venue && b.span == a.span && b.reminderSentAt == a.reminderSentAt
  }

  // Exactly `targets` go, all of them live before; every other row but the request itself stays.
  ghost predicate CancelsExactly(a: Db, b: Db, id: Id, targets: set<Id>, st: Stamp) {
    && b.slots.Keys == a.slots.Keys && b.requests.Keys == a.requests.Keys
    && (forall s :: s in targets ==> IsLiveOf(a.slots, s, id) && Stamped(a.slots[s], b.slots[s], st))
    && (forall s :: s in a.slots && s !in targets ==> b.slots[s] == a.slots[s])
    && (forall r :: r in a.requests && r != id ==> b.requests[r] == a.requests[r])
  }

  // The request afterwards: gone with its last slot, span kept; otherwise its status stays.
  ghost predicate FollowsSlots(a: Request, b: Request, live: set<Id>) {
    && b == a.(status := b.status, firstStart := b.firstStart, lastEnd := b.lastEnd)
    && (if live == {} then b == a.(status := Cancelled) else b.status == a.status)
  }

  lemma CancelSlotsExactly(db: Db, id: Id, targets: set<Id>, st: Stamp)
    requires id in db.requests && targets <= LiveSlots(db.slots, id)
    ensures var after := CancelSlots(db, id, targets, st);
      && CancelsExactly(db, after, id, targets, st)
      && LiveSlots(after.slots, id) == LiveSlots(db.slots, id) - targets
  {
    StampLeaves(db.slots, targets, st, id);
  }

  lemma CancelFollows(db: Db, id: Id, targets: set<Id>, st: Stamp)
    requires id in db.requests && targets <= LiveSlots(db.slots, id)
    ensures FollowsSlots(db.requests[id], CancelSlots(db, id, targets, st).requests[id], LiveSlots(db.slots, id) - targets)
  {
    NoSpansNoSlots(db.slots, LiveSlots(db.slots, id) - targets);
  }

  // Staff cancel every live slot, or exactly the named ones: none skipped, none added.
  lemma StaffCancelChangesExactly(db: Db, id: Id, slotIds: Option<seq<Id>>, st: Stamp)
    requires StaffCancelOutcome(db, id, slotIds).Done?
    ensures var after, targets := StaffCancelDb(db, id, slotIds, st), Targets(db, id, slotIds);
      && (forall s :: s in targets <==> if slotIds.None? then s in LiveSlots(db.slots, id) else s in slotIds.value)
      && CancelsExactly(db, after, id, targets, st)
      && FollowsSlots(db.requests[id], after.requests[id], LiveSlots(after.slots, id))
  {
    if slotIds.Some? { NamedSlotsPass(db, id, slotIds.value); }
    var targets := Targets(db, id, slotIds);
    CancelSlotsExactly(db, id, targets, st);
    CancelFollows(db, id, targets, st);
  }

  // An owner's slot cancellation frees that slot alone.
  lemma SlotCancelChangesExactly(db: Db, user: Id, id: Id, slot: Id, now: int, cutoff: int)
    requires SlotCancelOutcome(db, user, id, slot, cutoff).Done?
    ensures var after := SlotCancelDb(db, user, id, slot, now, cutoff);
      && CancelsExactly(db, after, id, {slot}, Stamp(now, user, LINE_USER_ROLE, None))
      && FollowsSlots(db.requests[id], after.requests[id], LiveSlots(after.slots, id))
      && db.slots[slot].span.start > cutoff
  {
    LiveSpanOf(db.slots, slot, id);
    CancelSlotsExactly(db, id, {slot}, Stamp(now, user, LINE_USER_ROLE, None));
    CancelFollows(db, id, {slot}, Stamp(now, user, LINE_USER_ROLE, None));
  }
}
