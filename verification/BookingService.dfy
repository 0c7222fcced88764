// The services and cron jobs that write the two booking tables, statement by statement. Each method is
// one request handled while nothing else runs; BookingRace drops that assumption.
module BookingService {
  import opened Wrappers
  import opened Text
  import opened BookingOverlap
  import opened BookingModel
  import opened BookingInvariant
  import opened BookingInsert
  import opened BookingRuns
  import opened BookingCode
  import opened BookingStatements

  const PUBLISH_CHUNK := 500

  // ---- What the two creating routes answer ----

  // What an attempt finds: its instant, and the active rows a staff booking looks up.
  datatype Attempt = Attempt(now: int, env: DirectInput)

  // The attempt that decides: the first that does not collide on its code, or the last.
  function DecidingSubmit(db: Db, b: NewBooking, nows: seq<int>): (now: int)
    requires |nows| > 0
    ensures now in nows
  {
    if |nows| == 1 || SubmitOutcome(db, b, nows[0]) != Refused(CodeCollision) then nows[0]
    else DecidingSubmit(db, b, nows[1..])
  }

  function DecidingDirect(db: Db, b: NewBooking, attempts: seq<Attempt>): (a: Attempt)
    requires |attempts| > 0
    ensures a in attempts
  {
    if |attempts| == 1 || DirectOutcome(db, b, attempts[0].env, attempts[0].now) != Refused(CodeCollision) then attempts[0]
    else DecidingDirect(db, b, attempts[1..])
  }

  // Ids the database mints for a booking with a non-empty slot list.
  ghost predicate Minted(db: Db, b: NewBooking) {
    && b.id !in db.requests
    && |b.slotIds| == |b.spans| > 0
    && (forall i :: 0 <= i < |b.slotIds| ==> b.slotIds[i] !in db.slots)
    && (forall i, j :: 0 <= i < j < |b.slotIds| ==> b.slotIds[i] != b.slotIds[j])
  }

  lemma ParsedIsInsertable(db: Db, b: NewBooking, now: int)
    requires Minted(db, b) && ParseOutcome(b.spans, now).Parsed?
    ensures Insertable(db, b)
  {
    forall i | 0 <= i < |b.spans| ensures NonEmpty(b.spans[i]) { assert ValidSlot(b.spans[i], now); }
  }

  // What a LINE submission needs before it may insert.
  datatype LineInput = LineInput(allowed: bool, venueActive: bool, venueOpen: bool)

  ghost function CreateFromLineOutcome(db: Db, b: NewBooking, env: LineInput, now: int, nows: seq<int>): Outcome
    requires |nows| > 0
  {
    if !env.allowed then Refused(BookingNotAllowed)
    else if ParseOutcome(b.spans, now).BadSlots? then Refused(InvalidSlots(ParseOutcome(b.spans, now).error))
    else if !env.venueActive then Refused(VenueNotFound)
    else if !env.venueOpen then Refused(VenueClosed)
    else SubmitOutcome(db, b, DecidingSubmit(db, b, nows))
  }

  ghost function CreateDirectOutcome(db: Db, b: NewBooking, overrides: bool, now: int, attempts: seq<Attempt>): Outcome
    requires |attempts| > 0
  {
    if b.lineUser.Some? && overrides then Refused(OriginInvalid)
    else if ParseOutcome(b.spans, now).BadSlots? then Refused(InvalidSlots(ParseOutcome(b.spans, now).error))
    else
      var a := DecidingDirect(db, b, attempts);
      DirectOutcome(db, b, a.env, a.now)
  }

  datatype Preflight = Picture(clashes: nat, pending: set<Id>) | Unanswered(error: Error)

  ghost function PreflightOutcome(db: Db, venue: Id, venueActive: bool, spans: seq<Span>, now: int): Preflight {
    if ParseOutcome(spans, now).BadSlots? then Unanswered(InvalidSlots(ParseOutcome(spans, now).error))
    else if !venueActive then Unanswered(VenueNotFound)
    else
      var (clashes, pending) := ConflictPicture(db, venue, SpanSet(spans), None);
      Picture(clashes, pending)
  }

  // With the requester's side in order, the preflight and the booking refuse the same bodies for the
  // same reason; without a clash the booking is made and rejects exactly the requests that were listed.
  lemma PreflightPredictsCreate(txns: seq<Txn>, b: NewBooking, overrides: bool, now: int, attempts: seq<Attempt>)
    requires OrdinaryYears(txns) && AllLabelled(Run(txns).requests)
    requires |b.spans| > 0 && |attempts| > 0 && !TwoDigitYear(attempts[0].now)
    requires var env := attempts[0].env; env.departmentActive && (b.lineUser.Some? ==> env.lineUserAllowed && !overrides)
    ensures var db := Run(txns);
      CreateDirectOutcome(db, b, overrides, now, attempts) ==
        match PreflightOutcome(db, b.venue, attempts[0].env.venueActive, b.spans, now)
        case Unanswered(error) => Refused(error)
        case Picture(clashes, pending) => if clashes > 0 then Refused(SlotTaken) else Done(b.id, pending)
  {
    if ParseOutcome(b.spans, now).Parsed? {
      var env := attempts[0].env;
      if env.venueActive { PreflightPredictsDirect(txns, b, env, attempts[0].now); }
      assert DecidingDirect(Run(txns), b, attempts) == attempts[0];
    }
  }

  // ---- Who has to be told ----

  // The rows that joined and the rows that changed.
  ghost predicate Announces(r: Outcome, before: Requests, after: Requests) {
    && (forall x :: x in after && x !in before <==> r.Done? && x == r.id)
    && (forall x :: x in before && x in after && after[x] != before[x] <==> r.Done? && x in r.autoRejected)
  }

  lemma DirectAnnounces(db: Db, b: NewBooking, env: DirectInput, actor: Id, now: int)
    requires Insertable(db, b)
    ensures Announces(DirectOutcome(db, b, env, now), db.requests, DirectDb(db, b, env, actor, now).requests)
  {
    if DirectOutcome(db, b, env, now).Done? { DirectWrites(db, b, env, actor, now); }
  }

  lemma ApproveAnnounces(db: Db, id: Id, actor: Id, now: int)
    ensures var r, after := ApproveOutcome(db, id), ApproveDb(db, id, actor, now).requests;
      forall x :: x in after && after[x] != db.requests[x] <==> r.Done? && x in {id} + r.autoRejected
  {
    if ApproveOutcome(db, id).Done? { ApproveWrites(db, id, actor, now); }
  }

  function WithApproval(db: Db, id: Id, actor: Id, now: int, losers: set<Id>): Db
    requires id in db.requests
  {
    Db(RejectAll(db.requests[id := ApprovedRow(db.requests[id], actor, now)], losers), db.slots)
  }

  ghost function WithBooking(db: Db, b: NewBooking, code: Code, now: int, actor: Id, losers: set<Id>): Db
    requires SpanSet(b.spans) != {} && |b.slotIds| == |b.spans|
    requires forall i, j :: 0 <= i < j < |b.slotIds| ==> b.slotIds[i] != b.slotIds[j]
  {
    Db(RejectAll(db.requests[b.id := NewRequest(b, code, now, Some(actor))], losers), db.slots + NewSlots(b))
  }

  lemma ApproveDbIs(db: Db, id: Id, actor: Id, now: int)
    ensures var r := ApproveOutcome(db, id);
      r.Done? ==> id in db.requests && db.requests[id].status == Pending && r.id == id
    ensures var r := ApproveOutcome(db, id);
      r.Done? ==> ApproveDb(db, id, actor, now) == WithApproval(db, id, actor, now, r.autoRejected)
    ensures ApproveOutcome(db, id).Refused? ==> ApproveDb(db, id, actor, now) == db
  {
  }

  lemma DirectDbIs(db: Db, b: NewBooking, env: DirectInput, actor: Id, now: int)
    requires Insertable(db, b)
    ensures SpanSet(b.spans) != {}
    ensures var r := DirectOutcome(db, b, env, now);
      r.Done? ==> DirectDb(db, b, env, actor, now) == WithBooking(db, b, NextCode(db, now), now, actor, r.autoRejected)
    ensures DirectOutcome(db, b, env, now).Refused? ==> DirectDb(db, b, env, actor, now) == db
  {
    SpanSetNonEmpty(b.spans);
  }

  lemma SubmitDbIs(db: Db, b: NewBooking, now: int)
    requires Insertable(db, b)
    ensures SpanSet(b.spans) != {}
    ensures SubmitOutcome(db, b, now).Done? ==>
      SubmitDb(db, b, now) == Db(db.requests[b.id := NewRequest(b, NextCode(db, now), now, None)], db.slots + NewSlots(b))
    ensures SubmitOutcome(db, b, now).Refused? ==> SubmitDb(db, b, now) == db
  {
    SpanSetNonEmpty(b.spans);
  }

  method Chunked(ids: seq<Id>) returns (chunks: seq<seq<Id>>)
    ensures Concat(chunks) == ids
    ensures forall c :: c in chunks ==> 1 <= |c| <= PUBLISH_CHUNK
  {
    chunks := [];
    var i := 0;
    while i < |ids|
      invariant 0 <= i
      invariant Concat(chunks) == ids[..if i < |ids| then i else |ids|]
      invariant forall c :: c in chunks ==> 1 <= |c| <= PUBLISH_CHUNK
    {
      var end := if i + PUBLISH_CHUNK < |ids| then i + PUBLISH_CHUNK else |ids|;
      ConcatOne(chunks, ids[i..end]);
      assert ids[..i] + ids[i..end] == ids[..end];
      chunks := chunks + [ids[i..end]];
      i := i + PUBLISH_CHUNK;
    }
  }

  function Concat(chunks: seq<seq<Id>>): seq<Id> {
    if chunks == [] then [] else Concat(chunks[..|chunks| - 1]) + chunks[|chunks| - 1]
  }

  lemma ConcatOne(chunks: seq<seq<Id>>, c: seq<Id>)
    ensures Concat(chunks + [c]) == Concat(chunks) + c
  {
    assert (chunks + [c])[..|chunks|] == chunks;
  }

  // The latest start that is too late to cancel.
  function Cutoff(now: int, leadMinutes: int): int {
    now + leadMinutes * 60_000
  }

  // ---- How a booking is named ----

  // `idOrCode.trim().replace(/^#/, '')`.
  function Key(idOrCode: string): string {
    var t := Trim(idOrCode);
    if t != "" && t[0] == '#' then t[1..] else t
  }

  // `ownedBookingWhere`: by id or by code, and only one's own.
  predicate Named(db: Db, user: Id, idOrCode: string, r: Id) {
    Owned(db, user, r) && (r == Key(idOrCode) || CodeString(db.requests[r].code) == Key(idOrCode))
  }

  // What looking a booking up came to.
  ghost predicate LookedUp(db: Db, user: Id, idOrCode: string, found: Option<Id>) {
    match found
    case Some(r) => Named(db, user, idOrCode, r)
    case None => forall r :: r in db.requests ==> !Named(db, user, idOrCode, r)
  }

  // ---- What the loops over rows add up to ----

  lemma FoundAre(db: Db, venue: Id, spans: set<Span>, exclude: Option<Id>, clashes: seq<Id>, losers: seq<Id>)
    requires forall s :: s in clashes <==> s in db.slots && IsClash(db, s, venue, spans, exclude)
    requires forall r :: r in losers <==> r in db.requests && IsLoser(db, r, venue, spans, exclude)
    ensures clashes != [] <==> Clashes(db, venue, spans, exclude) != {}
    ensures (set s | s in clashes) == Clashes(db, venue, spans, exclude)
    ensures (set x | x in losers) == Losers(db, venue, spans, exclude)
  {
    if clashes != [] { assert clashes[0] in Clashes(db, venue, spans, exclude); }
  }

  lemma NothingToHit(db: Db, venue: Id, exclude: Option<Id>)
    ensures Clashes(db, venue, {}, exclude) == {} && Losers(db, venue, {}, exclude) == {}
  {
  }

  lemma RejectPendingIs(requests: Requests, ids: seq<Id>, losers: set<Id>, after: Requests)
    requires after.Keys == requests.Keys && forall r :: r in ids <==> r in losers
    requires forall r :: r in requests && r in ids && requests[r].status == Pending ==>
      after[r] == requests[r].(status := Rejected, rejectReason := Some(AutoRejectedReason))
    requires forall r :: r in requests && (r !in ids || requests[r].status != Pending) ==> after[r] == requests[r]
    ensures after == RejectAll(requests, losers)
  {
  }

  lemma CancelLiveIs(slots: Slots, targets: set<Id>, st: Stamp, after: Slots)
    requires after.Keys == slots.Keys
    requires forall s :: s in slots && s in targets && !slots[s].isCancelled ==> after[s] == CancelledSlot(slots[s], st)
    requires forall s :: s in slots && (s !in targets || slots[s].isCancelled) ==> after[s] == slots[s]
    ensures after == StampSlots(slots, targets, st)
  {
  }

  lemma ApproveIsValid(before: Db, after: Db, id: Id, actor: Id, now: int)
    requires Inv(before) && after == ApproveDb(before, id, actor, now)
    ensures Inv(after)
  {
    ApproveKeepsInv(before, id, actor, now);
  }

  lemma SlotCancelIsValid(before: Db, after: Db, user: Id, id: Id, slot: Id, now: int, cutoff: int)
    requires Inv(before) && after == SlotCancelDb(before, user, id, slot, now, cutoff)
    ensures Inv(after)
  {
    SlotCancelKeepsInv(before, user, id, slot, now, cutoff);
  }

  lemma DirectIsValid(before: Db, after: Db, b: NewBooking, env: DirectInput, actor: Id, now: int)
    requires Inv(before) && Insertable(before, b) && after == DirectDb(before, b, env, actor, now)
    ensures Inv(after)
  {
    DirectKeepsInv(before, b, env, actor, now);
  }

  class BookingStore {
    var requests: Requests
    var slots: Slots

    ghost function Tables(): Db
      reads this
    {
      Db(requests, slots)
    }

    ghost predicate Valid()
      reads this
    {
      Inv(Tables())
    }

    constructor ()
      ensures Valid() && Tables() == Db(map[], map[])
    {
      requests, slots := map[], map[];
    }

    // ---- Deciding ----

    // Announces the winner first, then the losers by code: exactly the rows that changed.
    method Approve(id: Id, actor: Id, now: int) returns (r: Outcome, published: seq<Id>)
      requires Valid()
      modifies this
      ensures Valid() && Tables() == ApproveDb(old(Tables()), id, actor, now)
      ensures r == ApproveOutcome(old(Tables()), id)
      ensures forall x :: x in published <==> x in requests && requests[x] != old(requests)[x]
      ensures r.Done? ==> published != [] && published[0] == id && InCodeOrder(published[1..], old(requests))
    {
      ApproveAnnounces(Tables(), id, actor, now);
      ApproveDbIs(Tables(), id, actor, now);
      r, published := FlipAndReject(id, actor, now);
      ApproveIsValid(old(Tables()), Tables(), id, actor, now);
    }

    method FlipAndReject(id: Id, actor: Id, now: int) returns (r: Outcome, published: seq<Id>)
      modifies this
      ensures r == ApproveOutcome(old(Tables()), id)
      ensures r.Refused? ==> Tables() == old(Tables()) && published == []
      ensures r.Done? ==> id in old(requests) && Tables() == WithApproval(old(Tables()), id, actor, now, r.autoRejected)
      ensures r.Done? ==> published != [] && published[0] == id && InCodeOrder(published[1..], old(requests))
      ensures r.Done? ==> forall x :: x in published <==> x in {id} + r.autoRejected
    {
      var losers;
      r, losers := Decide(id);
      if r.Refused? { return r, []; }
      Flip(id, actor, now);
      RejectLosers(losers);
      assert ([id] + losers)[1..] == losers;
      return r, [id] + losers;
    }

    // The reads of an approval: what it will answer, and the losers before anything is flipped.
    method Decide(id: Id) returns (r: Outcome, losers: seq<Id>)
      ensures r == ApproveOutcome(Tables(), id)
      ensures r.Done? ==> r.id == id && id in requests && requests[id].status == Pending
      ensures r.Done? ==> (set x | x in losers) == r.autoRejected && InCodeOrder(losers, requests)
    {
      if id !in requests { return Refused(BookingNotFound), []; }
      if requests[id].status != Pending { return Refused(NotPending), []; }
      var live := LiveSlots(slots, id);
      if live == {} { return Refused(AlreadyCancelled), []; }
      var venue, spans := requests[id].venue, SpansOf(slots, live);
      var clash;
      clash, losers := Competing(venue, spans, Some(id));
      if clash { return Refused(SlotTaken), []; }
      return Done(id, (set x | x in losers)), losers;
    }

    // `assertNoApprovedClash`, then `findPendingLosers`.
    method Competing(venue: Id, spans: set<Span>, exclude: Option<Id>) returns (clash: bool, losers: seq<Id>)
      ensures clash <==> Clashes(Tables(), venue, spans, exclude) != {}
      ensures (set x | x in losers) == Losers(Tables(), venue, spans, exclude)
      ensures NoRepeats(losers) && InCodeOrder(losers, requests)
    {
      var clashes := FindClashes(requests, slots, venue, spans, exclude);
      losers := FindLosers(requests, slots, venue, spans, exclude);
      FoundAre(Tables(), venue, spans, exclude, clashes, losers);
      return clashes != [], losers;
    }

    method Flip(id: Id, actor: Id, now: int)
      requires id in requests && requests[id].status == Pending
      modifies this`requests
      ensures requests == old(requests)[id := ApprovedRow(old(requests)[id], actor, now)]
    {
      requests := requests[id := requests[id].(status := Approved, approvedBy := Some(actor), approvedAt := Some(now))];
    }

    // Each named request that is still pending is rejected, in words that name nobody; no other row moves.
    method RejectLosers(losers: seq<Id>)
      modifies this`requests
      ensures requests.Keys == old(requests).Keys
      ensures forall x :: x in requests && x in losers && old(requests)[x].status == Pending ==>
        requests[x] == old(requests)[x].(status := Rejected, rejectReason := Some(AutoRejectedReason))
      ensures forall x :: x in requests && (x !in losers || old(requests)[x].status != Pending) ==>
        requests[x] == old(requests)[x]
      ensures requests == RejectAll(old(requests), (set x | x in losers))
    {
      var after := RejectPending(requests, losers);
      RejectPendingIs(requests, losers, (set x | x in losers), after);
      requests := after;
    }

    method Reject(id: Id, reason: string) returns (r: Outcome)
      requires Valid()
      modifies this
      ensures Valid() && Tables() == RejectDb(old(Tables()), id, reason)
      ensures r == RejectOutcome(old(Tables()), id)
      ensures r.Done? <==> id in old(requests) && old(requests)[id].status == Pending
      ensures r.Done? ==> requests[id].status == Rejected && requests[id].rejectReason == Some(Typed(reason))
    {
      RejectKeepsInv(Tables(), id, reason);
      if id !in requests { return Refused(BookingNotFound); }
      if requests[id].status != Pending { return Refused(NotPending); }
      requests := requests[id := requests[id].(status := Rejected, rejectReason := Some(Typed(reason)))];
      return Done(id, {});
    }

    // ---- Cancelling ----

    // Every slot of the booking, or the named ones; a name that is wrong refuses them all.
    method StaffCancel(id: Id, slotIds: Option<seq<Id>>, st: Stamp) returns (r: Outcome)
      requires Valid()
      modifies this
      ensures Valid() && Tables() == StaffCancelDb(old(Tables()), id, slotIds, st)
      ensures r == StaffCancelOutcome(old(Tables()), id, slotIds)
    {
      StaffCancelKeepsInv(Tables(), id, slotIds, st);
      if id !in requests { return Refused(BookingNotFound); }
      if requests[id].status != Approved { return Refused(NotApproved); }
      var live := LiveSlots(slots, id);
      if live == {} { return Refused(AlreadyCancelled); }
      if slotIds.Some? {
        var bad := FindBadSlot(id, slotIds.value);
        if bad.Some? { return Refused(bad.value); }
      }
      CancelAndSummarise(id, Targets(Db(requests, slots), id, slotIds), st);
      return Done(id, {});
    }

    method FindBadSlot(id: Id, slotIds: seq<Id>) returns (bad: Option<Error>)
      ensures bad == FirstBadSlot(Tables(), id, slotIds)
    {
      for i := 0 to |slotIds|
        invariant FirstBadSlot(Tables(), id, slotIds) == FirstBadSlot(Tables(), id, slotIds[i..])
      {
        var s := slotIds[i];
        assert slotIds[i..][1..] == slotIds[i + 1..];
        if s !in slots || slots[s].request != id { return Some(SlotNotOnBooking); }
        if slots[s].isCancelled { return Some(SlotAlreadyCancelled); }
      }
      return None;
    }

    // Writes the cancellation, then the span of what is left, or CANCELLED when nothing is.
    method CancelAndSummarise(id: Id, targets: set<Id>, st: Stamp)
      requires id in requests
      modifies this
      ensures Tables() == CancelSlots(old(Tables()), id, targets, st)
    {
      var kept := LiveSlots(slots, id) - targets;
      StampLeaves(slots, targets, st, id);
      StampLeavesSpans(slots, targets, st, kept);
      var after, count := CancelLive(slots, targets, st);
      CancelLiveIs(slots, targets, st, after);
      slots := after;
      var remaining := SpansOf(slots, LiveSlots(slots, id));
      if remaining == {} {
        requests := requests[id := requests[id].(status := Cancelled)];
      } else {
        var first, last := EarliestAndLatest(remaining);
        requests := requests[id := requests[id].(firstStart := first, lastEnd := last)];
      }
    }

    // The booking a LINE user names, or none of theirs goes by that name.
    method FindOwned(user: Id, idOrCode: string) returns (found: Option<Id>)
      ensures LookedUp(Tables(), user, idOrCode, found)
      ensures found.Some? ==> Owned(Tables(), user, found.value)
    {
      var key := Key(idOrCode);
      var rest := requests.Keys;
      while rest != {}
        invariant rest <= requests.Keys
        invariant forall r :: r in requests.Keys - rest ==> !Named(Tables(), user, idOrCode, r)
        decreases |rest|
      {
        var r: Id :| r in rest;
        if requests[r].lineUser == Some(user) && (r == key || CodeString(requests[r].code) == key) { return Some(r); }
        rest := rest - {r};
      }
      return None;
    }

    method CancelPendingBooking(user: Id, idOrCode: string, now: int) returns (r: Outcome, id: Option<Id>)
      requires Valid()
      modifies this
      ensures Valid() && LookedUp(old(Tables()), user, idOrCode, id)
      ensures id.None? ==> r == Refused(BookingNotFound) && Tables() == old(Tables())
      ensures id.Some? ==> r == WithdrawOutcome(old(Tables()), user, id.value)
      ensures id.Some? ==> Tables() == WithdrawDb(old(Tables()), user, id.value, now)
    {
      id := FindOwned(user, idOrCode);
      if id.None? { return Refused(BookingNotFound), None; }
      r := Withdraw(user, id.value, now);
    }

    method Withdraw(user: Id, id: Id, now: int) returns (r: Outcome)
      requires Valid() && Owned(Tables(), user, id)
      modifies this
      ensures Valid() && Tables() == WithdrawDb(old(Tables()), user, id, now)
      ensures r == WithdrawOutcome(old(Tables()), user, id)
    {
      WithdrawKeepsInv(Tables(), user, id, now);
      if requests[id].status != Pending { return Refused(NotPending); }
      var live, st := LiveSlots(slots, id), Stamp(now, user, LINE_USER_ROLE, None);
      var after, count := CancelLive(slots, live, st);
      CancelLiveIs(slots, live, st, after);
      requests := requests[id := requests[id].(status := Cancelled)];
      slots := after;
      return Done(id, {});
    }

    method CancelApprovedSlot(user: Id, idOrCode: string, slot: Id, leadMinutes: int, now: int)
      returns (r: Outcome, id: Option<Id>)
      requires Valid()
      modifies this
      ensures Valid() && LookedUp(old(Tables()), user, idOrCode, id)
      ensures id.None? ==> r == Refused(BookingNotFound) && Tables() == old(Tables())
      ensures id.Some? ==> r == SlotCancelOutcome(old(Tables()), user, id.value, slot, Cutoff(now, leadMinutes))
      ensures id.Some? ==> Tables() == SlotCancelDb(old(Tables()), user, id.value, slot, now, Cutoff(now, leadMinutes))
    {
      id := FindOwned(user, idOrCode);
      if id.None? { return Refused(BookingNotFound), None; }
      r := CancelSlotOf(user, id.value, slot, now, Cutoff(now, leadMinutes));
      SlotCancelIsValid(old(Tables()), Tables(), user, id.value, slot, now, Cutoff(now, leadMinutes));
    }

    method CancelSlotOf(user: Id, id: Id, slot: Id, now: int, cutoff: int) returns (r: Outcome)
      requires Owned(Tables(), user, id)
      modifies this
      ensures Tables() == SlotCancelDb(old(Tables()), user, id, slot, now, cutoff)
      ensures r == SlotCancelOutcome(old(Tables()), user, id, slot, cutoff)
    {
      if requests[id].status != Approved { return Refused(NotApproved); }
      if slot !in slots || slots[slot].request != id { return Refused(SlotNotFound); }
      if slots[slot].isCancelled { return Refused(SlotAlreadyCancelled); }
      if slots[slot].span.start <= cutoff { return Refused(SlotCancelTooLate); }
      CancelAndSummarise(id, {slot}, Stamp(now, user, LINE_USER_ROLE, None));
      return Done(id, {});
    }

    // ---- Creating ----

    // `nows` are the instants the attempts take, one each.
    method CreateFromLine(b: NewBooking, env: LineInput, now: int, nows: seq<int>) returns (r: Outcome)
      requires Valid() && Minted(Tables(), b) && |nows| == CODE_MAX_ATTEMPTS
      modifies this
      ensures Valid()
      ensures r == CreateFromLineOutcome(old(Tables()), b, env, now, nows)
      ensures r.Refused? ==> Tables() == old(Tables())
      ensures r.Done? ==> Insertable(old(Tables()), b)
      ensures r.Done? ==> Tables() == SubmitDb(old(Tables()), b, DecidingSubmit(old(Tables()), b, nows))
    {
      if !env.allowed { return Refused(BookingNotAllowed); }
      var parsed := ParseSlots(b.spans, now);
      if parsed.BadSlots? { return Refused(InvalidSlots(parsed.error)); }
      ParsedIsInsertable(Tables(), b, now);
      if !env.venueActive { return Refused(VenueNotFound); }
      if !env.venueOpen { return Refused(VenueClosed); }
      r := InsertWithCode(b, nows);
    }

    method InsertWithCode(b: NewBooking, nows: seq<int>) returns (r: Outcome)
      requires Valid() && Insertable(Tables(), b) && |nows| == CODE_MAX_ATTEMPTS
      modifies this
      ensures Valid()
      ensures var at := DecidingSubmit(old(Tables()), b, nows);
        r == SubmitOutcome(old(Tables()), b, at) && Tables() == SubmitDb(old(Tables()), b, at)
    {
      for attempt := 0 to CODE_MAX_ATTEMPTS
        invariant Tables() == old(Tables()) && attempt < |nows|
        invariant DecidingSubmit(old(Tables()), b, nows) == DecidingSubmit(old(Tables()), b, nows[attempt..])
      {
        r := InsertOnce(b, nows[attempt]);
        if r != Refused(CodeCollision) || attempt == CODE_MAX_ATTEMPTS - 1 { return; }
        assert nows[attempt..][1..] == nows[attempt + 1..];
      }
    }

    // `nextBookingCode`, and what the index on `code` will say to it.
    method NextCounted(now: int) returns (code: Code, taken: bool)
      ensures code == NextCode(Tables(), now) && (taken <==> CodeTaken(Tables(), code))
    {
      var count := CountCreated(requests, DayRange(now));
      code := Code(LocalDay(now), count);
      taken := CodeExists(requests, code);
    }

    method InsertOnce(b: NewBooking, now: int) returns (r: Outcome)
      requires Valid() && Insertable(Tables(), b)
      modifies this
      ensures Valid() && Tables() == SubmitDb(old(Tables()), b, now)
      ensures r == SubmitOutcome(old(Tables()), b, now)
    {
      SubmitKeepsInv(Tables(), b, now);
      SubmitDbIs(Tables(), b, now);
      var code;
      r, code := DecideSubmit(b, now);
      if r.Refused? { return; }
      Insert(b, code, None, now);
    }

    method DecideSubmit(b: NewBooking, now: int) returns (r: Outcome, code: Code)
      ensures r == SubmitOutcome(Tables(), b, now) && code == NextCode(Tables(), now)
    {
      var clash, losers := Competing(b.venue, SpanSet(b.spans), None);
      var taken;
      code, taken := NextCounted(now);
      if clash { return Refused(SlotTaken), code; }
      if taken { return Refused(CodeCollision), code; }
      return Done(b.id, {}), code;
    }

    // The request, its span and its slots in one write. A staff booking's creation is its approval.
    method Insert(b: NewBooking, code: Code, approver: Option<Id>, now: int)
      requires SpanSet(b.spans) != {} && |b.slotIds| == |b.spans|
      requires forall i, j :: 0 <= i < j < |b.slotIds| ==> b.slotIds[i] != b.slotIds[j]
      modifies this
      ensures requests == old(requests)[b.id := NewRequest(b, code, now, approver)]
      ensures slots == old(slots) + NewSlots(b)
    {
      var first, last := EarliestAndLatest(SpanSet(b.spans));
      var status, at := if approver.Some? then Approved else Pending, if approver.Some? then Some(now) else None;
      requests := requests[b.id := Request(b.venue, code, status, first, last, b.stamp, b.lineUser, approver, approver, at, None)];
      slots := slots + NewSlots(b);
    }

    // A staff booking: `created` and `updated` are the two announcements.
    method CreateDirect(b: NewBooking, overrides: bool, actor: Id, now: int, attempts: seq<Attempt>)
      returns (r: Outcome, created: seq<Id>, updated: seq<Id>)
      requires Valid() && Minted(Tables(), b) && |attempts| == CODE_MAX_ATTEMPTS
      modifies this
      ensures Valid()
      ensures r == CreateDirectOutcome(old(Tables()), b, overrides, now, attempts)
      ensures r.Refused? ==> Tables() == old(Tables()) && created == updated == []
      ensures r.Done? ==> Insertable(old(Tables()), b)
      ensures r.Done? ==> var a := DecidingDirect(old(Tables()), b, attempts);
        Tables() == DirectDb(old(Tables()), b, a.env, actor, a.now)
      ensures forall x :: x in created <==> x in requests && x !in old(requests)
      ensures forall x :: x in updated <==> x in old(requests) && x in requests && requests[x] != old(requests)[x]
      ensures InCodeOrder(updated, old(requests))
    {
      if b.lineUser.Some? && overrides { return Refused(OriginInvalid), [], []; }
      var parsed := ParseSlots(b.spans, now);
      if parsed.BadSlots? { return Refused(InvalidSlots(parsed.error)), [], []; }
      ParsedIsInsertable(Tables(), b, now);
      r, created, updated := CreateAndAnnounce(b, actor, attempts);
    }

    method CreateAndAnnounce(b: NewBooking, actor: Id, attempts: seq<Attempt>)
      returns (r: Outcome, created: seq<Id>, updated: seq<Id>)
      requires Valid() && Insertable(Tables(), b) && |attempts| == CODE_MAX_ATTEMPTS
      modifies this
      ensures Valid()
      ensures var a := DecidingDirect(old(Tables()), b, attempts);
        r == DirectOutcome(old(Tables()), b, a.env, a.now) && Tables() == DirectDb(old(Tables()), b, a.env, actor, a.now)
      ensures r.Refused? ==> created == updated == []
      ensures forall x :: x in created <==> x in requests && x !in old(requests)
      ensures forall x :: x in updated <==> x in old(requests) && x in requests && requests[x] != old(requests)[x]
      ensures InCodeOrder(updated, old(requests))
    {
      ghost var a := DecidingDirect(Tables(), b, attempts);
      DirectAnnounces(Tables(), b, a.env, actor, a.now);
      var losers;
      r, losers := CreateWithCode(b, actor, attempts);
      created, updated := Announce(r, losers, old(requests));
    }

    method Announce(r: Outcome, losers: seq<Id>, ghost before: Requests) returns (created: seq<Id>, updated: seq<Id>)
      requires Announces(r, before, requests) && InCodeOrder(losers, before)
      requires r.Done? ==> (set x | x in losers) == r.autoRejected
      ensures r.Refused? ==> created == updated == []
      ensures forall x :: x in created <==> x in requests && x !in before
      ensures forall x :: x in updated <==> x in before && x in requests && requests[x] != before[x]
      ensures InCodeOrder(updated, before)
    {
      if r.Refused? { return [], []; }
      return [r.id], losers;
    }

    method CreateWithCode(b: NewBooking, actor: Id, attempts: seq<Attempt>) returns (r: Outcome, losers: seq<Id>)
      requires Valid() && Insertable(Tables(), b) && |attempts| == CODE_MAX_ATTEMPTS
      modifies this
      ensures Valid()
      ensures var a := DecidingDirect(old(Tables()), b, attempts);
        r == DirectOutcome(old(Tables()), b, a.env, a.now) && Tables() == DirectDb(old(Tables()), b, a.env, actor, a.now)
      ensures InCodeOrder(losers, old(requests))
      ensures r.Done? ==> (set x | x in losers) == r.autoRejected
    {
      for attempt := 0 to CODE_MAX_ATTEMPTS
        invariant Tables() == old(Tables()) && attempt < |attempts|
        invariant DecidingDirect(old(Tables()), b, attempts) == DecidingDirect(old(Tables()), b, attempts[attempt..])
      {
        r, losers := CreateDirectOnce(b, actor, attempts[attempt]);
        if r != Refused(CodeCollision) || attempt == CODE_MAX_ATTEMPTS - 1 { return; }
        assert attempts[attempt..][1..] == attempts[attempt + 1..];
      }
    }

    method CreateDirectOnce(b: NewBooking, actor: Id, a: Attempt) returns (r: Outcome, losers: seq<Id>)
      requires Valid() && Insertable(Tables(), b)
      modifies this
      ensures Valid() && Tables() == DirectDb(old(Tables()), b, a.env, actor, a.now)
      ensures r == DirectOutcome(old(Tables()), b, a.env, a.now)
      ensures InCodeOrder(losers, old(requests))
      ensures r.Done? ==> (set x | x in losers) == r.autoRejected
    {
      DirectDbIs(Tables(), b, a.env, actor, a.now);
      r, losers := InsertAndReject(b, actor, a);
      DirectIsValid(old(Tables()), Tables(), b, a.env, actor, a.now);
    }

    method InsertAndReject(b: NewBooking, actor: Id, a: Attempt) returns (r: Outcome, losers: seq<Id>)
      requires SpanSet(b.spans) != {} && |b.slotIds| == |b.spans|
      requires forall i, j :: 0 <= i < j < |b.slotIds| ==> b.slotIds[i] != b.slotIds[j]
      modifies this
      ensures r == DirectOutcome(old(Tables()), b, a.env, a.now)
      ensures r.Refused? ==> Tables() == old(Tables())
      ensures r.Done? ==> Tables() == WithBooking(old(Tables()), b, NextCode(old(Tables()), a.now), a.now, actor, r.autoRejected)
      ensures InCodeOrder(losers, old(requests))
      ensures r.Done? ==> (set x | x in losers) == r.autoRejected
    {
      var code;
      r, losers, code := DecideDirect(b, a);
      if r.Refused? { return; }
      Insert(b, code, Some(actor), a.now);
      RejectLosers(losers);
    }

    // The look-ups, the hard block, and the losers before the insert.
    method DecideDirect(b: NewBooking, a: Attempt) returns (r: Outcome, losers: seq<Id>, code: Code)
      ensures r == DirectOutcome(Tables(), b, a.env, a.now) && code == NextCode(Tables(), a.now)
      ensures InCodeOrder(losers, requests)
      ensures r.Done? ==> (set x | x in losers) == r.autoRejected
    {
      var clash, taken;
      clash, losers := Competing(b.venue, SpanSet(b.spans), None);
      code, taken := NextCounted(a.now);
      if !a.env.venueActive { return Refused(VenueNotFound), losers, code; }
      if b.lineUser.Some? && !a.env.lineUserAllowed { return Refused(InvalidLineUser), losers, code; }
      if !a.env.departmentActive { return Refused(InvalidDepartment), losers, code; }
      if clash { return Refused(SlotTaken), losers, code; }
      if taken { return Refused(CodeCollision), losers, code; }
      return Done(b.id, (set x | x in losers)), losers, code;
    }

    // ---- Advice ----

    // How many approved slots overlap, and which pending requests would lose, by code.
    method CheckPreflight(venue: Id, venueActive: bool, spans: seq<Span>, now: int) returns (r: Preflight, listed: seq<Id>)
      ensures r == PreflightOutcome(Tables(), venue, venueActive, spans, now)
      ensures r.Picture? ==> NoRepeats(listed) && InCodeOrder(listed, requests) && forall x :: x in listed <==> x in r.pending
    {
      var parsed := ParseSlots(spans, now);
      if parsed.BadSlots? { return Unanswered(InvalidSlots(parsed.error)), []; }
      if !venueActive { return Unanswered(VenueNotFound), []; }
      var clashes := FindClashes(requests, slots, venue, SpanSet(spans), None);
      listed := FindLosers(requests, slots, venue, SpanSet(spans), None);
      PictureIs(Tables(), venue, SpanSet(spans), clashes, listed);
      return Picture(|clashes|, (set x | x in listed)), listed;
    }

    // ---- The two sweeps ----

    // One guarded update, then the ids in chunks of at most 500. A write that fails changes nothing and
    // announces nothing.
    method ExpireOverdue(now: int, fails: bool) returns (ids: seq<Id>, chunks: seq<seq<Id>>)
      requires Valid()
      modifies this
      ensures Valid() && slots == old(slots)
      ensures fails ==> Tables() == old(Tables()) && ids == []
      ensures !fails ==> Tables() == ExpireDb(old(Tables()), now)
      ensures forall x :: x in ids <==> x in old(requests) && x in requests && requests[x] != old(requests)[x]
      ensures NoRepeats(ids) && Concat(chunks) == ids && forall c :: c in chunks ==> 1 <= |c| <= PUBLISH_CHUNK
    {
      if fails { return [], []; }
      ExpireKeepsInv(Tables(), now);
      var after;
      after, ids := ExpirePending(requests, now);
      assert after == ExpireDb(Tables(), now).requests;
      requests := after;
      chunks := Chunked(ids);
    }

    method RemindUpcoming(now: int, fails: bool) returns (ids: seq<Id>)
      requires Valid()
      modifies this
      ensures Valid() && requests == old(requests)
      ensures fails ==> Tables() == old(Tables()) && ids == []
      ensures !fails ==> Tables() == RemindDb(old(Tables()), now)
      ensures NoRepeats(ids) && forall s :: s in ids <==> s in old(slots) && s in slots && slots[s] != old(slots)[s]
    {
      if fails { return []; }
      RemindKeepsInv(Tables(), now);
      var after;
      after, ids := ClaimReminders(requests, slots, now);
      ClaimedIs(Tables(), now, after, ids);
      slots := after;
    }
  }

  lemma PictureIs(db: Db, venue: Id, spans: set<Span>, clashes: seq<Id>, losers: seq<Id>)
    requires NoRepeats(clashes) && forall s :: s in clashes <==> s in db.slots && IsClash(db, s, venue, spans, None)
    requires forall r :: r in losers <==> r in db.requests && IsLoser(db, r, venue, spans, None)
    ensures ConflictPicture(db, venue, spans, None) == (|clashes|, set x | x in losers)
  {
    FoundAre(db, venue, spans, None, clashes, losers);
    ListSize(clashes);
    NothingToHit(db, venue, None);
  }

  lemma {:induction false} ListSize(list: seq<Id>)
    requires NoRepeats(list)
    ensures |set x | x in list| == |list|
  {
    if list != [] {
      var init, last := list[..|list| - 1], list[|list| - 1];
      ListSize(init);
      assert (set x | x in list) == (set x | x in init) + {last};
      assert last !in init;
    }
  }

  lemma ClaimedIs(db: Db, now: int, after: Slots, claimed: seq<Id>)
    requires after.Keys == db.slots.Keys
    requires forall s :: s in claimed <==> s in db.slots && Claimable(db.requests, db.slots[s], now)
    requires forall s :: s in claimed ==> after[s] == db.slots[s].(reminderSentAt := Some(now))
    requires forall s :: s in db.slots && s !in claimed ==> after[s] == db.slots[s]
    ensures after == RemindDb(db, now).slots
    ensures forall s :: s in claimed <==> s in db.slots && after[s] != db.slots[s]
  {
    forall s | s in db.slots ensures Claimable(db.requests, db.slots[s], now) <==> DueForReminder(db, db.slots[s], now) {}
  }
}
