// Exactly when a request follows its slots under READ COMMITTED: what a cancellation counted as remaining
// must still be there, at both ends, when it commits.
module BookingRaceCounts {
  import opened Wrappers
  import opened BookingOverlap
  import opened BookingModel
  import opened BookingInvariant
  import opened BookingRuns
  import opened BookingRace
  import opened BookingRaceSafety
  import opened BookingRaceSteps
  import opened BookingRaceSlots

  // ---- What a cancellation has counted ----

  datatype Count = Count(id: Id, spans: set<Span>)

  function CountAt(pc: Pc, before: Option<Count>): Option<Count> {
    if pc.SlotCounted? then Some(Count(pc.id, pc.remaining))
    else if pc.StaffCancelling? then Some(Count(pc.id, pc.kept))
    else if pc.Finished? then before
    else None
  }

  // The request whose slots `t` counted, and the spans it took to remain, once it has.
  ghost function Counted(hash: Id -> int, events: seq<Event>, t: TxId): Option<Count> {
    var s := BookingRace.Run(hash, events);
    if t !in s.txs then None
    else CountAt(s.txs[t].pc, if events == [] then None else Counted(hash, events[..|events| - 1], t))
  }

  // What really remains of `r` when `tx` commits: the committed live slots it does not cancel itself.
  function Left(db: Db, tx: Tx, r: Id): set<Span> {
    SpansOf(db.slots, LiveSlots(db.slots, r) - tx.slots.Keys)
  }

  // Something left starts as early as anything counted, and something left ends as late.
  ghost predicate Fresh(counted: set<Span>, left: set<Span>) {
    StartStays(counted, left) && EndStays(counted, left)
  }

  ghost predicate StartStays(counted: set<Span>, left: set<Span>) {
    forall x :: x in counted ==> SomeStartsBy(left, x.start)
  }

  ghost predicate EndStays(counted: set<Span>, left: set<Span>) {
    forall x :: x in counted ==> SomeEndsFrom(left, x.end)
  }

  predicate SomeStartsBy(left: set<Span>, at: int) {
    exists y :: y in left && y.start <= at
  }

  predicate SomeEndsFrom(left: set<Span>, at: int) {
    exists y :: y in left && at <= y.end
  }

  // ---- The invariant ----

  // Its own writes: slots of `id`, live in the committed tables and cancelled by it.
  predicate Cuts(db: Db, tx: Tx, id: Id) {
    forall s :: s in tx.slots ==> IsLiveOf(db.slots, s, id) && tx.slots[s].request == id && tx.slots[s].isCancelled
  }

  predicate InTurn(db: Db, tx: Tx, id: Id) {
    OnceApproved(db, id) && (tx.lock == None || tx.lock == Some(db.requests[id].venue))
  }

  ghost predicate CountsAll(db: Db, tx: Tx, id: Id, todo: set<Id>, spans: set<Span>) {
    SpansOf(View(db, tx).slots, LiveSlots(View(db, tx).slots, id) - todo) <= spans
  }

  ghost predicate Cutting(db: Db, tx: Tx, id: Id, todo: set<Id>, spans: set<Span>) {
    Cuts(db, tx, id) && InTurn(db, tx, id) && CountsAll(db, tx, id, todo, spans)
  }

  ghost predicate Wrote(db: Db, tx: Tx, c: Count) {
    Cutting(db, tx, c.id, {}, c.spans) && tx.rows == map[c.id := Summarised(db.requests[c.id], c.spans)]
  }

  predicate TodoOf(db: Db, todo: set<Id>, id: Id) {
    forall s :: s in todo ==> s in db.slots && db.slots[s].request == id
  }

  predicate OwnerMid(pc: Pc) {
    pc.SlotChecked? || pc.SlotGone? || pc.SlotCounted?
  }

  predicate MidCut(pc: Pc) {
    pc.StaffCancelling? || OwnerMid(pc)
  }

  ghost predicate CutKnown(db: Db, tx: Tx) {
    && (tx.pc.StaffCancelling? ==> Cutting(db, tx, tx.pc.id, tx.pc.todo, tx.pc.kept) && TodoOf(db, tx.pc.todo, tx.pc.id))
    && (tx.pc.SlotChecked? ==> tx.slots == map[] && tx.lock == None && TodoOf(db, {tx.pc.slot}, tx.pc.id))
    && (tx.pc.SlotGone? ==> Cuts(db, tx, tx.pc.id) && InTurn(db, tx, tx.pc.id))
    && (tx.pc.SlotCounted? ==> Cutting(db, tx, tx.pc.id, {}, tx.pc.remaining))
  }

  ghost predicate Known(db: Db, tx: Tx, c: Option<Count>, r: Id) {
    if MidCut(tx.pc) then CutKnown(db, tx)
    else if tx.pc.Finished? && c.Some? then Wrote(db, tx, c.value)
    else TxWhole(db, tx, r)
  }

  // ---- What the commit of a cancellation does ----

  lemma LeftIs(db: Db, tx: Tx, id: Id)
    requires SlotsMove(db.slots, View(db, tx).slots) && NewSlotsNewRows(db, View(db, tx)) && Cuts(db, tx, id) && id in db.requests
    ensures Left(db, tx, id) == LiveSpans(View(db, tx).slots, id)
  {
    var v := View(db, tx).slots;
    assert LiveSlots(v, id) == LiveSlots(db.slots, id) - tx.slots.Keys;
    SpansAgree(db.slots, v, LiveSlots(v, id));
  }

  predicate Earliest(m: int, spans: set<Span>) {
    (exists x :: x in spans && x.start == m) && forall x :: x in spans ==> m <= x.start
  }

  predicate Latest(m: int, spans: set<Span>) {
    (exists x :: x in spans && x.end == m) && forall x :: x in spans ==> x.end <= m
  }

  lemma StartKept(counted: set<Span>, left: set<Span>, a: int, c: int)
    requires left <= counted && Earliest(a, counted) && Earliest(c, left)
    ensures StartStays(counted, left) <==> c == a
  {
    var x :| x in counted && x.start == a;
    var y :| y in left && y.start == c;
    if SomeStartsBy(left, x.start) {
      var z :| z in left && z.start <= x.start;
    }
  }

  lemma EndKept(counted: set<Span>, left: set<Span>, b: int, d: int)
    requires left <= counted && Latest(b, counted) && Latest(d, left)
    ensures EndStays(counted, left) <==> d == b
  {
    var x :| x in counted && x.end == b;
    var y :| y in left && y.end == d;
    if SomeEndsFrom(left, x.end) {
      var z :| z in left && x.end <= z.end;
    }
  }

  lemma StartStaysIs(counted: set<Span>, left: set<Span>)
    requires left <= counted && left != {}
    ensures StartStays(counted, left) <==> MinStart(left) == MinStart(counted)
  {
    StartKept(counted, left, MinStart(counted), MinStart(left));
  }

  lemma EndStaysIs(counted: set<Span>, left: set<Span>)
    requires left <= counted && left != {}
    ensures EndStays(counted, left) <==> MaxEnd(left) == MaxEnd(counted)
  {
    EndKept(counted, left, MaxEnd(counted), MaxEnd(left));
  }

  lemma FreshNotEmpty(counted: set<Span>)
    requires counted != {}
    ensures !Fresh(counted, {})
  {
    var x :| x in counted && x.start == MinStart(counted);
  }

  lemma CountsAllLeft(db: Db, tx: Tx, c: Count)
    requires Grows(db, View(db, tx)) && Wrote(db, tx, c)
    ensures Left(db, tx, c.id) <= c.spans && Left(db, tx, c.id) == LiveSpans(View(db, tx).slots, c.id)
  {
    LeftIs(db, tx, c.id);
    assert LiveSlots(View(db, tx).slots, c.id) - {} == LiveSlots(View(db, tx).slots, c.id);
  }

  lemma NoneLeftOk(q: Request, slots: Slots, r: Id, counted: set<Span>)
    requires q.status == Approved && LiveSlots(slots, r) == {}
    ensures RequestOk(Summarised(q, counted), slots, r) <==> counted == {}
  {
  }

  lemma SomeLeftOk(q: Request, slots: Slots, r: Id, counted: set<Span>)
    requires q.status == Approved && LiveSpans(slots, r) != {} && LiveSpans(slots, r) <= counted
    ensures RequestOk(Summarised(q, counted), slots, r)
       <==> MinStart(LiveSpans(slots, r)) == MinStart(counted) && MaxEnd(LiveSpans(slots, r)) == MaxEnd(counted)
  {
  }

  lemma SummaryOkExactly(q: Request, slots: Slots, r: Id, counted: set<Span>)
    requires q.status == Approved && LiveSpans(slots, r) <= counted
    ensures RequestOk(Summarised(q, counted), slots, r) <==> Fresh(counted, LiveSpans(slots, r))
  {
    NoSpansNoSlots(slots, LiveSlots(slots, r));
    if LiveSpans(slots, r) == {} {
      NoneLeftOk(q, slots, r, counted);
      if counted != {} { FreshNotEmpty(counted); }
    } else {
      SomeLeftOk(q, slots, r, counted);
      StartStaysIs(counted, LiveSpans(slots, r));
      EndStaysIs(counted, LiveSpans(slots, r));
    }
  }

  lemma WroteKeepsExactly(db: Db, tx: Tx, c: Count)
    requires Grows(db, View(db, tx)) && Wrote(db, tx, c) && WholeAt(db, c.id)
    ensures WholeAt(View(db, tx), c.id) <==> db.requests[c.id].status == Cancelled || Fresh(c.spans, Left(db, tx, c.id))
  {
    CountsAllLeft(db, tx, c);
    var r, v := c.id, View(db, tx);
    assert v.requests[r] == Summarised(db.requests[r], c.spans);
    if db.requests[r].status == Cancelled {
      StaysGone(db, tx, r, v.requests[r]);
    } else {
      SummaryOkExactly(db.requests[r], v.slots, r, c.spans);
    }
  }

  lemma StaysGone(db: Db, tx: Tx, r: Id, q: Request)
    requires Grows(db, View(db, tx)) && LiveSlots(db.slots, r) == {} && r in db.requests && q.status == Cancelled
    ensures RequestOk(q, View(db, tx).slots, r)
  {
    forall s | s in LiveSlots(View(db, tx).slots, r) ensures s in LiveSlots(db.slots, r) {
      assert s in db.slots && SlotMoves(db.slots[s], View(db, tx).slots[s]);
    }
  }

  // What it commits leaves every other request as it is.
  lemma WroteKeepsOthers(db: Db, tx: Tx, c: Count, r: Id)
    requires Grows(db, View(db, tx)) && Wrote(db, tx, c) && WholeAt(db, r) && r != c.id
    ensures WholeAt(View(db, tx), r)
  {
    UntouchedWhole(db, tx, r);
  }

  // ---- Another transaction commits ----

  lemma CutsStay(db: Db, u: Tx, t: Tx, id: Id)
    requires Cuts(db, t, id) && u.slots.Keys !! t.slots.Keys
    ensures Cuts(View(db, u), t, id)
  {
  }

  lemma InTurnStays(db: Db, b: Db, t: Tx, id: Id)
    requires RowsMove(db.requests, b.requests) && InTurn(db, t, id)
    ensures InTurn(b, t, id)
  {
    assert RowMoves(db.requests[id], b.requests[id]);
  }

  lemma StaysLive(db: Db, u: Tx, t: Tx, id: Id, s: Id)
    requires Grows(db, View(db, u)) && id in db.requests && Cuts(db, t, id) && IsLiveOf(Behind(db, u, t).slots, s, id)
    ensures IsLiveOf(View(db, t).slots, s, id) && View(db, t).slots[s].span == Behind(db, u, t).slots[s].span
  {
    assert s !in t.slots && s in View(db, u).slots;
    assert s in db.slots && SlotMoves(db.slots[s], View(db, u).slots[s]);
  }

  lemma CountsAllStays(db: Db, u: Tx, t: Tx, id: Id, todo: set<Id>, spans: set<Span>)
    requires Grows(db, View(db, u)) && id in db.requests && Cuts(db, t, id) && CountsAll(db, t, id, todo, spans)
    ensures CountsAll(View(db, u), t, id, todo, spans)
  {
    var a, c := View(db, t).slots, Behind(db, u, t).slots;
    forall x | x in SpansOf(c, LiveSlots(c, id) - todo) ensures x in spans {
      var s :| s in LiveSlots(c, id) - todo && s in c && c[s].span == x;
      StaysLive(db, u, t, id, s);
      assert s in LiveSlots(a, id) - todo;
    }
  }

  lemma CuttingStays(db: Db, u: Tx, t: Tx, id: Id, todo: set<Id>, spans: set<Span>)
    requires Grows(db, View(db, u)) && u.slots.Keys !! t.slots.Keys && Cutting(db, t, id, todo, spans)
    ensures Cutting(View(db, u), t, id, todo, spans)
  {
    CutsStay(db, u, t, id);
    InTurnStays(db, View(db, u), t, id);
    CountsAllStays(db, u, t, id, todo, spans);
  }

  lemma WroteStays(hash: Id -> int, db: Db, u: Tx, t: Tx, c: Count)
    requires Compatible(hash, u, t) && Grows(db, View(db, u)) && Wrote(db, t, c)
    ensures Wrote(View(db, u), t, c)
  {
    CuttingStays(db, u, t, c.id, {}, c.spans);
    assert c.id in t.rows && c.id !in u.rows;
  }

  lemma TodoOfStays(a: Db, b: Db, todo: set<Id>, id: Id)
    requires SlotsMove(a.slots, b.slots) && TodoOf(a, todo, id)
    ensures TodoOf(b, todo, id)
  {
    TodoStays(a, b, todo, id);
  }

  lemma CommitKeepsCut(db: Db, u: Tx, t: Tx)
    requires Grows(db, View(db, u)) && u.slots.Keys !! t.slots.Keys && MidCut(t.pc) && CutKnown(db, t)
    ensures CutKnown(View(db, u), t)
  {
    var b, id := View(db, u), t.pc.id;
    if t.pc.StaffCancelling? {
      CuttingStays(db, u, t, id, t.pc.todo, t.pc.kept);
      TodoOfStays(db, b, t.pc.todo, id);
    } else if t.pc.SlotChecked? {
      TodoOfStays(db, b, {t.pc.slot}, id);
    } else if t.pc.SlotGone? {
      CutsStay(db, u, t, id);
      InTurnStays(db, b, t, id);
    } else {
      CuttingStays(db, u, t, id, {}, t.pc.remaining);
    }
  }

  lemma CommitKeepsKnown(hash: Id -> int, db: Db, u: Tx, t: Tx, c: Option<Count>, r: Id)
    requires Compatible(hash, u, t) && DataOk(db, u) && DataOk(db, t) && Grows(View(db, u), Behind(db, u, t))
    requires RowWithSlots(db, u, r) && WholeAt(View(db, u), r) && Known(db, t, c, r)
    ensures Known(View(db, u), t, c, r)
  {
    if MidCut(t.pc) { CommitKeepsCut(db, u, t); }
    else if t.pc.Finished? && c.Some? { WroteStays(hash, db, u, t, c.value); }
    else if t.pc.Expiring? { CommitKeepsExpiring(hash, db, u, t, r); }
    else if t.pc.Rejecting? || t.pc.Finished? { CommitKeepsDecided(hash, db, u, t, r); }
    else { CommitKeepsEarly(db, View(db, u), t, r); }
  }

  // ---- Each statement ----

  ghost predicate KeepsKnown(db: Db, c: Option<Count>, r: Id, m: Move) {
    m.Goto? ==> Known(db, m.tx, CountAt(m.tx.pc, c), r)
  }

  // What is recorded of a transaction that has not finished is what its place says.
  predicate Recorded(pc: Pc, c: Option<Count>) {
    pc.Finished? || c == CountAt(pc, None)
  }

  predicate NoCut(m: Move) {
    m.Goto? ==> !MidCut(m.tx.pc)
  }

  lemma UncutKnown(db: Db, r: Id, m: Move)
    requires NoCut(m) && KeepsWhole(db, r, m)
    ensures KeepsKnown(db, None, r, m)
  {
  }

  lemma ApproveKnown(hash: Id -> int, db: Db, h: Held, tx: Tx, now: int, r: Id)
    requires PcOk(db, tx) && WholeAt(db, r)
    ensures KeepsKnown(db, None, r, ApproveNext(hash, db, h, tx, now))
  {
    var m := ApproveNext(hash, db, h, tx, now);
    assert NoCut(m);
    ApproveWhole(hash, db, h, tx, now, r);
    UncutKnown(db, r, m);
  }

  lemma CreateKnown(hash: Id -> int, db: Db, h: Held, tx: Tx, r: Id)
    ensures KeepsKnown(db, None, r, CreateNext(hash, db, h, tx))
  {
    var m := CreateNext(hash, db, h, tx);
    assert NoCut(m);
    CreateWhole(hash, db, h, tx, r);
    UncutKnown(db, r, m);
  }

  lemma InsertKnown(db: Db, h: Held, tx: Tx, now: int, r: Id)
    requires Good(db) && WholeAt(db, r) && PcOk(db, tx)
    ensures KeepsKnown(db, None, r, InsertNext(db, h, tx, now))
  {
    var m := InsertNext(db, h, tx, now);
    assert NoCut(m);
    InsertNextWhole(db, h, tx, now, r);
    UncutKnown(db, r, m);
  }

  lemma SettleKnown(db: Db, h: Held, tx: Tx, r: Id)
    requires DataOk(db, tx) && WholeAt(db, r) && TxWhole(db, tx, r)
    ensures KeepsKnown(db, None, r, SettleNext(db, h, tx))
  {
    var m := SettleNext(db, h, tx);
    assert NoCut(m);
    SettleWhole(db, h, tx, r);
    UncutKnown(db, r, m);
  }

  lemma RowKnown(db: Db, h: Held, tx: Tx, x: Id, r: Id)
    requires TxWhole(db, tx, r)
    ensures KeepsKnown(db, None, r, RowMove(db, h, tx, x))
  {
    var m := RowMove(db, h, tx, x);
    assert NoCut(m);
    RowMoveWhole(db, h, tx, x, r);
    UncutKnown(db, r, m);
  }

  lemma WithdrawKnown(db: Db, h: Held, tx: Tx, s: Id, now: int, r: Id)
    requires DataOk(db, tx) && TxWhole(db, tx, r) && tx.pc.WithdrawFlipped?
    ensures KeepsKnown(db, None, r, SlotMove(db, h, tx, s, now))
  {
    var m := SlotMove(db, h, tx, s, now);
    assert NoCut(m);
    WithdrawMoveWhole(db, h, tx, s, now, r);
    UncutKnown(db, r, m);
  }

  // ---- Statements of a cancellation ----

  lemma CutOne(db: Db, tx: Tx, tx': Tx, s: Id, st: Stamp, id: Id)
    requires Cuts(db, tx, id) && s in db.slots && db.slots[s].request == id && !View(db, tx).slots[s].isCancelled
    requires tx'.slots == tx.slots[s := CancelledSlot(View(db, tx).slots[s], st)]
    ensures Cuts(db, tx', id) && LiveSlots(View(db, tx').slots, id) == LiveSlots(View(db, tx).slots, id) - {s}
  {
    assert s !in tx.slots;
    assert View(db, tx').slots == View(db, tx).slots[s := CancelledSlot(View(db, tx).slots[s], st)];
    OneGone(View(db, tx).slots, s, st, id);
  }

  lemma StaffTargetsKnown(hash: Id -> int, db: Db, h: Held, tx: Tx, c: Option<Count>, r: Id)
    requires PcOk(db, tx) && TxWhole(db, tx, r) && tx.pc.StaffApproved?
    ensures KeepsKnown(db, c, r, StaffNext(hash, db, h, tx))
  {
    UnwrittenView(db, tx);
    var m := StaffNext(hash, db, h, tx);
    if m.Goto? {
      UnwrittenView(db, m.tx);
      var id := tx.pc.id;
      assert m.tx.pc.todo == Targets(db, id, tx.pc.slotIds);
      forall s | s in m.tx.pc.todo ensures s in db.slots && db.slots[s].request == id { assert s in LiveSlots(db.slots, id); }
    }
  }

  lemma StaffCutKnown(db: Db, h: Held, tx: Tx, s: Id, now: int, c: Option<Count>, r: Id)
    requires Known(db, tx, c, r) && tx.pc.StaffCancelling?
    ensures KeepsKnown(db, c, r, SlotMove(db, h, tx, s, now))
  {
    var m := SlotMove(db, h, tx, s, now);
    if m.Goto? {
      var id, todo, kept := tx.pc.id, tx.pc.todo, tx.pc.kept;
      CancelIs(db, h, tx, s, tx.pc.st, m.tx.pc);
      CutOne(db, tx, m.tx, s, tx.pc.st, id);
      CutCounts(db, tx, m.tx, s, id, todo, kept);
    }
  }

  lemma CutCounts(db: Db, tx: Tx, tx': Tx, s: Id, id: Id, todo: set<Id>, kept: set<Span>)
    requires CountsAll(db, tx, id, todo, kept) && s in todo && s in View(db, tx).slots
    requires LiveSlots(View(db, tx').slots, id) == LiveSlots(View(db, tx).slots, id) - {s}
    requires forall x :: x in View(db, tx).slots && x != s ==> x in View(db, tx').slots && View(db, tx').slots[x] == View(db, tx).slots[x]
    ensures CountsAll(db, tx', id, todo - {s}, kept)
  {
    var v, v' := View(db, tx).slots, View(db, tx').slots;
    forall x | x in SpansOf(v', LiveSlots(v', id) - (todo - {s})) ensures x in kept {
      var k :| k in LiveSlots(v', id) - (todo - {s}) && k in v' && v'[k].span == x;
      assert k in LiveSlots(v, id) - todo && k in v && v[k].span == x;
    }
  }

  lemma EndKnown(db: Db, h: Held, tx: Tx, id: Id, spans: set<Span>)
    requires tx.rows == map[] && Cutting(db, tx, id, {}, spans)
    ensures var m := WriteRow(h, tx, id, Summarised(View(db, tx).requests[id], spans), Finished({}));
      m.Goto? ==> Wrote(db, m.tx, Count(id, spans))
  {
    RowOnly(db, tx);
  }

  lemma StaffEndKnown(hash: Id -> int, db: Db, h: Held, tx: Tx, c: Option<Count>, r: Id)
    requires Known(db, tx, c, r) && tx.pc.StaffCancelling? && tx.rows == map[] && Recorded(tx.pc, c)
    ensures KeepsKnown(db, c, r, StaffNext(hash, db, h, tx))
  {
    if tx.pc.todo == {} { EndKnown(db, h, tx, tx.pc.id, tx.pc.kept); }
  }

  lemma StaffReadKnown(hash: Id -> int, db: Db, h: Held, tx: Tx, r: Id)
    requires PcOk(db, tx) && TxWhole(db, tx, r) && !tx.pc.StaffCancelling? && !tx.pc.StaffApproved?
    ensures KeepsKnown(db, None, r, StaffNext(hash, db, h, tx))
  {
    var m := StaffNext(hash, db, h, tx);
    assert NoCut(m);
    StaffReadWhole(hash, db, h, tx, r);
    UncutKnown(db, r, m);
  }

  lemma OwnerReadKnown(db: Db, h: Held, tx: Tx, now: int, c: Option<Count>, r: Id)
    requires PcOk(db, tx) && TxWhole(db, tx, r) && (tx.pc.SlotBegun? || tx.pc.SlotApproved?)
    ensures KeepsKnown(db, c, r, SlotNext(db, h, tx, now))
  {
    if Unwritten(tx) { UnwrittenView(db, tx); }
  }

  lemma OwnerCutKnown(db: Db, h: Held, tx: Tx, now: int, c: Option<Count>, r: Id)
    requires Known(db, tx, c, r) && tx.pc.SlotChecked? && OnceApproved(db, tx.pc.id)
    ensures KeepsKnown(db, c, r, SlotNext(db, h, tx, now))
  {
    var m := SlotNext(db, h, tx, now);
    if m.Goto? {
      CancelIs(db, h, tx, tx.pc.slot, Stamp(now, tx.actor, LINE_USER_ROLE, None), SlotGone(tx.pc.id));
      CutOne(db, tx, m.tx, tx.pc.slot, Stamp(now, tx.actor, LINE_USER_ROLE, None), tx.pc.id);
    }
  }

  lemma OwnerCountKnown(db: Db, h: Held, tx: Tx, now: int, c: Option<Count>, r: Id)
    requires Known(db, tx, c, r) && tx.pc.SlotGone?
    ensures KeepsKnown(db, c, r, SlotNext(db, h, tx, now))
  {
    var live := LiveSlots(View(db, tx).slots, tx.pc.id);
    assert live - {} == live;
    assert View(db, SlotNext(db, h, tx, now).tx).slots == View(db, tx).slots;
  }

  lemma OwnerEndKnown(db: Db, h: Held, tx: Tx, now: int, c: Option<Count>, r: Id)
    requires Known(db, tx, c, r) && tx.pc.SlotCounted? && tx.rows == map[] && Recorded(tx.pc, c)
    ensures KeepsKnown(db, c, r, SlotNext(db, h, tx, now))
  {
    EndKnown(db, h, tx, tx.pc.id, tx.pc.remaining);
  }

  // ---- Any statement ----

  lemma StaffKnown(hash: Id -> int, db: Db, h: Held, tx: Tx, c: Option<Count>, r: Id)
    requires PcOk(db, tx) && Known(db, tx, c, r) && Recorded(tx.pc, c)
    requires tx.pc.StaffBegun? || tx.pc.StaffFound? || tx.pc.StaffLocked? || tx.pc.StaffApproved? || tx.pc.StaffCancelling?
    ensures KeepsKnown(db, c, r, StaffNext(hash, db, h, tx))
  {
    if tx.pc.StaffCancelling? { StaffEndKnown(hash, db, h, tx, c, r); }
    else if tx.pc.StaffApproved? { StaffTargetsKnown(hash, db, h, tx, c, r); }
    else { StaffReadKnown(hash, db, h, tx, r); }
  }

  lemma OwnerMidPc(db: Db, tx: Tx)
    requires PcOk(db, tx) && OwnerMid(tx.pc)
    ensures tx.rows == map[] && OnceApproved(db, tx.pc.id)
  {
  }

  lemma OwnerKnown(db: Db, h: Held, tx: Tx, now: int, c: Option<Count>, r: Id)
    requires PcOk(db, tx) && Known(db, tx, c, r) && Recorded(tx.pc, c)
    requires OfOwner(tx.pc)
    ensures KeepsKnown(db, c, r, SlotNext(db, h, tx, now))
  {
    if tx.pc.SlotBegun? || tx.pc.SlotApproved? { OwnerReadKnown(db, h, tx, now, c, r); }
    else {
      OwnerMidPc(db, tx);
      if tx.pc.SlotChecked? { OwnerCutKnown(db, h, tx, now, c, r); }
      else if tx.pc.SlotGone? { OwnerCountKnown(db, h, tx, now, c, r); }
      else { OwnerEndKnown(db, h, tx, now, c, r); }
    }
  }

  predicate OfCancel(pc: Pc) {
    || pc.StaffBegun? || pc.StaffFound? || pc.StaffLocked? || pc.StaffApproved? || pc.StaffCancelling?
    || OfOwner(pc)
  }

  lemma OtherNext(hash: Id -> int, db: Db, h: Held, tx: Tx, now: int)
    requires !OfCancel(tx.pc)
    ensures var m := NextMove(hash, db, h, tx, now);
      m == ApproveNext(hash, db, h, tx, now) || m == CreateNext(hash, db, h, tx) || m == InsertNext(db, h, tx, now)
      || m == SettleNext(db, h, tx)
    ensures tx.pc.Finished? ==> NextMove(hash, db, h, tx, now) == Wait
  {
  }

  lemma OtherKnown(hash: Id -> int, db: Db, h: Held, tx: Tx, now: int, c: Option<Count>, r: Id)
    requires Good(db) && TxOk(db, tx) && WholeAt(db, r) && Known(db, tx, c, r) && Recorded(tx.pc, c) && !OfCancel(tx.pc)
    ensures KeepsKnown(db, c, r, NextMove(hash, db, h, tx, now))
  {
    OtherNext(hash, db, h, tx, now);
    if !tx.pc.Finished? {
      ApproveKnown(hash, db, h, tx, now, r);
      CreateKnown(hash, db, h, tx, r);
      InsertKnown(db, h, tx, now, r);
      SettleKnown(db, h, tx, r);
    }
  }

  predicate OfOwner(pc: Pc) {
    pc.SlotBegun? || pc.SlotApproved? || OwnerMid(pc)
  }

  lemma CancelNext(hash: Id -> int, db: Db, h: Held, tx: Tx, now: int)
    requires OfCancel(tx.pc)
    ensures NextMove(hash, db, h, tx, now) == if OfOwner(tx.pc) then SlotNext(db, h, tx, now) else StaffNext(hash, db, h, tx)
  {
  }

  lemma NextKnown(hash: Id -> int, db: Db, h: Held, tx: Tx, now: int, c: Option<Count>, r: Id)
    requires Good(db) && TxOk(db, tx) && WholeAt(db, r) && Known(db, tx, c, r) && Recorded(tx.pc, c)
    ensures KeepsKnown(db, c, r, NextMove(hash, db, h, tx, now))
  {
    if !OfCancel(tx.pc) {
      OtherKnown(hash, db, h, tx, now, c, r);
    } else {
      CancelNext(hash, db, h, tx, now);
      if OfOwner(tx.pc) { OwnerKnown(db, h, tx, now, c, r); } else { StaffKnown(hash, db, h, tx, c, r); }
    }
  }

  lemma UpdatesKnown(db: Db, h: Held, tx: Tx, x: Id, now: int, c: Option<Count>, r: Id)
    requires DataOk(db, tx) && Known(db, tx, c, r) && Recorded(tx.pc, c)
    ensures KeepsKnown(db, c, r, RowMove(db, h, tx, x)) && KeepsKnown(db, c, r, SlotMove(db, h, tx, x, now))
  {
    if tx.pc.StaffCancelling? { StaffCutKnown(db, h, tx, x, now, c, r); }
    else if tx.pc.WithdrawFlipped? { WithdrawKnown(db, h, tx, x, now, r); }
    else if tx.pc.Rejecting? || tx.pc.Expiring? { RowKnown(db, h, tx, x, r); }
  }

  lemma MoveKnown(hash: Id -> int, s: State, e: Event, c: Option<Count>, r: Id)
    requires RaceInv(hash, s) && (e.Next? || e.UpdateRow? || e.UpdateSlot?) && e.t in s.txs
    requires WholeAt(s.db, r) && Known(s.db, s.txs[e.t], c, r) && Recorded(s.txs[e.t].pc, c)
    ensures KeepsKnown(s.db, c, r, MoveOf(hash, s, e))
  {
    var db, h, tx := s.db, HeldByOthers(hash, s, e.t), s.txs[e.t];
    assert TxOk(db, tx);
    match e
    case Next(_, now) => NextKnown(hash, db, h, tx, now, c, r);
    case UpdateRow(_, x) => UpdatesKnown(db, h, tx, x, 0, c, r);
    case UpdateSlot(_, x, now) => UpdatesKnown(db, h, tx, x, now, c, r);
    case _ =>
  }

  // ---- Steps and runs ----

  lemma IsRecorded(hash: Id -> int, events: seq<Event>, t: TxId)
    requires t in BookingRace.Run(hash, events).txs
    ensures Recorded(BookingRace.Run(hash, events).txs[t].pc, Counted(hash, events, t))
  {
  }

  ghost predicate AllKnown(hash: Id -> int, events: seq<Event>, r: Id) {
    var s := BookingRace.Run(hash, events);
    WholeAt(s.db, r) && forall t :: t in s.txs ==> Known(s.db, s.txs[t], Counted(hash, events, t), r)
  }

  lemma WroteRow(db: Db, tx: Tx, c: Count, r: Id)
    requires Wrote(db, tx, c)
    ensures RowWithSlots(db, tx, r)
  {
  }

  lemma FinishedKnown(db: Db, tx: Tx, c: Option<Count>, r: Id)
    requires tx.pc.Finished? && Known(db, tx, c, r)
    ensures if c.Some? then Wrote(db, tx, c.value) else RowWithSlots(db, tx, r) && WholeAt(View(db, tx), r)
  {
  }

  // A transaction that commits leaves the request in order, unless it cancelled slots of it, and touches
  // no slot of it but with its row.
  lemma CommittedWhole(db: Db, tx: Tx, c: Option<Count>, r: Id)
    requires tx.pc.Finished? && DataOk(db, tx) && WholeAt(db, r) && Known(db, tx, c, r)
    ensures RowWithSlots(db, tx, r)
    ensures (c.Some? && c.value.id == r) || WholeAt(View(db, tx), r)
  {
    FinishedKnown(db, tx, c, r);
    if c.Some? {
      WroteRow(db, tx, c.value, r);
      if c.value.id != r { WroteKeepsOthers(db, tx, c.value, r); }
    }
  }

  // `t` while `u` commits.
  lemma CommitKnown(hash: Id -> int, s: State, u: TxId, t: TxId, c: Option<Count>, r: Id)
    requires RaceInv(hash, s) && u in s.txs && t in s.txs && t != u && Known(s.db, s.txs[t], c, r)
    requires RowWithSlots(s.db, s.txs[u], r) && WholeAt(View(s.db, s.txs[u]), r)
    ensures Known(View(s.db, s.txs[u]), s.txs[t], c, r)
  {
    assert TxOk(s.db, s.txs[u]) && TxOk(s.db, s.txs[t]) && Compatible(hash, s.txs[u], s.txs[t]);
    CommitGrows(hash, s.db, s.txs[u], s.txs[t]);
    CommitKeepsKnown(hash, s.db, s.txs[u], s.txs[t], c, r);
  }

  lemma SameCounted(hash: Id -> int, before: seq<Event>, e: Event, t: TxId)
    requires t in BookingRace.Run(hash, before).txs && t in BookingRace.Run(hash, before + [e]).txs
    requires BookingRace.Run(hash, before + [e]).txs[t].pc == BookingRace.Run(hash, before).txs[t].pc
    ensures Counted(hash, before + [e], t) == Counted(hash, before, t)
  {
    CountedSnoc(hash, before, e, t);
    IsRecorded(hash, before, t);
  }

  lemma AfterCommit(hash: Id -> int, before: seq<Event>, e: Event)
    requires var s := BookingRace.Run(hash, before); e.Commit? && e.t in s.txs && s.txs[e.t].pc.Finished?
    ensures var s := BookingRace.Run(hash, before);
      BookingRace.Run(hash, before + [e]) == State(View(s.db, s.txs[e.t]), s.txs - {e.t})
  {
    RunSnoc(hash, before, e);
  }

  lemma CommitStepKnown(hash: Id -> int, before: seq<Event>, e: Event, r: Id)
    requires AllKnown(hash, before, r) && RaceInv(hash, BookingRace.Run(hash, before))
    requires var s := BookingRace.Run(hash, before);
      e.Commit? && e.t in s.txs && s.txs[e.t].pc.Finished? && WholeAt(View(s.db, s.txs[e.t]), r)
      && RowWithSlots(s.db, s.txs[e.t], r)
    ensures AllKnown(hash, before + [e], r)
  {
    var s, s' := BookingRace.Run(hash, before), BookingRace.Run(hash, before + [e]);
    AfterCommit(hash, before, e);
    forall t | t in s'.txs ensures Known(s'.db, s'.txs[t], Counted(hash, before + [e], t), r) {
      CommitKnown(hash, s, e.t, t, Counted(hash, before, t), r);
      SameCounted(hash, before, e, t);
    }
  }

  lemma CommitterWhole(hash: Id -> int, before: seq<Event>, t: TxId, r: Id)
    requires AllKnown(hash, before, r) && RaceInv(hash, BookingRace.Run(hash, before))
    requires var s := BookingRace.Run(hash, before); t in s.txs && s.txs[t].pc.Finished?
    ensures var s, c := BookingRace.Run(hash, before), Counted(hash, before, t);
      && RowWithSlots(s.db, s.txs[t], r)
      && ((c.Some? && c.value.id == r) || WholeAt(View(s.db, s.txs[t]), r))
  {
    var s := BookingRace.Run(hash, before);
    assert TxOk(s.db, s.txs[t]) && Known(s.db, s.txs[t], Counted(hash, before, t), r);
    CommittedWhole(s.db, s.txs[t], Counted(hash, before, t), r);
  }

  lemma RunSnoc(hash: Id -> int, before: seq<Event>, e: Event)
    ensures BookingRace.Run(hash, before + [e]) == Step(hash, BookingRace.Run(hash, before), e)
  {
    assert (before + [e])[..|before|] == before;
  }

  lemma CountedSnoc(hash: Id -> int, before: seq<Event>, e: Event, t: TxId)
    requires t in BookingRace.Run(hash, before + [e]).txs
    ensures Counted(hash, before + [e], t) == CountAt(BookingRace.Run(hash, before + [e]).txs[t].pc, Counted(hash, before, t))
  {
    assert (before + [e])[..|before|] == before;
  }

  // A step that is no commit of a finished transaction writes no table and moves at most its own.
  lemma OthersStay(hash: Id -> int, s: State, e: Event)
    requires !(e.Commit? && e.t in s.txs && s.txs[e.t].pc.Finished?)
    ensures var s' := Step(hash, s, e);
      && s'.db == s.db
      && (forall t :: t in s'.txs && t != e.t ==> t in s.txs && s'.txs[t] == s.txs[t])
      && (e.t in s'.txs && e.t !in s.txs ==> e.Begin? && Starts(e.pc) && s'.txs[e.t] == Tx(e.actor, e.pc, None, map[], map[]))
      && (e.t in s'.txs && e.t in s.txs && s'.txs[e.t] != s.txs[e.t] ==>
            (e.Next? || e.UpdateRow? || e.UpdateSlot?) && MoveOf(hash, s, e) == Goto(s'.txs[e.t]))
  {
  }

  lemma OwnStepKnown(hash: Id -> int, before: seq<Event>, e: Event, r: Id)
    requires AllKnown(hash, before, r) && RaceInv(hash, BookingRace.Run(hash, before))
    requires var s := BookingRace.Run(hash, before); !(e.Commit? && e.t in s.txs && s.txs[e.t].pc.Finished?)
    requires e.t in BookingRace.Run(hash, before + [e]).txs
    ensures var s' := BookingRace.Run(hash, before + [e]); Known(s'.db, s'.txs[e.t], Counted(hash, before + [e], e.t), r)
  {
    var s := BookingRace.Run(hash, before);
    RunSnoc(hash, before, e);
    OthersStay(hash, s, e);
    CountedSnoc(hash, before, e, e.t);
    if e.t !in s.txs {
      StartWhole(s.db, Step(hash, s, e).txs[e.t], r);
    } else {
      IsRecorded(hash, before, e.t);
      if Step(hash, s, e).txs[e.t] != s.txs[e.t] { MoveKnown(hash, s, e, Counted(hash, before, e.t), r); }
    }
  }

  lemma MoveStepKnown(hash: Id -> int, before: seq<Event>, e: Event, r: Id)
    requires AllKnown(hash, before, r) && RaceInv(hash, BookingRace.Run(hash, before))
    requires var s := BookingRace.Run(hash, before); !(e.Commit? && e.t in s.txs && s.txs[e.t].pc.Finished?)
    ensures AllKnown(hash, before + [e], r)
  {
    var s, s' := BookingRace.Run(hash, before), BookingRace.Run(hash, before + [e]);
    RunSnoc(hash, before, e);
    OthersStay(hash, s, e);
    forall t | t in s'.txs ensures Known(s'.db, s'.txs[t], Counted(hash, before + [e], t), r) {
      if t == e.t {
        OwnStepKnown(hash, before, e, r);
      } else {
        SameCounted(hash, before, e, t);
      }
    }
  }

  ghost predicate AlwaysWhole(hash: Id -> int, events: seq<Event>, r: Id) {
    forall i :: 0 <= i <= |events| ==> WholeAt(BookingRace.Run(hash, events[..i]).db, r)
  }

  lemma AlwaysSnoc(hash: Id -> int, before: seq<Event>, e: Event, r: Id)
    ensures AlwaysWhole(hash, before + [e], r)
       <==> AlwaysWhole(hash, before, r) && WholeAt(BookingRace.Run(hash, before + [e]).db, r)
  {
    var all := before + [e];
    assert all[..|all|] == all;
    forall i | 0 <= i <= |before| ensures all[..i] == before[..i] {}
  }

  lemma {:induction false} RunKnown(hash: Id -> int, events: seq<Event>, r: Id)
    requires AlwaysWhole(hash, events, r)
    ensures AllKnown(hash, events, r)
  {
    if events != [] {
      var before, e := events[..|events| - 1], events[|events| - 1];
      assert events == before + [e];
      AlwaysSnoc(hash, before, e, r);
      RunKnown(hash, before, r);
      RaceKeepsInv(hash, before);
      RunSnoc(hash, before, e);
      var s := BookingRace.Run(hash, before);
      if e.Commit? && e.t in s.txs && s.txs[e.t].pc.Finished? {
        CommitterWhole(hash, before, e.t, r);
        AfterCommit(hash, before, e);
        CommitStepKnown(hash, before, e, r);
      } else {
        MoveStepKnown(hash, before, e, r);
      }
    }
  }

  // ---- Main results ----

  // `t` is about to commit a cancellation of `r` that counted `counted`.
  ghost predicate Commits(hash: Id -> int, events: seq<Event>, t: TxId, r: Id, counted: set<Span>) {
    var s := BookingRace.Run(hash, events);
    t in s.txs && s.txs[t].pc.Finished? && Counted(hash, events, t) == Some(Count(r, counted))
  }

  // Then it has written the row from what it counted.
  lemma CommitsWrote(hash: Id -> int, events: seq<Event>, t: TxId, r: Id, counted: set<Span>)
    requires AlwaysWhole(hash, events, r) && Commits(hash, events, t, r, counted)
    ensures var s := BookingRace.Run(hash, events);
      WholeAt(s.db, r) && Wrote(s.db, s.txs[t], Count(r, counted)) && Grows(s.db, View(s.db, s.txs[t]))
  {
    RunKnown(hash, events, r);
    RaceKeepsInv(hash, events);
    var s := BookingRace.Run(hash, events);
    assert TxOk(s.db, s.txs[t]) && Known(s.db, s.txs[t], Counted(hash, events, t), r);
  }

  // With the request in order so far, committing a cancellation of it keeps it in order if and only if some
  // slot still left starts as early as any it counted and some ends as late.
  lemma CommitKeepsExactly(hash: Id -> int, events: seq<Event>, t: TxId, r: Id, counted: set<Span>)
    requires AlwaysWhole(hash, events, r) && Commits(hash, events, t, r, counted)
    ensures var s := BookingRace.Run(hash, events);
      && r in s.db.requests
      && (WholeAt(Step(hash, s, Commit(t)).db, r)
          <==> s.db.requests[r].status == Cancelled || Fresh(counted, Left(s.db, s.txs[t], r)))
  {
    var s := BookingRace.Run(hash, events);
    CommitsWrote(hash, events, t, r, counted);
    WroteKeepsExactly(s.db, s.txs[t], Count(r, counted));
  }

  lemma WroteStrandsExactly(db: Db, tx: Tx, c: Count)
    requires Grows(db, View(db, tx)) && Wrote(db, tx, c)
    ensures var v := View(db, tx);
      && c.id in v.requests
      && (v.requests[c.id].status == Approved && LiveSlots(v.slots, c.id) == {}
          <==> db.requests[c.id].status == Approved && c.spans != {} && Left(db, tx, c.id) == {})
  {
    CountsAllLeft(db, tx, c);
    NoSpansNoSlots(View(db, tx).slots, LiveSlots(View(db, tx).slots, c.id));
  }

  // It strands the request, APPROVED with nothing live, if and only if it counted some remaining slot and
  // every slot it counted is cancelled in the committed tables.
  lemma CommitStrandsExactly(hash: Id -> int, events: seq<Event>, t: TxId, r: Id, counted: set<Span>)
    requires AlwaysWhole(hash, events, r) && Commits(hash, events, t, r, counted)
    ensures var s := BookingRace.Run(hash, events);
      var b := Step(hash, s, Commit(t)).db;
      && r in s.db.requests && r in b.requests
      && (b.requests[r].status == Approved && LiveSlots(b.slots, r) == {}
          <==> s.db.requests[r].status == Approved && counted != {} && Left(s.db, s.txs[t], r) == {})
  {
    var s := BookingRace.Run(hash, events);
    CommitsWrote(hash, events, t, r, counted);
    WroteStrandsExactly(s.db, s.txs[t], Count(r, counted));
  }

  // A commit that overlooks what has gone.
  ghost predicate Overlooks(hash: Id -> int, before: seq<Event>, e: Event, r: Id) {
    var s := BookingRace.Run(hash, before);
    && e.Commit? && e.t in s.txs && s.txs[e.t].pc.Finished? && r in s.db.requests && s.db.requests[r].status != Cancelled
    && var c := Counted(hash, before, e.t);
       c.Some? && c.value.id == r && !Fresh(c.value.spans, Left(s.db, s.txs[e.t], r))
  }

  lemma StepKeepsWhole(hash: Id -> int, before: seq<Event>, e: Event, r: Id)
    requires AlwaysWhole(hash, before, r)
    ensures WholeAt(BookingRace.Run(hash, before + [e]).db, r) <==> !Overlooks(hash, before, e, r)
  {
    var s := BookingRace.Run(hash, before);
    RunSnoc(hash, before, e);
    RunKnown(hash, before, r);
    if e.Commit? && e.t in s.txs && s.txs[e.t].pc.Finished? {
      var c := Counted(hash, before, e.t);
      if c.Some? && c.value.id == r {
        CommitKeepsExactly(hash, before, e.t, r, c.value.spans);
      } else {
        RaceKeepsInv(hash, before);
        CommitterWhole(hash, before, e.t, r);
      }
    } else {
      OthersStay(hash, s, e);
    }
  }

  // In every interleaving, under any lock hash: the request follows its slots at every moment of a run if
  // and only if no cancellation of it commits over a count whose first start or last end has gone.
  lemma {:induction false} FollowsExactly(hash: Id -> int, events: seq<Event>, r: Id)
    ensures AlwaysWhole(hash, events, r)
       <==> forall i :: 0 <= i < |events| ==> !Overlooks(hash, events[..i], events[i], r)
  {
    if events != [] {
      var before, e := events[..|events| - 1], events[|events| - 1];
      assert events == before + [e];
      FollowsExactly(hash, before, r);
      AlwaysSnoc(hash, before, e, r);
      if AlwaysWhole(hash, before, r) { StepKeepsWhole(hash, before, e, r); }
      forall i | 0 <= i < |before| ensures events[..i] == before[..i] && events[i] == before[i] {}
    }
  }
}
