// One announcement row and the requests that race for it: send, PATCH and DELETE, interleaved
// statement by statement under READ COMMITTED, with the LINE multicast inside the send's row lock.
module AnnouncementSend {
  import opened Wrappers
  import opened Text

  datatype Format = TextFormat | FlexFormat
  datatype Status = Draft | Sent
  datatype Audience = All | Department

  // What recipients see and who they are.
  datatype Content = Content(title: string, body: string, format: Format, audience: Audience, departmentId: Option<int>)

  // Every write stamps `updatedAt`, which the client sets.
  datatype Row = Row(
    content: Content, status: Status, sentAt: Option<int>, sentCount: nat, deletedAt: Option<int>, updatedAt: int)

  // A departmentId in a request body: left out, null, or a number.
  datatype SentDepartment = Omitted | Null | Number(id: int)

  datatype Patch = Patch(
    title: Option<string>, body: Option<string>, format: Option<Format>,
    audience: Option<Audience>, departmentId: SentDepartment)

  datatype Reply =
    | Done | NotFound | AlreadySent | SentImmutable | SendInProgress | BodyRequired | DepartmentInvalid
    | DepartmentNotAllowed | DepartmentRequired | UpdateEmpty | LineFailed | Unavailable

  type TxId = nat

  // Where a request is. The three Send and two Remove states between Lock and the end hold the row lock.
  datatype Proc =
    | SendStart
    | SendLocked
    | SendReady(content: Content, seed: int, recipients: nat)
    | SendWritten(written: Row)
    | PatchStart(patch: Patch)
    | PatchResolved(patch: Patch, audience: Audience, departmentId: Option<int>)
    | PatchMissed
    | RemoveStart
    | RemoveLocked
    | RemoveWritten(written: Row)
    | Finished(reply: Reply)

  // `active` holds the departments a write may name, `reserved` those only a super admin may.
  // `line` is every message LINE accepted for somebody. The seed, the row's `updatedAt` as the send read
  // it, is what LINE's retry keys are made from.
  datatype Accepted = Accepted(content: Content, seed: int, count: nat)
  datatype State = State(
    row: Row, lock: Option<TxId>, procs: map<TxId, Proc>,
    active: set<int>, reserved: set<int>, line: seq<Accepted>)

  datatype Event =
    | Begin(tx: TxId, proc: Proc)
    | Lock(tx: TxId)
    | Load(tx: TxId, recipients: nat, now: int, stamp: int)
    | Multicast(tx: TxId, accepted: nat, now: int, stamp: int)
    | WriteDeleted(tx: TxId, now: int, stamp: int)
    | Commit(tx: TxId)
    | ReadRow(tx: TxId, includeReserved: bool)
    | WritePatch(tx: TxId, stamp: int)
    | ReadAgain(tx: TxId)
    | Fail(tx: TxId)
    | Departments(active: set<int>, reserved: set<int>)

  predicate HoldsLock(p: Proc) {
    p.SendLocked? || p.SendReady? || p.SendWritten? || p.RemoveLocked? || p.RemoveWritten?
  }

  // `text.trim() === ''`.
  predicate Blank(text: string) {
    Trim(text) == ""
  }

  // `resolveDepartmentId`: the department to persist, or the refusal.
  datatype Resolution = Persist(departmentId: Option<int>) | Refuse(reply: Reply)

  function ResolveDepartment(
    audience: Audience, sent: SentDepartment, stored: Option<int>,
    active: set<int>, reserved: set<int>, includeReserved: bool): (r: Resolution)
    ensures r.Persist? ==> (audience == All <==> r.departmentId == None)
    ensures r.Persist? && audience == Department ==>
      r.departmentId.value in active && (includeReserved || r.departmentId.value !in reserved)
    ensures r.Persist? && sent.Number? ==> r.departmentId == Some(sent.id)
    ensures r.Persist? && audience == Department && sent.Omitted? ==> r.departmentId == stored
  {
    if audience == All then
      if sent.Number? then Refuse(DepartmentNotAllowed) else Persist(None)
    else
      var id := match sent case Omitted => stored case Null => None case Number(n) => Some(n);
      if id == None then Refuse(DepartmentRequired)
      else if id.value in active && (includeReserved || id.value !in reserved) then Persist(id)
      else Refuse(DepartmentInvalid)
  }

  function Merge(c: Content, p: Patch, audience: Audience, departmentId: Option<int>): Content {
    Content(
      if p.title.Some? then p.title.value else c.title,
      if p.body.Some? then p.body.value else c.body,
      if p.format.Some? then p.format.value else c.format,
      audience, departmentId)
  }

  predicate EmptyPatch(p: Patch) {
    p.title.None? && p.body.None? && p.format.None? && p.audience.None? && p.departmentId.Omitted?
  }

  ghost function Goto(s: State, tx: TxId, p: Proc): State {
    s.(procs := s.procs[tx := p])
  }

  // Ends a request and gives back the row lock if it was its own.
  ghost function End(s: State, tx: TxId, reply: Reply): State {
    s.(procs := s.procs[tx := Finished(reply)], lock := if s.lock == Some(tx) then None else s.lock)
  }

  ghost function At(s: State, tx: TxId): Option<Proc> {
    if tx in s.procs then Some(s.procs[tx]) else None
  }

  // A step that is not enabled leaves the state as it is.
  ghost function Step(s: State, e: Event): State {
    match e
    case Begin(tx, proc) =>
      if tx !in s.procs && (proc.SendStart? || proc.PatchStart? || proc.RemoveStart?) then Goto(s, tx, proc) else s
    case Lock(tx) =>
      if At(s, tx) == Some(SendStart) || At(s, tx) == Some(RemoveStart) then TakeLock(s, tx) else s
    case Load(tx, recipients, now, stamp) =>
      if At(s, tx) == Some(SendLocked) then LoadContent(s, tx, recipients, now, stamp) else s
    case Multicast(tx, accepted, now, stamp) =>
      if tx in s.procs && s.procs[tx].SendReady? && accepted <= s.procs[tx].recipients then
        SendToLine(s, tx, s.procs[tx], accepted, now, stamp)
      else s
    case WriteDeleted(tx, now, stamp) =>
      if At(s, tx) == Some(RemoveLocked) then
        Goto(s, tx, RemoveWritten(s.row.(deletedAt := Some(now), updatedAt := stamp)))
      else s
    case Commit(tx) =>
      if tx in s.procs && (s.procs[tx].SendWritten? || s.procs[tx].RemoveWritten?) then
        End(s.(row := s.procs[tx].written), tx, Done)
      else s
    case ReadRow(tx, includeReserved) =>
      if tx in s.procs && s.procs[tx].PatchStart? then ReadForPatch(s, tx, s.procs[tx].patch, includeReserved) else s
    case WritePatch(tx, stamp) =>
      if tx in s.procs && s.procs[tx].PatchResolved? && s.lock == None then ApplyPatch(s, tx, s.procs[tx], stamp) else s
    case ReadAgain(tx) =>
      if At(s, tx) == Some(PatchMissed) then
        End(s, tx, if s.row.deletedAt.Some? then NotFound else SentImmutable)
      else s
    case Fail(tx) =>
      if tx in s.procs && !s.procs[tx].Finished? then End(s, tx, Unavailable) else s
    case Departments(active, reserved) => s.(active := active, reserved := reserved)
  }

  // `SELECT … WHERE "deletedAt" IS NULL FOR UPDATE NOWAIT`: a deleted row never matches, so it is
  // never waited for; a held row answers at once.
  ghost function TakeLock(s: State, tx: TxId): State
    requires tx in s.procs
  {
    if s.row.deletedAt.Some? then End(s, tx, NotFound)
    else if s.lock.Some? then End(s, tx, SendInProgress)
    else if s.procs[tx].RemoveStart? then Goto(s.(lock := Some(tx)), tx, RemoveLocked)
    else if s.row.status == Sent then End(s, tx, AlreadySent)
    else Goto(s.(lock := Some(tx)), tx, SendLocked)
  }

  ghost function LoadContent(s: State, tx: TxId, recipients: nat, now: int, stamp: int): State {
    var c := s.row.content;
    if Blank(c.body) then End(s, tx, BodyRequired)
    else if c.audience == Department && (c.departmentId == None || c.departmentId.value !in s.active) then
      End(s, tx, DepartmentInvalid)
    else if recipients == 0 then Goto(s, tx, SendWritten(SentRow(s.row, 0, now, stamp)))
    else Goto(s, tx, SendReady(c, s.row.updatedAt, recipients))
  }

  function SentRow(row: Row, count: nat, now: int, stamp: int): Row {
    row.(status := Sent, sentAt := Some(now), sentCount := count, updatedAt := stamp)
  }

  ghost function SendToLine(s: State, tx: TxId, p: Proc, accepted: nat, now: int, stamp: int): State
    requires p.SendReady?
  {
    if accepted == 0 then End(s, tx, LineFailed)
    else Goto(s.(line := s.line + [Accepted(p.content, p.seed, accepted)]), tx,
              SendWritten(SentRow(s.row, accepted, now, stamp)))
  }

  ghost function ReadForPatch(s: State, tx: TxId, p: Patch, includeReserved: bool): State {
    if EmptyPatch(p) then End(s, tx, UpdateEmpty)
    else if s.row.deletedAt.Some? then End(s, tx, NotFound)
    else if s.row.status == Sent then End(s, tx, SentImmutable)
    else
      var audience := if p.audience.Some? then p.audience.value else s.row.content.audience;
      match ResolveDepartment(audience, p.departmentId, s.row.content.departmentId, s.active, s.reserved, includeReserved)
      case Refuse(reply) => End(s, tx, reply)
      case Persist(departmentId) => Goto(s, tx, PatchResolved(p, audience, departmentId))
  }

  // `updateMany WHERE status = DRAFT AND deletedAt IS NULL`, re-evaluated on the committed row.
  ghost function ApplyPatch(s: State, tx: TxId, q: Proc, stamp: int): State
    requires q.PatchResolved?
  {
    if s.row.status == Draft && s.row.deletedAt == None then
      End(s.(row := s.row.(content := Merge(s.row.content, q.patch, q.audience, q.departmentId), updatedAt := stamp)), tx, Done)
    else Goto(s, tx, PatchMissed)
  }

  // A send whose LINE call was accepted but whose commit was lost: LINE has the message, the row does not
  // say so.
  ghost predicate LosesAcceptedSend(s: State, e: Event) {
    e.Fail? && e.tx in s.procs && s.procs[e.tx].SendWritten? && s.procs[e.tx].written.sentCount > 0
  }

  ghost predicate Initial(s: State) {
    && s.row.status == Draft && s.row.sentCount == 0 && s.row.deletedAt == None
    && AudienceOk(s.row.content)
    && s.lock == None && s.procs == map[] && s.line == []
  }

  ghost predicate AudienceOk(c: Content) {
    c.audience == All <==> c.departmentId == None
  }

  ghost function Run(s: State, events: seq<Event>): State {
    if events == [] then s else Step(Run(s, events[..|events| - 1]), events[|events| - 1])
  }

  // What a step loses: a message LINE accepted that no row will ever tell of.
  ghost function LostBy(s: State, e: Event): seq<Accepted> {
    if LosesAcceptedSend(s, e) then
      var written := s.procs[e.tx].written;
      [Accepted(written.content, s.row.updatedAt, written.sentCount)]
    else []
  }

  ghost function Lost(s: State, events: seq<Event>): seq<Accepted> {
    if events == [] then []
    else Lost(s, events[..|events| - 1]) + LostBy(Run(s, events[..|events| - 1]), events[|events| - 1])
  }

  // ---- The invariant ----

  // LINE accepted what was lost, and then what this row tells of.
  ghost predicate LineMatches(row: Row, line: seq<Accepted>, lost: seq<Accepted>) {
    if row.sentCount == 0 then line == lost
    else
      && |line| == |lost| + 1 && line[..|lost|] == lost
      && line[|lost|].content == row.content && line[|lost|].count == row.sentCount
  }

  ghost predicate ProcOk(s: State, lost: seq<Accepted>, tx: TxId, p: Proc) {
    && (HoldsLock(p) ==> s.lock == Some(tx) && s.row.deletedAt == None)
    && (p.SendLocked? || p.SendReady? || p.SendWritten? ==> s.row.status == Draft)
    && (p.SendReady? ==> p.content == s.row.content && p.seed == s.row.updatedAt)
    && (p.SendWritten? ==> WrittenOk(s, lost, p.written))
    && (p.RemoveWritten? ==>
          p.written.deletedAt.Some?
          && p.written == s.row.(deletedAt := p.written.deletedAt, updatedAt := p.written.updatedAt))
    && (p.PatchResolved? ==> (p.audience == All <==> p.departmentId == None))
    && (p.PatchMissed? ==> s.row.status == Sent || s.row.deletedAt.Some?)
  }

  // A row about to read SENT: the message LINE accepted for it was made from the row as it still is.
  ghost predicate WrittenOk(s: State, lost: seq<Accepted>, written: Row) {
    && written.content == s.row.content && written.status == Sent && written.deletedAt == None
    && LineMatches(written, s.line, lost)
    && (written.sentCount > 0 ==> s.line[|lost|].seed == s.row.updatedAt)
  }

  ghost predicate WritesSent(s: State) {
    s.lock.Some? && s.lock.value in s.procs && s.procs[s.lock.value].SendWritten?
  }

  ghost predicate Inv(s: State, lost: seq<Accepted>) {
    && AudienceOk(s.row.content)
    && (s.row.status == Draft ==> s.row.sentCount == 0)
    && (!WritesSent(s) ==> LineMatches(s.row, s.line, lost))
    && (s.lock.Some? ==> s.lock.value in s.procs && HoldsLock(s.procs[s.lock.value]))
    && (forall tx :: tx in s.procs ==> ProcOk(s, lost, tx, s.procs[tx]))
  }

  // Moving one request, with row, lock and line as they are.
  lemma GotoKeepsInv(s: State, lost: seq<Accepted>, tx: TxId, p: Proc)
    requires Inv(s, lost) && ProcOk(s, lost, tx, p)
    requires s.lock == Some(tx) ==> HoldsLock(p)
    requires tx in s.procs ==> !s.procs[tx].SendWritten?
    requires p.SendWritten? ==> p.written.sentCount == 0
    ensures Inv(Goto(s, tx, p), lost)
  {
    var s' := Goto(s, tx, p);
    forall t | t in s'.procs ensures ProcOk(s', lost, t, s'.procs[t]) {
      if t != tx { assert ProcOk(s, lost, t, s.procs[t]); }
    }
  }

  lemma TakeKeepsInv(s: State, lost: seq<Accepted>, tx: TxId, p: Proc)
    requires Inv(s, lost) && s.lock == None && (p == RemoveLocked || (p == SendLocked && s.row.status == Draft))
    requires s.row.deletedAt == None
    ensures Inv(Goto(s.(lock := Some(tx)), tx, p), lost)
  {
    var s' := Goto(s.(lock := Some(tx)), tx, p);
    forall t | t in s'.procs ensures ProcOk(s', lost, t, s'.procs[t]) {
      if t != tx { assert ProcOk(s, lost, t, s.procs[t]); }
    }
  }

  // Ending a request without a write of its own.
  lemma EndKeepsInv(s: State, lost: seq<Accepted>, tx: TxId, reply: Reply)
    requires Inv(s, lost) && tx in s.procs
    requires s.procs[tx].SendWritten? ==> s.procs[tx].written.sentCount == 0
    ensures Inv(End(s, tx, reply), lost)
  {
    var s' := End(s, tx, reply);
    assert ProcOk(s, lost, tx, s.procs[tx]);
    forall t | t in s'.procs ensures ProcOk(s', lost, t, s'.procs[t]) {
      if t != tx { assert ProcOk(s, lost, t, s.procs[t]); }
    }
  }

  // The commit of an accepted send is lost.
  lemma LossKeepsInv(s: State, lost: seq<Accepted>, tx: TxId)
    requires Inv(s, lost) && LosesAcceptedSend(s, Fail(tx))
    ensures Inv(End(s, tx, Unavailable), lost + LostBy(s, Fail(tx)))
  {
    var s', lost' := End(s, tx, Unavailable), lost + LostBy(s, Fail(tx));
    assert ProcOk(s, lost, tx, s.procs[tx]);
    assert s.line == s.line[..|lost|] + [s.line[|lost|]];
    forall t | t in s'.procs ensures ProcOk(s', lost', t, s'.procs[t]) {
      if t != tx { assert ProcOk(s, lost, t, s.procs[t]); }
    }
  }

  lemma MulticastKeepsInv(s: State, lost: seq<Accepted>, tx: TxId, accepted: nat, now: int, stamp: int)
    requires Inv(s, lost) && tx in s.procs && s.procs[tx].SendReady? && accepted > 0
    ensures Inv(SendToLine(s, tx, s.procs[tx], accepted, now, stamp), lost)
  {
    var s' := SendToLine(s, tx, s.procs[tx], accepted, now, stamp);
    assert ProcOk(s, lost, tx, s.procs[tx]);
    assert s'.line[..|lost|] == lost;
    forall t | t in s'.procs ensures ProcOk(s', lost, t, s'.procs[t]) {
      if t != tx { assert ProcOk(s, lost, t, s.procs[t]); }
    }
  }

  lemma CommitKeepsInv(s: State, lost: seq<Accepted>, tx: TxId)
    requires Inv(s, lost) && tx in s.procs && (s.procs[tx].SendWritten? || s.procs[tx].RemoveWritten?)
    ensures Inv(End(s.(row := s.procs[tx].written), tx, Done), lost)
  {
    var s' := End(s.(row := s.procs[tx].written), tx, Done);
    assert ProcOk(s, lost, tx, s.procs[tx]);
    forall t | t in s'.procs ensures ProcOk(s', lost, t, s'.procs[t]) {
      if t != tx { assert ProcOk(s, lost, t, s.procs[t]); }
    }
  }

  lemma PatchKeepsInv(s: State, lost: seq<Accepted>, tx: TxId, stamp: int)
    requires Inv(s, lost) && tx in s.procs && s.procs[tx].PatchResolved? && s.lock == None
    ensures Inv(ApplyPatch(s, tx, s.procs[tx], stamp), lost)
  {
    var s' := ApplyPatch(s, tx, s.procs[tx], stamp);
    assert ProcOk(s, lost, tx, s.procs[tx]);
    forall t | t in s'.procs ensures ProcOk(s', lost, t, s'.procs[t]) {
      if t != tx { assert ProcOk(s, lost, t, s.procs[t]); }
    }
  }

  lemma LoadKeepsInv(s: State, lost: seq<Accepted>, tx: TxId, recipients: nat, now: int, stamp: int)
    requires Inv(s, lost) && At(s, tx) == Some(SendLocked)
    ensures Inv(LoadContent(s, tx, recipients, now, stamp), lost)
  {
    var s' := LoadContent(s, tx, recipients, now, stamp);
    assert ProcOk(s, lost, tx, s.procs[tx]);
    if s'.procs[tx].Finished? {
      EndKeepsInv(s, lost, tx, s'.procs[tx].reply);
    } else {
      GotoKeepsInv(s, lost, tx, s'.procs[tx]);
    }
  }

  lemma ReadKeepsInv(s: State, lost: seq<Accepted>, tx: TxId, includeReserved: bool)
    requires Inv(s, lost) && tx in s.procs && s.procs[tx].PatchStart?
    ensures Inv(ReadForPatch(s, tx, s.procs[tx].patch, includeReserved), lost)
  {
    var s' := ReadForPatch(s, tx, s.procs[tx].patch, includeReserved);
    assert ProcOk(s, lost, tx, s.procs[tx]);
    if s'.procs[tx].Finished? {
      EndKeepsInv(s, lost, tx, s'.procs[tx].reply);
    } else {
      GotoKeepsInv(s, lost, tx, s'.procs[tx]);
    }
  }

  lemma RemoveKeepsInv(s: State, lost: seq<Accepted>, tx: TxId, now: int, stamp: int)
    requires Inv(s, lost) && At(s, tx) == Some(RemoveLocked)
    ensures Inv(Goto(s, tx, RemoveWritten(s.row.(deletedAt := Some(now), updatedAt := stamp))), lost)
  {
    assert ProcOk(s, lost, tx, s.procs[tx]);
    GotoKeepsInv(s, lost, tx, RemoveWritten(s.row.(deletedAt := Some(now), updatedAt := stamp)));
  }

  lemma DepartmentsKeepInv(s: State, lost: seq<Accepted>, active: set<int>, reserved: set<int>)
    requires Inv(s, lost)
    ensures Inv(s.(active := active, reserved := reserved), lost)
  {
    var s' := s.(active := active, reserved := reserved);
    forall t | t in s'.procs ensures ProcOk(s', lost, t, s'.procs[t]) { assert ProcOk(s, lost, t, s.procs[t]); }
  }

  lemma LockKeepsInv(s: State, lost: seq<Accepted>, tx: TxId)
    requires Inv(s, lost) && (At(s, tx) == Some(SendStart) || At(s, tx) == Some(RemoveStart))
    ensures Inv(TakeLock(s, tx), lost)
  {
    if s.row.deletedAt.Some? || s.lock.Some? { EndKeepsInv(s, lost, tx, TakeLock(s, tx).procs[tx].reply); }
    else if s.procs[tx].RemoveStart? { TakeKeepsInv(s, lost, tx, RemoveLocked); }
    else if s.row.status == Sent { EndKeepsInv(s, lost, tx, AlreadySent); }
    else { TakeKeepsInv(s, lost, tx, SendLocked); }
  }

  lemma QuietStepKeepsInv(s: State, lost: seq<Accepted>, e: Event)
    requires Inv(s, lost) && !LosesAcceptedSend(s, e) && Step(s, e) != s
    ensures Inv(Step(s, e), lost)
  {
    match e
    case Begin(tx, proc) => GotoKeepsInv(s, lost, tx, proc);
    case Lock(tx) => LockKeepsInv(s, lost, tx);
    case Load(tx, recipients, now, stamp) => LoadKeepsInv(s, lost, tx, recipients, now, stamp);
    case Multicast(tx, accepted, now, stamp) =>
      if accepted == 0 { EndKeepsInv(s, lost, tx, LineFailed); }
      else { MulticastKeepsInv(s, lost, tx, accepted, now, stamp); }
    case WriteDeleted(tx, now, stamp) => RemoveKeepsInv(s, lost, tx, now, stamp);
    case Commit(tx) => CommitKeepsInv(s, lost, tx);
    case ReadRow(tx, includeReserved) => ReadKeepsInv(s, lost, tx, includeReserved);
    case WritePatch(tx, stamp) => PatchKeepsInv(s, lost, tx, stamp);
    case ReadAgain(tx) => EndKeepsInv(s, lost, tx, Step(s, e).procs[tx].reply);
    case Fail(tx) => EndKeepsInv(s, lost, tx, Unavailable);
    case Departments(active, reserved) => DepartmentsKeepInv(s, lost, active, reserved);
  }

  lemma StepKeepsInv(s: State, lost: seq<Accepted>, e: Event)
    requires Inv(s, lost)
    ensures Inv(Step(s, e), lost + LostBy(s, e))
  {
    if LosesAcceptedSend(s, e) {
      LossKeepsInv(s, lost, e.tx);
    } else {
      assert lost + LostBy(s, e) == lost;
      if Step(s, e) != s { QuietStepKeepsInv(s, lost, e); }
    }
  }

  lemma {:induction false} RunKeepsInv(s: State, events: seq<Event>)
    requires Initial(s)
    ensures Inv(Run(s, events), Lost(s, events))
  {
    if events != [] {
      var before := events[..|events| - 1];
      RunKeepsInv(s, before);
      StepKeepsInv(Run(s, before), Lost(s, before), events[|events| - 1]);
    }
  }

  // ---- Main results ----

  // The message of a send that LINE has accepted and whose commit is still to come.
  ghost predicate InFlight(s: State) {
    WritesSent(s) && s.procs[s.lock.value].written.sentCount > 0
  }

  // Over any run, every message LINE accepted is one whose commit was lost, or the one the SENT row tells
  // of, or the one of the send about to commit. So LINE accepts at most one unless a commit is lost.
  lemma AcceptedAreAccounted(s: State, events: seq<Event>)
    requires Initial(s)
    ensures var t := Run(s, events);
      |t.line| == |Lost(s, events)| + if (t.row.status == Sent && t.row.sentCount > 0) || InFlight(t) then 1 else 0
  {
    RunKeepsInv(s, events);
    var t := Run(s, events);
    if t.lock.Some? { assert ProcOk(t, Lost(s, events), t.lock.value, t.procs[t.lock.value]); }
  }

  // Once the row is SENT it says exactly what was multicast last and to how many, whatever was lost
  // before. A SENT row with count 0 reached nobody by the send that wrote it.
  lemma SentRowMatchesLine(s: State, events: seq<Event>)
    requires Initial(s)
    ensures var t, lost := Run(s, events), Lost(s, events);
      && (t.row.status == Sent ==> LineMatches(t.row, t.line, lost))
      && (t.row.status == Draft && !InFlight(t) ==> t.line == lost)
      && (t.row.content.audience == All <==> t.row.content.departmentId == None)
  {
    RunKeepsInv(s, events);
    var t := Run(s, events);
    if t.lock.Some? { assert ProcOk(t, Lost(s, events), t.lock.value, t.procs[t.lock.value]); }
  }

  // What one step may do to the row: a SENT row changes only by being deleted, a deleted one never.
  ghost predicate RowEvolves(a: Row, b: Row) {
    && (a.status == Sent ==> b == a.(deletedAt := b.deletedAt, updatedAt := b.updatedAt))
    && (a.deletedAt.Some? ==> b == a)
  }

  lemma StepEvolves(s: State, lost: seq<Accepted>, e: Event)
    requires Inv(s, lost)
    ensures RowEvolves(s.row, Step(s, e).row)
  {
    if e.Commit? && e.tx in s.procs {
      assert ProcOk(s, lost, e.tx, s.procs[e.tx]);
    }
  }

  // Over any continuation of a run: content, count and time of a SENT row stay for ever, and a deleted
  // row never changes again.
  lemma {:induction false} RowSettles(s: State, events: seq<Event>, more: seq<Event>)
    requires Initial(s)
    ensures RowEvolves(Run(s, events).row, Run(s, events + more).row)
  {
    if more == [] {
      assert events + more == events;
    } else {
      var all := events + more;
      assert all[..|all| - 1] == events + more[..|more| - 1];
      RowSettles(s, events, more[..|more| - 1]);
      RunKeepsInv(s, all[..|all| - 1]);
      StepEvolves(Run(s, all[..|all| - 1]), Lost(s, all[..|all| - 1]), all[|all| - 1]);
    }
  }

  // While a request holds the row lock, no step but its own commit changes the row.
  lemma LockFreezesRow(s: State, events: seq<Event>, e: Event, tx: TxId)
    requires Initial(s)
    requires Run(s, events).lock == Some(tx) && Step(Run(s, events), e).row != Run(s, events).row
    ensures e == Commit(tx)
  {
    RunKeepsInv(s, events);
    var t := Run(s, events);
    if e.Commit? && e.tx in t.procs {
      assert ProcOk(t, Lost(s, events), e.tx, t.procs[e.tx]);
    }
  }

  // From the lock to the last statement of a send.
  predicate Sending(s: State, tx: TxId) {
    tx in s.procs && (s.procs[tx].SendLocked? || s.procs[tx].SendReady? || s.procs[tx].SendWritten?)
  }

  predicate Ended(s: State, tx: TxId) {
    tx in s.procs && s.procs[tx].Finished?
  }

  // One step of anybody while `tx` is sending.
  lemma SendingStep(s: State, lost: seq<Accepted>, e: Event, tx: TxId)
    requires Inv(s, lost) && Sending(s, tx)
    ensures var t := Step(s, e);
      && (Sending(t, tx) || (Ended(t, tx) && t.lock == None))
      && (t.row == s.row || At(t, tx) == Some(Finished(Done)))
  {
    assert ProcOk(s, lost, tx, s.procs[tx]);
    if e.Commit? && e.tx in s.procs { assert ProcOk(s, lost, e.tx, s.procs[e.tx]); }
  }

  predicate Delivered(s: State, tx: TxId) {
    tx in s.procs && s.procs[tx].SendWritten? && s.procs[tx].written.sentCount > 0
  }

  // It either still can commit what LINE accepted, or has, or has lost it.
  ghost predicate Delivering(s: State, tx: TxId) {
    Delivered(s, tx) || At(s, tx) == Some(Finished(Done)) || At(s, tx) == Some(Finished(Unavailable))
  }

  lemma SendingLine(s: State, lost: seq<Accepted>, e: Event, tx: TxId)
    requires Inv(s, lost) && Sending(s, tx)
    ensures var t := Step(s, e); (t.line == s.line || Delivering(t, tx)) && (Delivered(s, tx) ==> Delivering(t, tx))
  {
    assert ProcOk(s, lost, tx, s.procs[tx]);
    if e.Multicast? && e.tx in s.procs { assert ProcOk(s, lost, e.tx, s.procs[e.tx]); }
  }

  ghost predicate UnderWay(s: State, before: seq<Event>, during: seq<Event>, tx: TxId) {
    forall k :: 0 <= k < |during| ==> !Ended(Run(s, before + during[..k]), tx)
  }

  lemma {:induction false} SendKeepsRow(s: State, before: seq<Event>, during: seq<Event>, tx: TxId)
    requires Initial(s) && At(Run(s, before), tx) == Some(SendLocked) && UnderWay(s, before, during, tx)
    ensures var a, t := Run(s, before), Run(s, before + during);
      && (Sending(t, tx) || (Ended(t, tx) && t.lock == None))
      && (At(t, tx) == Some(Finished(Done)) || t.row == a.row)
      && (t.line == a.line || Delivering(t, tx))
  {
    if during == [] {
      assert before + during == before;
    } else {
      var less, all := during[..|during| - 1], before + during;
      assert all[..|all| - 1] == before + less;
      forall k | 0 <= k < |less| ensures less[..k] == during[..k] {}
      SendKeepsRow(s, before, less, tx);
      assert during[..|less|] == less;
      RunKeepsInv(s, before + less);
      SendingStep(Run(s, before + less), Lost(s, before + less), all[|all| - 1], tx);
      SendingLine(Run(s, before + less), Lost(s, before + less), all[|all| - 1], tx);
    }
  }

  // A send that took the row and was refused, whatever for and whatever else ran meanwhile, leaves the
  // row as it was when it took it, still DRAFT. LINE has accepted nothing meanwhile, unless the refusal is
  // the loss of the send's own commit.
  lemma RefusedSendChangesNothing(s: State, before: seq<Event>, during: seq<Event>, tx: TxId)
    requires Initial(s)
    requires At(Run(s, before), tx) == Some(SendLocked) && UnderWay(s, before, during, tx)
    requires var t := Run(s, before + during); Ended(t, tx) && t.procs[tx].reply != Done
    ensures var a, t := Run(s, before), Run(s, before + during);
      && t.row == a.row && a.row.status == Draft && a.line == Lost(s, before) && t.line == Lost(s, before + during)
      && (t.procs[tx].reply != Unavailable ==> t.line == a.line)
  {
    SendKeepsRow(s, before, during, tx);
    RunKeepsInv(s, before);
    RunKeepsInv(s, before + during);
    assert ProcOk(Run(s, before), Lost(s, before), tx, SendLocked);
  }

  // A PATCH that lost its race tells the truth: 409 means the row is SENT, 404 that it is deleted.
  lemma LateReplyIsTrue(s: State, events: seq<Event>, tx: TxId)
    requires Initial(s) && At(Run(s, events), tx) == Some(PatchMissed)
    ensures var t := Run(s, events);
      var after := Step(t, ReadAgain(tx));
      && after.row == t.row
      && At(after, tx) == Some(Finished(if t.row.deletedAt.Some? then NotFound else SentImmutable))
      && (t.row.deletedAt == None ==> t.row.status == Sent)
  {
    RunKeepsInv(s, events);
    assert ProcOk(Run(s, events), Lost(s, events), tx, Run(s, events).procs[tx]);
  }

  // ---- Resends ----

  ghost predicate PatchApplies(s: State, e: Event) {
    e.WritePatch? && e.tx in s.procs && s.procs[e.tx].PatchResolved? && s.lock == None
    && s.row.status == Draft && s.row.deletedAt == None
  }

  // No event of `more` is a PATCH that takes effect.
  ghost predicate NoPatchApplies(s: State, before: seq<Event>, more: seq<Event>) {
    more != [] ==>
      var less := more[..|more| - 1];
      NoPatchApplies(s, before, less) && !PatchApplies(Run(s, before + less), more[|more| - 1])
  }

  predicate Sendable(row: Row) {
    row.status == Draft && row.deletedAt == None
  }

  // What one step may add to what LINE has accepted: a message made from the row as it is.
  lemma StepAccepts(s: State, lost: seq<Accepted>, e: Event)
    requires Inv(s, lost)
    ensures var t := Step(s, e);
      && (t.line == s.line || (Sendable(s.row) && |t.line| == |s.line| + 1 && t.line[..|s.line|] == s.line
                               && t.line[|s.line|].seed == s.row.updatedAt && t.line[|s.line|].content == s.row.content))
      && (!PatchApplies(s, e) && Sendable(t.row) ==> t.row == s.row)
  {
    if (e.Multicast? || e.Commit?) && e.tx in s.procs {
      assert ProcOk(s, lost, e.tx, s.procs[e.tx]);
    }
  }

  // From `a` to `t` every message LINE accepted carries the seed and the content of the row at `a`.
  ghost predicate OneKey(a: State, t: State) {
    && |a.line| <= |t.line|
    && (Sendable(t.row) ==> t.row == a.row)
    && forall k :: |a.line| <= k < |t.line| ==> t.line[k].seed == a.row.updatedAt && t.line[k].content == a.row.content
  }

  lemma StepKeepsOneKey(a: State, b: State, lost: seq<Accepted>, e: Event)
    requires Inv(b, lost) && OneKey(a, b) && !PatchApplies(b, e)
    ensures OneKey(a, Step(b, e))
  {
    var t := Step(b, e);
    StepAccepts(b, lost, e);
    forall k | |a.line| <= k < |t.line| ensures t.line[k].seed == a.row.updatedAt && t.line[k].content == a.row.content {
      if k < |b.line| { assert t.line == b.line || t.line[..|b.line|][k] == t.line[k]; }
    }
  }

  // As long as no PATCH is applied, every message LINE accepts carries one seed and one content: a resend
  // after a lost commit reuses the retry keys of the first.
  lemma {:induction false} ResendsReuseTheKeys(s: State, before: seq<Event>, more: seq<Event>)
    requires Initial(s) && NoPatchApplies(s, before, more)
    ensures OneKey(Run(s, before), Run(s, before + more))
  {
    if more == [] {
      assert before + more == before;
    } else {
      var less, e := more[..|more| - 1], more[|more| - 1];
      ResendsReuseTheKeys(s, before, less);
      RunKeepsInv(s, before + less);
      StepKeepsOneKey(Run(s, before), Run(s, before + less), Lost(s, before + less), e);
      assert before + more == (before + less) + [e];
      RunSnoc(s, before + less, e);
    }
  }

  lemma RunSnoc(s: State, before: seq<Event>, e: Event)
    ensures Run(s, before + [e]) == Step(Run(s, before), e)
    ensures Lost(s, before + [e]) == Lost(s, before) + LostBy(Run(s, before), e)
  {
    assert (before + [e])[..|before|] == before;
  }

  ghost predicate ReadyToSend(s: State, tx: TxId) {
    && Sendable(s.row) && s.lock == None && tx !in s.procs
    && !Blank(s.row.content.body)
    && (s.row.content.audience == Department ==> s.row.content.departmentId.Some? && s.row.content.departmentId.value in s.active)
  }

  // A send that LINE accepts for everybody and whose commit is lost, after `before`.
  function ThenLostSend(before: seq<Event>, tx: TxId, n: nat, now: int): seq<Event> {
    before + [Begin(tx, SendStart)] + [Lock(tx)] + [Load(tx, n, now, now)] + [Multicast(tx, n, now, now)] + [Fail(tx)]
  }

  lemma LockedToReady(s: State, tx: TxId, n: nat, now: int)
    requires ReadyToSend(s, tx) && n > 0
    ensures var a := Step(s, Begin(tx, SendStart));
      var b := Step(a, Lock(tx));
      && a == s.(procs := s.procs[tx := SendStart])
      && b == s.(procs := s.procs[tx := SendLocked], lock := Some(tx))
      && Step(b, Load(tx, n, now, now))
         == s.(procs := s.procs[tx := SendReady(s.row.content, s.row.updatedAt, n)], lock := Some(tx))
  {
    var a := Step(s, Begin(tx, SendStart));
    assert s.procs[tx := SendStart][tx := SendLocked] == s.procs[tx := SendLocked];
    var p := SendReady(s.row.content, s.row.updatedAt, n);
    assert s.procs[tx := SendLocked][tx := p] == s.procs[tx := p];
  }

  lemma ReadyToLost(s: State, tx: TxId, n: nat, now: int)
    requires tx in s.procs && s.procs[tx] == SendReady(s.row.content, s.row.updatedAt, n) && n > 0 && s.lock == Some(tx)
    ensures var d := Step(s, Multicast(tx, n, now, now));
      && LostBy(d, Fail(tx)) == [Accepted(s.row.content, s.row.updatedAt, n)]
      && Step(d, Fail(tx)) == s.(procs := s.procs[tx := Finished(Unavailable)], lock := None,
                                 line := s.line + [Accepted(s.row.content, s.row.updatedAt, n)])
  {
    var d := Step(s, Multicast(tx, n, now, now));
    assert Step(d, Fail(tx)).procs == s.procs[tx := Finished(Unavailable)];
  }

  lemma FiveSteps(s: State, before: seq<Event>, a: Event, b: Event, c: Event, d: Event, e: Event)
    requires !a.Fail? && !b.Fail? && !c.Fail? && !d.Fail?
    ensures var s4 := Step(Step(Step(Step(Run(s, before), a), b), c), d);
      var all := before + [a] + [b] + [c] + [d] + [e];
      Run(s, all) == Step(s4, e) && Lost(s, all) == Lost(s, before) + LostBy(s4, e)
  {
    RunSnoc(s, before, a);
    RunSnoc(s, before + [a], b);
    RunSnoc(s, before + [a] + [b], c);
    RunSnoc(s, before + [a] + [b] + [c], d);
    RunSnoc(s, before + [a] + [b] + [c] + [d], e);
  }

  ghost function Lose(s: State, tx: TxId, n: nat): State {
    s.(procs := s.procs[tx := Finished(Unavailable)], line := s.line + [Accepted(s.row.content, s.row.updatedAt, n)])
  }

  lemma SendIsLost(s: State, tx: TxId, n: nat, now: int)
    requires ReadyToSend(s, tx) && n > 0
    ensures var d := Step(Step(Step(Step(s, Begin(tx, SendStart)), Lock(tx)), Load(tx, n, now, now)), Multicast(tx, n, now, now));
      Step(d, Fail(tx)) == Lose(s, tx, n) && LostBy(d, Fail(tx)) == [Accepted(s.row.content, s.row.updatedAt, n)]
  {
    var p := SendReady(s.row.content, s.row.updatedAt, n);
    LockedToReady(s, tx, n, now);
    ReadyToLost(s.(procs := s.procs[tx := p], lock := Some(tx)), tx, n, now);
    assert s.procs[tx := p][tx := Finished(Unavailable)] == s.procs[tx := Finished(Unavailable)];
  }

  // The row still reads DRAFT, LINE has the message, and the next send can do the same.
  lemma LostSendRepeats(s: State, before: seq<Event>, tx: TxId, n: nat, now: int)
    requires ReadyToSend(Run(s, before), tx) && n > 0
    ensures var r, all := Run(s, before), ThenLostSend(before, tx, n, now);
      && Run(s, all) == Lose(r, tx, n) && |Lost(s, all)| == |Lost(s, before)| + 1
  {
    SendIsLost(Run(s, before), tx, n, now);
    FiveSteps(s, before, Begin(tx, SendStart), Lock(tx), Load(tx, n, now, now), Multicast(tx, n, now, now), Fail(tx));
  }

  function LostSends(k: nat, n: nat, now: int): seq<Event> {
    if k == 0 then [] else ThenLostSend(LostSends(k - 1, n, now), k - 1, n, now)
  }

  ghost predicate LostSoFar(s: State, events: seq<Event>, k: nat) {
    var t := Run(s, events);
    && t.row == s.row && |t.line| == |Lost(s, events)| == k && ReadyToSend(t, k)
    && forall tx :: tx in t.procs ==> tx < k
  }

  lemma LostAgain(s: State, before: seq<Event>, k: nat, n: nat, now: int)
    requires LostSoFar(s, before, k) && n > 0
    ensures LostSoFar(s, ThenLostSend(before, k, n, now), k + 1)
  {
    LostSendRepeats(s, before, k, n, now);
  }

  lemma {:induction false} LostSendsAddUp(s: State, k: nat, n: nat, now: int)
    requires Initial(s) && ReadyToSend(s, 0) && n > 0
    ensures LostSoFar(s, LostSends(k, n, now), k)
  {
    if k > 0 {
      LostSendsAddUp(s, k - 1, n, now);
      LostAgain(s, LostSends(k - 1, n, now), k - 1, n, now);
    }
  }

  // Any number of commits can be lost, and then LINE accepts the same announcement that many times while
  // the row stays as it was, ready to be sent again.
  lemma LostCommitsRepeatTheSend(s: State, k: nat, n: nat, now: int)
    requires Initial(s) && ReadyToSend(s, 0) && n > 0
    ensures var t := Run(s, LostSends(k, n, now)); t.row == s.row && |t.line| == k && ReadyToSend(t, k)
  {
    LostSendsAddUp(s, k, n, now);
  }
}
