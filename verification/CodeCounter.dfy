// Concurrent creators that count the day's rows, then insert under the unique index on `code`,
// as interleaved steps under READ COMMITTED. Nothing deletes a row.
module CodeCounter {
  import opened BookingCode

  type TxId = nat

  // A committed row, in commit order: its code and its `createdAt`.
  datatype Row = Row(code: string, stamp: int)

  // One submission. `start` is how many rows were committed when it began, `days` the Bangkok days of
  // the instants its attempts took, `seen` how many rows were committed when this attempt counted.
  datatype Creator =
    | Counting(attempt: nat, start: nat, days: set<int>)
    | Counted(attempt: nat, start: nat, days: set<int>, now: int, count: nat, seen: nat)
    | Inserted(row: Row)
    | Created
    | GaveUp(start: nat, days: set<int>)

  datatype State = State(rows: seq<Row>, creators: map<TxId, Creator>)

  datatype Event =
    | Begin(tx: TxId)
    | Count(tx: TxId, now: int)
    | Insert(tx: TxId, stamp: int)
    | Commit(tx: TxId)
    | Abort(tx: TxId)

  const MAX_ATTEMPTS := 5

  function DayOf(r: Row): int {
    LocalDay(r.stamp)
  }

  // `count({ createdAt: { gte, lt } })`.
  function CountWithin(rows: seq<Row>, range: Range): nat {
    if rows == [] then 0
    else CountWithin(rows[..|rows| - 1], range) + if Within(range, rows[|rows| - 1].stamp) then 1 else 0
  }

  ghost predicate HasCode(rows: seq<Row>, code: string) {
    exists i :: 0 <= i < |rows| && rows[i].code == code
  }

  // Another uncommitted insert holds the same index entry, so an insert of `code` waits.
  ghost predicate HeldByOther(s: State, tx: TxId, code: string) {
    exists other :: other in s.creators && other != tx && s.creators[other].Inserted? && s.creators[other].row.code == code
  }

  // A step that is not enabled leaves the state as it is.
  ghost function Step(s: State, e: Event): State {
    match e
    case Begin(tx) =>
      if tx in s.creators then s else s.(creators := s.creators[tx := Counting(1, |s.rows|, {})])
    case Count(tx, now) =>
      if tx in s.creators && s.creators[tx].Counting? then
        var c := s.creators[tx];
        s.(creators := s.creators[tx :=
          Counted(c.attempt, c.start, c.days + {LocalDay(now)}, now, CountWithin(s.rows, DayRange(now)), |s.rows|)])
      else s
    case Insert(tx, stamp) =>
      if tx in s.creators && s.creators[tx].Counted? then
        s.(creators := s.creators[tx := AfterInsert(s, tx, stamp)])
      else s
    case Commit(tx) =>
      if tx in s.creators && s.creators[tx].Inserted? then
        State(s.rows + [s.creators[tx].row], s.creators[tx := Created])
      else s
    case Abort(tx) =>
      if tx in s.creators && !s.creators[tx].GaveUp? then s.(creators := s.creators - {tx}) else s
  }

  ghost function AfterInsert(s: State, tx: TxId, stamp: int): Creator
    requires tx in s.creators && s.creators[tx].Counted?
  {
    var c := s.creators[tx];
    if HeldByOther(s, tx, FormatCode(c.now, c.count)) then c
    else if HasCode(s.rows, FormatCode(c.now, c.count)) then Refused(c)
    else Inserted(Row(FormatCode(c.now, c.count), stamp))
  }

  // A unique violation: try again, unless this was the last attempt.
  function Refused(c: Creator): Creator
    requires c.Counted?
  {
    if c.attempt == MAX_ATTEMPTS then GaveUp(c.start, c.days) else Counting(c.attempt + 1, c.start, c.days)
  }

  // Every count is taken in a year Date.UTC does not move.
  predicate OrdinaryYears(events: seq<Event>) {
    forall i :: 0 <= i < |events| && events[i].Count? ==> !TwoDigitYear(events[i].now)
  }

  // The row is stamped on the day its code names. The code takes the application's clock, the stamp is
  // the database's default.
  ghost predicate Labelled(r: Row) {
    exists k: nat :: r.code == FormatCode(r.stamp, k)
  }

  ghost predicate AllLabelled(rows: seq<Row>) {
    forall i :: 0 <= i < |rows| ==> Labelled(rows[i])
  }

  ghost function Run(events: seq<Event>): State {
    if events == [] then State([], map[]) else Step(Run(events[..|events| - 1]), events[|events| - 1])
  }

  // ---- Counting by day ----

  function CountDay(rows: seq<Row>, d: int): nat {
    CountDays(rows, {d})
  }

  function CountDays(rows: seq<Row>, days: set<int>): nat {
    if rows == [] then 0
    else CountDays(rows[..|rows| - 1], days) + if DayOf(rows[|rows| - 1]) in days then 1 else 0
  }

  lemma {:induction false} CountWithinIsCountDay(rows: seq<Row>, now: int)
    requires !TwoDigitYear(now)
    ensures CountWithin(rows, DayRange(now)) == CountDay(rows, LocalDay(now))
  {
    if rows != [] {
      CountWithinIsCountDay(rows[..|rows| - 1], now);
      DayRangesTile(now, rows[|rows| - 1].stamp);
    }
  }

  lemma {:induction false} CountDaysSplit(a: seq<Row>, b: seq<Row>, days: set<int>)
    ensures CountDays(a + b, days) == CountDays(a, days) + CountDays(b, days)
  {
    if b == [] {
      assert a + b == a;
    } else {
      assert (a + b)[..|a + b| - 1] == a + b[..|b| - 1];
      CountDaysSplit(a, b[..|b| - 1], days);
    }
  }

  lemma {:induction false} CountDaysGrow(rows: seq<Row>, days: set<int>, more: set<int>)
    requires days <= more
    ensures CountDays(rows, days) <= CountDays(rows, more)
  {
    if rows != [] { CountDaysGrow(rows[..|rows| - 1], days, more); }
  }

  // Each position of a day below the count is taken by one row.
  lemma {:induction false} RowAtPosition(rows: seq<Row>, d: int, k: nat) returns (i: nat)
    requires k < CountDay(rows, d)
    ensures i < |rows| && DayOf(rows[i]) == d && CountDay(rows[..i], d) == k
  {
    var init := rows[..|rows| - 1];
    if k < CountDay(init, d) {
      i := RowAtPosition(init, d, k);
      assert init[..i] == rows[..i];
    } else {
      i := |rows| - 1;
    }
  }

  lemma PrefixCounts(rows: seq<Row>, i: nat, j: nat, d: int)
    requires i < j <= |rows|
    ensures CountDay(rows[..i], d) + (if DayOf(rows[i]) == d then 1 else 0) <= CountDay(rows[..j], d)
  {
    assert rows[..i + 1][..i] == rows[..i];
    assert rows[..j] == rows[..i + 1] + rows[i + 1..j];
    CountDaysSplit(rows[..i + 1], rows[i + 1..j], {d});
  }

  lemma PrefixAtMost(rows: seq<Row>, i: nat, d: int)
    requires i <= |rows|
    ensures CountDay(rows[..i], d) <= CountDay(rows, d)
  {
    assert rows == rows[..i] + rows[i..];
    CountDaysSplit(rows[..i], rows[i..], {d});
  }

  // ---- The invariant ----

  // The k-th row of a Bangkok day to commit carries sequence k (k counted from 0 here).
  ghost predicate InOrder(rows: seq<Row>) {
    forall i :: 0 <= i < |rows| ==> rows[i].code == FormatCode(rows[i].stamp, CountDay(rows[..i], DayOf(rows[i])))
  }

  ghost predicate NextInLine(rows: seq<Row>, r: Row) {
    r.code == FormatCode(r.stamp, CountDay(rows, DayOf(r)))
  }

  // At least `n` rows of the attempted days committed after the submission began.
  ghost predicate Overtaken(rows: seq<Row>, start: nat, days: set<int>, n: int) {
    start <= |rows| && CountDays(rows[start..], days) >= n
  }

  ghost predicate CreatorOk(rows: seq<Row>, c: Creator) {
    match c
    case Counting(attempt, start, days) => 1 <= attempt <= MAX_ATTEMPTS && Overtaken(rows, start, days, attempt - 1)
    case Counted(attempt, start, days, now, count, seen) =>
      && 1 <= attempt <= MAX_ATTEMPTS && LocalDay(now) in days
      && start <= seen <= |rows| && count == CountDay(rows[..seen], LocalDay(now))
      && Overtaken(rows[..seen], start, days, attempt - 1)
    case Inserted(row) => Labelled(row) ==> NextInLine(rows, row)
    case Created => true
    case GaveUp(start, days) => Overtaken(rows, start, days, MAX_ATTEMPTS)
  }

  ghost predicate DistinctHeld(creators: map<TxId, Creator>) {
    forall t, u :: t in creators && u in creators && t != u && creators[t].Inserted? && creators[u].Inserted?
      ==> creators[t].row.code != creators[u].row.code
  }

  ghost predicate Inv(s: State) {
    && InOrder(s.rows)
    && (forall tx :: tx in s.creators ==> CreatorOk(s.rows, s.creators[tx]))
    && DistinctHeld(s.creators)
  }

  lemma OvertakenGrows(rows: seq<Row>, r: Row, start: nat, days: set<int>, n: int)
    requires Overtaken(rows, start, days, n)
    ensures Overtaken(rows + [r], start, days, n)
  {
    assert (rows + [r])[start..] == rows[start..] + [r];
    CountDaysSplit(rows[start..], [r], days);
  }

  // What one creator is owed survives another creator's commit.
  lemma CommitKeepsCreator(rows: seq<Row>, r: Row, c: Creator)
    requires CreatorOk(rows, c) && NextInLine(rows, r)
    requires c.Inserted? ==> c.row.code != r.code
    ensures CreatorOk(rows + [r], c)
  {
    match c
    case Counting(attempt, start, days) => OvertakenGrows(rows, r, start, days, attempt - 1);
    case GaveUp(start, days) => OvertakenGrows(rows, r, start, days, MAX_ATTEMPTS);
    case Counted(attempt, start, days, now, count, seen) => assert (rows + [r])[..seen] == rows[..seen];
    case Inserted(row) =>
      CodesDiffer(row.stamp, CountDay(rows, DayOf(row)), r.stamp, CountDay(rows, DayOf(r)));
      assert (rows + [r])[..|rows|] == rows;
    case Created =>
  }

  lemma CommitKeepsOrder(rows: seq<Row>, r: Row)
    requires InOrder(rows) && NextInLine(rows, r)
    ensures InOrder(rows + [r])
  {
    forall i | 0 <= i < |rows + [r]|
      ensures (rows + [r])[i].code == FormatCode((rows + [r])[i].stamp, CountDay((rows + [r])[..i], DayOf((rows + [r])[i])))
    {
      assert (rows + [r])[..i] == rows[..i];
      if i == |rows| { assert rows[..i] == rows; }
    }
  }

  // A code the index accepts is the next one of its day.
  lemma FreeCodeIsNext(rows: seq<Row>, now: int, count: nat, stamp: int)
    requires InOrder(rows) && LocalDay(stamp) == LocalDay(now)
    requires count <= CountDay(rows, LocalDay(now)) && !HasCode(rows, FormatCode(now, count))
    ensures NextInLine(rows, Row(FormatCode(now, count), stamp))
  {
    if count < CountDay(rows, LocalDay(now)) {
      var i := RowAtPosition(rows, LocalDay(now), count);
      CodesDiffer(rows[i].stamp, count, now, count);
    }
    CodesDiffer(now, count, stamp, count);
  }

  lemma LaterRowCounts(rows: seq<Row>, start: nat, seen: nat, i: nat, days: set<int>)
    requires start <= seen <= i < |rows| && DayOf(rows[i]) in days
    ensures CountDays(rows[start..], days) >= CountDays(rows[..seen][start..], days) + 1
  {
    var before, after := rows[..seen][start..], rows[seen..];
    assert rows[start..] == before + after;
    CountDaysSplit(before, after, days);
    var k := i - seen;
    assert after == after[..k + 1] + after[k + 1..];
    CountDaysSplit(after[..k + 1], after[k + 1..], days);
    assert after[..k + 1][k] == rows[i];
  }

  // A code the index refuses belongs to a row that committed after the count.
  lemma TakenCodeIsNewer(rows: seq<Row>, now: int, count: nat, seen: nat) returns (i: nat)
    requires InOrder(rows) && seen <= |rows| && count == CountDay(rows[..seen], LocalDay(now))
    requires HasCode(rows, FormatCode(now, count))
    ensures seen <= i < |rows| && DayOf(rows[i]) == LocalDay(now)
  {
    i :| 0 <= i < |rows| && rows[i].code == FormatCode(now, count);
    CodesDiffer(rows[i].stamp, CountDay(rows[..i], DayOf(rows[i])), now, count);
    if i < seen {
      PrefixCounts(rows, i, seen, LocalDay(now));
    }
  }

  // Replacing one creator keeps the invariant when the new one is in order and holds a free code.
  lemma ReplaceCreator(s: State, tx: TxId, c: Creator)
    requires Inv(s) && CreatorOk(s.rows, c)
    requires c.Inserted? ==> !HeldByOther(s, tx, c.row.code)
    ensures Inv(s.(creators := s.creators[tx := c]))
  {
  }

  lemma CountKeepsInv(s: State, tx: TxId, now: int)
    requires Inv(s) && !TwoDigitYear(now) && tx in s.creators && s.creators[tx].Counting?
    ensures Inv(Step(s, Count(tx, now)))
  {
    var c := s.creators[tx];
    assert CreatorOk(s.rows, c);
    CountWithinIsCountDay(s.rows, now);
    assert s.rows[..|s.rows|] == s.rows;
    CountDaysGrow(s.rows[c.start..], c.days, c.days + {LocalDay(now)});
    ReplaceCreator(s, tx, Step(s, Count(tx, now)).creators[tx]);
  }

  lemma RefusedInsertIsOvertaken(rows: seq<Row>, c: Creator)
    requires InOrder(rows) && c.Counted? && CreatorOk(rows, c) && HasCode(rows, FormatCode(c.now, c.count))
    ensures CreatorOk(rows, Refused(c))
  {
    var i := TakenCodeIsNewer(rows, c.now, c.count, c.seen);
    LaterRowCounts(rows, c.start, c.seen, i, c.days);
  }

  lemma AcceptedInsertIsNext(rows: seq<Row>, c: Creator, stamp: int)
    requires InOrder(rows) && c.Counted? && CreatorOk(rows, c) && !HasCode(rows, FormatCode(c.now, c.count))
    ensures CreatorOk(rows, Inserted(Row(FormatCode(c.now, c.count), stamp)))
  {
    var r := Row(FormatCode(c.now, c.count), stamp);
    if Labelled(r) {
      var k: nat :| r.code == FormatCode(r.stamp, k);
      CodesDiffer(c.now, c.count, stamp, k);
      PrefixAtMost(rows, c.seen, LocalDay(c.now));
      FreeCodeIsNext(rows, c.now, c.count, stamp);
    }
  }

  lemma InsertKeepsCreator(s: State, tx: TxId, stamp: int)
    requires Inv(s) && tx in s.creators && s.creators[tx].Counted?
    ensures CreatorOk(s.rows, AfterInsert(s, tx, stamp))
  {
    var c := s.creators[tx];
    assert CreatorOk(s.rows, c);
    if HasCode(s.rows, FormatCode(c.now, c.count)) {
      RefusedInsertIsOvertaken(s.rows, c);
    } else {
      AcceptedInsertIsNext(s.rows, c, stamp);
    }
  }

  lemma InsertedCodeIsFree(s: State, tx: TxId, stamp: int)
    requires tx in s.creators && s.creators[tx].Counted?
    ensures var c := AfterInsert(s, tx, stamp); c.Inserted? ==> !HeldByOther(s, tx, c.row.code)
  {
  }

  lemma CommitIs(s: State, tx: TxId)
    requires tx in s.creators && s.creators[tx].Inserted?
    ensures Step(s, Commit(tx)) == State(s.rows + [s.creators[tx].row], s.creators[tx := Created])
  {
  }

  lemma CommitKeepsInv(s: State, tx: TxId, r: Row)
    requires Inv(s) && tx in s.creators && s.creators[tx] == Inserted(r) && Labelled(r)
    ensures Inv(Step(s, Commit(tx)))
  {
    CommitRow(s, tx, r);
    CommitIs(s, tx);
  }

  lemma CommitRow(s: State, tx: TxId, r: Row)
    requires Inv(s) && tx in s.creators && s.creators[tx] == Inserted(r) && Labelled(r)
    ensures Inv(State(s.rows + [r], s.creators[tx := Created]))
  {
    assert CreatorOk(s.rows, s.creators[tx]);
    CommitKeepsOrder(s.rows, r);
    CommitKeepsOthers(s, tx, r);
    FinishCreator(s.creators, tx, s.rows + [r]);
  }

  lemma FinishCreator(creators: map<TxId, Creator>, tx: TxId, rows: seq<Row>)
    requires forall other :: other in creators && other != tx ==> CreatorOk(rows, creators[other])
    requires DistinctHeld(creators) && tx in creators
    ensures var after := creators[tx := Created];
      (forall other :: other in after ==> CreatorOk(rows, after[other])) && DistinctHeld(after)
  {
  }

  lemma CommitKeepsOthers(s: State, tx: TxId, r: Row)
    requires Inv(s) && tx in s.creators && s.creators[tx] == Inserted(r) && Labelled(r)
    ensures forall other :: other in s.creators && other != tx ==> CreatorOk(s.rows + [r], s.creators[other])
  {
    assert CreatorOk(s.rows, s.creators[tx]);
    forall other | other in s.creators && other != tx ensures CreatorOk(s.rows + [r], s.creators[other]) {
      assert CreatorOk(s.rows, s.creators[other]);
      CommitKeepsCreator(s.rows, r, s.creators[other]);
    }
  }

  lemma InsertKeepsInv(s: State, tx: TxId, stamp: int)
    requires Inv(s)
    ensures Inv(Step(s, Insert(tx, stamp)))
  {
    if tx in s.creators && s.creators[tx].Counted? {
      InsertKeepsCreator(s, tx, stamp);
      InsertedCodeIsFree(s, tx, stamp);
      ReplaceCreator(s, tx, AfterInsert(s, tx, stamp));
    }
  }

  lemma CommittedIsLabelled(s: State, tx: TxId)
    requires tx in s.creators && s.creators[tx].Inserted? && AllLabelled(Step(s, Commit(tx)).rows)
    ensures Labelled(s.creators[tx].row)
  {
    CommitIs(s, tx);
    assert Step(s, Commit(tx)).rows[|s.rows|] == s.creators[tx].row;
  }

  lemma BeginKeepsInv(s: State, tx: TxId)
    requires Inv(s)
    ensures Inv(Step(s, Begin(tx)))
  {
    ReplaceCreator(s, tx, Counting(1, |s.rows|, {}));
  }

  lemma RemoveCreator(s: State, tx: TxId)
    requires Inv(s)
    ensures Inv(s.(creators := s.creators - {tx}))
  {
  }

  lemma AbortIs(s: State, tx: TxId)
    ensures Step(s, Abort(tx)) == s || Step(s, Abort(tx)) == s.(creators := s.creators - {tx})
  {
  }

  lemma StepKeepsInv(s: State, e: Event)
    requires Inv(s) && (e.Count? ==> !TwoDigitYear(e.now)) && AllLabelled(Step(s, e).rows)
    ensures Inv(Step(s, e))
  {
    match e
    case Begin(tx) => BeginKeepsInv(s, tx);
    case Count(tx, now) => if tx in s.creators && s.creators[tx].Counting? { CountKeepsInv(s, tx, now); }
    case Insert(tx, stamp) => InsertKeepsInv(s, tx, stamp);
    case Commit(tx) =>
      if tx in s.creators && s.creators[tx].Inserted? {
        CommittedIsLabelled(s, tx);
        CommitKeepsInv(s, tx, s.creators[tx].row);
      }
    case Abort(tx) =>
      RemoveCreator(s, tx);
      AbortIs(s, tx);
  }

  lemma RowsGrow(s: State, e: Event)
    ensures |s.rows| <= |Step(s, e).rows| && Step(s, e).rows[..|s.rows|] == s.rows
  {
  }

  lemma LabelledPrefix(a: seq<Row>, b: seq<Row>)
    requires |a| <= |b| && b[..|a|] == a && AllLabelled(b)
    ensures AllLabelled(a)
  {
    forall i | 0 <= i < |a| ensures Labelled(a[i]) { assert a[i] == b[i]; }
  }

  lemma {:induction false} RunKeepsInv(events: seq<Event>)
    requires OrdinaryYears(events) && AllLabelled(Run(events).rows)
    ensures Inv(Run(events))
  {
    if events != [] {
      var before, e := events[..|events| - 1], events[|events| - 1];
      RowsGrow(Run(before), e);
      LabelledPrefix(Run(before).rows, Run(events).rows);
      RunKeepsInv(before);
      StepKeepsInv(Run(before), e);
    }
  }

  lemma {:induction false} RunRowsGrow(events: seq<Event>, i: nat)
    requires i <= |events|
    ensures |Run(events[..i]).rows| <= |Run(events).rows| && Run(events).rows[..|Run(events[..i]).rows|] == Run(events[..i]).rows
  {
    if i == |events| {
      assert events[..i] == events;
    } else {
      var before := events[..|events| - 1];
      assert before[..i] == events[..i];
      RunRowsGrow(before, i);
      RowsGrow(Run(before), events[|events| - 1]);
      PrefixOfPrefix(Run(events[..i]).rows, Run(before).rows, Run(events).rows);
    }
  }

  lemma PrefixOfPrefix(a: seq<Row>, b: seq<Row>, c: seq<Row>)
    requires |a| <= |b| <= |c| && b[..|a|] == a && c[..|b|] == b
    ensures c[..|a|] == a
  {
    assert c[..|b|][..|a|] == c[..|a|];
  }

  // ---- Main results ----

  // The n rows of the Bangkok day of `at` carry the sequences 1..n: each row one of them, each of them
  // on one row.
  ghost predicate Consecutive(rows: seq<Row>, at: int) {
    && RowsNumbered(rows, at)
    && (forall k: nat :: k < CountDay(rows, LocalDay(at)) ==> HasCode(rows, FormatCode(at, k)))
    && NoTwins(rows)
  }

  ghost predicate RowsNumbered(rows: seq<Row>, at: int) {
    forall i :: 0 <= i < |rows| && DayOf(rows[i]) == LocalDay(at) ==>
      exists k: nat :: k < CountDay(rows, LocalDay(at)) && rows[i].code == FormatCode(at, k)
  }

  ghost predicate NoTwins(rows: seq<Row>) {
    forall i, j :: 0 <= i < j < |rows| ==> rows[i].code != rows[j].code
  }

  lemma NumbersRows(rows: seq<Row>, at: int)
    requires InOrder(rows)
    ensures RowsNumbered(rows, at)
  {
    var d := LocalDay(at);
    forall i | 0 <= i < |rows| && DayOf(rows[i]) == d
      ensures exists k: nat :: k < CountDay(rows, d) && rows[i].code == FormatCode(at, k)
    {
      var k := CountDay(rows[..i], d);
      CodesDiffer(rows[i].stamp, k, at, k);
      assert rows[..|rows|] == rows;
      PrefixCounts(rows, i, |rows|, d);
    }
  }

  lemma NumberIsTaken(rows: seq<Row>, at: int, k: nat)
    requires InOrder(rows) && k < CountDay(rows, LocalDay(at))
    ensures HasCode(rows, FormatCode(at, k))
  {
    var i := RowAtPosition(rows, LocalDay(at), k);
    CodesDiffer(rows[i].stamp, k, at, k);
  }

  lemma OrderHasNoTwins(rows: seq<Row>)
    requires InOrder(rows)
    ensures NoTwins(rows)
  {
    forall i, j | 0 <= i < j < |rows| ensures rows[i].code != rows[j].code {
      PrefixCounts(rows, i, j, DayOf(rows[i]));
      CodesDiffer(rows[i].stamp, CountDay(rows[..i], DayOf(rows[i])), rows[j].stamp, CountDay(rows[..j], DayOf(rows[j])));
    }
  }

  lemma OrderIsConsecutive(rows: seq<Row>, at: int)
    requires InOrder(rows)
    ensures Consecutive(rows, at)
  {
    NumbersRows(rows, at);
    OrderHasNoTwins(rows);
    forall k: nat | k < CountDay(rows, LocalDay(at)) ensures HasCode(rows, FormatCode(at, k)) { NumberIsTaken(rows, at, k); }
  }

  // In every interleaving whose committed rows are stamped on the day they are labelled with, whatever
  // refused and aborted attempts did, the codes of each day are 1..n.
  lemma DayCodesAreConsecutive(events: seq<Event>, at: int)
    requires OrdinaryYears(events) && AllLabelled(Run(events).rows)
    ensures Consecutive(Run(events).rows, at)
  {
    RunKeepsInv(events);
    OrderIsConsecutive(Run(events).rows, at);
  }

  lemma NumberedIsLabelled(rows: seq<Row>, i: nat)
    requires i < |rows| && RowsNumbered(rows, rows[i].stamp)
    ensures Labelled(rows[i])
  {
  }

  ghost predicate EveryDayConsecutive(rows: seq<Row>) {
    forall at :: Consecutive(rows, at)
  }

  lemma ConsecutiveIsLabelled(rows: seq<Row>)
    requires EveryDayConsecutive(rows)
    ensures AllLabelled(rows)
  {
    forall i | 0 <= i < |rows| ensures Labelled(rows[i]) {
      assert Consecutive(rows, rows[i].stamp);
      NumberedIsLabelled(rows, i);
    }
  }

  lemma PrefixConsecutive(events: seq<Event>, i: nat)
    requires OrdinaryYears(events) && AllLabelled(Run(events).rows) && i <= |events|
    ensures EveryDayConsecutive(Run(events[..i]).rows)
  {
    RunRowsGrow(events, i);
    LabelledPrefix(Run(events[..i]).rows, Run(events).rows);
    forall at ensures Consecutive(Run(events[..i]).rows, at) { DayCodesAreConsecutive(events[..i], at); }
  }

  // And only then: the codes of every day are 1..n after every step exactly when each committed row is
  // stamped on the day it is labelled with.
  lemma ConsecutiveExactlyWhenLabelled(events: seq<Event>)
    requires OrdinaryYears(events)
    ensures (forall i :: 0 <= i <= |events| ==> EveryDayConsecutive(Run(events[..i]).rows)) <==> AllLabelled(Run(events).rows)
  {
    if AllLabelled(Run(events).rows) {
      forall i | 0 <= i <= |events| ensures EveryDayConsecutive(Run(events[..i]).rows) { PrefixConsecutive(events, i); }
    } else {
      assert events[..|events|] == events;
      if EveryDayConsecutive(Run(events[..|events|]).rows) { ConsecutiveIsLabelled(Run(events).rows); }
    }
  }

  // A submission that gives up was overtaken by at least five commits of the days it tried.
  lemma GivesUpOnlyWhenOvertaken(events: seq<Event>, tx: TxId)
    requires OrdinaryYears(events) && AllLabelled(Run(events).rows)
    requires tx in Run(events).creators && Run(events).creators[tx].GaveUp?
    ensures var s := Run(events);
      var c := s.creators[tx];
      c.start <= |s.rows| && CountDays(s.rows[c.start..], c.days) >= 5
  {
    RunKeepsInv(events);
  }

  // ---- Where the hypothesis matters ----

  lemma RunAppend(events: seq<Event>, e: Event)
    ensures Run(events + [e]) == Step(Run(events), e)
  {
    assert (events + [e])[..|events|] == events;
  }

  // Five attempts that all find their code taken: nobody else commits, and the submission still fails.
  lemma {:induction false} Starve(events: seq<Event>, tx: TxId, now: int) returns (longer: seq<Event>)
    requires var s := Run(events);
      && tx in s.creators && s.creators[tx].Counting? && 1 <= s.creators[tx].attempt <= MAX_ATTEMPTS
      && (forall t :: t in s.creators ==> !s.creators[t].Inserted?)
      && HasCode(s.rows, FormatCode(now, CountWithin(s.rows, DayRange(now))))
    ensures var s, s' := Run(events), Run(longer);
      s'.rows == s.rows && tx in s'.creators && s'.creators[tx].GaveUp? && s'.creators[tx].start == s.creators[tx].start
    decreases MAX_ATTEMPTS - Run(events).creators[tx].attempt
  {
    var s := Run(events);
    RunAppend(events, Count(tx, now));
    var counted := Step(s, Count(tx, now));
    RunAppend(events + [Count(tx, now)], Insert(tx, now));
    longer := events + [Count(tx, now)] + [Insert(tx, now)];
    assert Run(longer).creators == s.creators[tx := counted.creators[tx]][tx := Refused(counted.creators[tx])];
    if s.creators[tx].attempt < MAX_ATTEMPTS {
      longer := Starve(longer, tx, now);
    }
  }

  // When a row is labelled with one Bangkok day and stamped in the day before, as a request that
  // crosses midnight can be, its label blocks every later submission of the new day.
  lemma LabelAheadOfStampStarves(midnight: int) returns (events: seq<Event>)
    requires !TwoDigitYear(midnight) && LocalDay(midnight - 1) != LocalDay(midnight)
    ensures var s := Run(events);
      && s.rows == [Row(FormatCode(midnight, 0), midnight - 1)]
      && 2 in s.creators && s.creators[2].GaveUp? && s.creators[2].start == |s.rows|
  {
    var first := Creation(midnight);
    DayRangesTile(midnight, midnight - 1);
    RunAppend(first, Begin(2));
    var s := Run(first + [Begin(2)]);
    assert s.rows == [Row(FormatCode(midnight, 0), midnight - 1)];
    assert CountWithin(s.rows, DayRange(midnight)) == 0;
    assert s.rows[0].code == FormatCode(midnight, 0);
    events := Starve(first + [Begin(2)], 2, midnight);
  }

  lemma Creation(midnight: int) returns (events: seq<Event>)
    ensures Run(events) == State([Row(FormatCode(midnight, 0), midnight - 1)], map[1 := Created])
  {
    var inserted := Inserting(midnight, Row(FormatCode(midnight, 0), midnight - 1));
    RunAppend(inserted, Commit(1));
    CommitIs(Run(inserted), 1);
    events := inserted + [Commit(1)];
  }

  lemma Inserting(midnight: int, r: Row) returns (events: seq<Event>)
    requires r == Row(FormatCode(midnight, 0), midnight - 1)
    ensures Run(events) == State([], map[1 := Inserted(r)])
  {
    var now := Counted(1, 0, {LocalDay(midnight)}, midnight, 0, 0);
    var counted := Counting1(midnight, now);
    RunAppend(counted, Insert(1, midnight - 1));
    InsertsFirst(midnight, now);
    events := counted + [Insert(1, midnight - 1)];
  }

  lemma Counting1(midnight: int, now: Creator) returns (events: seq<Event>)
    requires now == Counted(1, 0, {LocalDay(midnight)}, midnight, 0, 0)
    ensures Run(events) == State([], map[1 := now])
  {
    RunAppend([], Begin(1));
    assert Run([] + [Begin(1)]) == State([], map[1 := Counting(1, 0, {})]);
    RunAppend([] + [Begin(1)], Count(1, midnight));
    CountsFirst(midnight, now);
    events := [] + [Begin(1)] + [Count(1, midnight)];
  }

  lemma CountsFirst(midnight: int, now: Creator)
    requires now == Counted(1, 0, {LocalDay(midnight)}, midnight, 0, 0)
    ensures Step(State([], map[1 := Counting(1, 0, {})]), Count(1, midnight)) == State([], map[1 := now])
  {
    assert {} + {LocalDay(midnight)} == {LocalDay(midnight)};
  }

  lemma InsertsFirst(midnight: int, now: Creator)
    requires now == Counted(1, 0, {LocalDay(midnight)}, midnight, 0, 0)
    ensures Step(State([], map[1 := now]), Insert(1, midnight - 1))
         == State([], map[1 := Inserted(Row(FormatCode(midnight, 0), midnight - 1))])
  {
  }
}
