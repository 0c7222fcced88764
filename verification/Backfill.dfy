// The backfill planner: one column's rows in, the safe rewrites and the collisions out.
module Backfill {
  import ThaiSanitizer

  type RowId = int

  datatype RowValue = RowValue(id: RowId, value: string, active: bool)
  datatype Change = Change(id: RowId, before: string, after: string)
  datatype Collision = Collision(change: Change, conflictsWith: seq<RowId>)
  datatype Plan = Plan(changes: seq<Change>, collisions: seq<Collision>)

  ghost predicate DistinctIds(rows: seq<RowValue>) {
    forall i, j :: 0 <= i < j < |rows| ==> rows[i].id != rows[j].id
  }

  // The active ids that will hold `name` once everything is sanitised, in row order.
  function Sharing(rows: seq<RowValue>, san: string -> string, name: string): seq<RowId> {
    if rows == [] then []
    else
      var last := rows[|rows| - 1];
      var before := Sharing(rows[..|rows| - 1], san, name);
      if last.active && san(last.value) == name then before + [last.id] else before
  }

  function Others(ids: seq<RowId>, id: RowId): seq<RowId> {
    if ids == [] then []
    else
      var before := Others(ids[..|ids| - 1], id);
      if ids[|ids| - 1] == id then before else before + [ids[|ids| - 1]]
  }

  function SharingIfUnique(all: seq<RowValue>, san: string -> string, unique: bool, name: string): seq<RowId> {
    if unique then Sharing(all, san, name) else []
  }

  predicate Differs(r: RowValue, san: string -> string) {
    san(r.value) != r.value
  }

  predicate Blocked(r: RowValue, all: seq<RowValue>, san: string -> string, unique: bool) {
    |SharingIfUnique(all, san, unique, san(r.value))| > 1
  }

  // The plan for the leading rows, decided against all of them.
  function PlanFor(rows: seq<RowValue>, all: seq<RowValue>, san: string -> string, unique: bool): Plan {
    if rows == [] then Plan([], [])
    else
      var r := rows[|rows| - 1];
      var before := PlanFor(rows[..|rows| - 1], all, san, unique);
      if !Differs(r, san) then before
      else
        var change := Change(r.id, r.value, san(r.value));
        if Blocked(r, all, san, unique) then
          before.(collisions := before.collisions +
            [Collision(change, Others(SharingIfUnique(all, san, unique, san(r.value)), r.id))])
        else before.(changes := before.changes + [change])
  }

  method PlanChanges(rows: seq<RowValue>, activeNameIsUnique: bool, san: string -> string) returns (plan: Plan)
    requires DistinctIds(rows)
    ensures plan == PlanFor(rows, rows, san, activeNameIsUnique)
  {
    var after: map<RowId, string> := map[];
    var i := 0;
    while i < |rows|
      invariant 0 <= i <= |rows|
      invariant forall k :: 0 <= k < i ==> rows[k].id in after && after[rows[k].id] == san(rows[k].value)
    {
      after := after[rows[i].id := san(rows[i].value)];
      i := i + 1;
    }
    var activeIdsByFinalName: map<string, seq<RowId>> := map[];
    if activeNameIsUnique {
      activeIdsByFinalName := Buckets(rows, after, san);
    }
    var changes: seq<Change> := [];
    var collisions: seq<Collision> := [];
    i := 0;
    while i < |rows|
      invariant 0 <= i <= |rows|
      invariant Plan(changes, collisions) == PlanFor(rows[..i], rows, san, activeNameIsUnique)
    {
      assert rows[..i + 1][..i] == rows[..i];
      var row := rows[i];
      var next := after[row.id];
      i := i + 1;
      if next == row.value { continue; }
      var sharing := Bucket(activeIdsByFinalName, next);
      assert sharing == SharingIfUnique(rows, san, activeNameIsUnique, next);
      if |sharing| > 1 {
        collisions := collisions + [Collision(Change(row.id, row.value, next), Others(sharing, row.id))];
        continue;
      }
      changes := changes + [Change(row.id, row.value, next)];
    }
    assert rows[..i] == rows;
    plan := Plan(changes, collisions);
  }

  function Bucket(buckets: map<string, seq<RowId>>, name: string): seq<RowId> {
    if name in buckets then buckets[name] else []
  }

  ghost predicate BucketsMatch(buckets: map<string, seq<RowId>>, rows: seq<RowValue>, san: string -> string) {
    forall name :: Bucket(buckets, name) == Sharing(rows, san, name)
  }

  lemma PushMatches(buckets: map<string, seq<RowId>>, rows: seq<RowValue>, san: string -> string, n: nat)
    requires n < |rows| && BucketsMatch(buckets, rows[..n], san)
    ensures var r := rows[n];
      BucketsMatch(if r.active then buckets[san(r.value) := Bucket(buckets, san(r.value)) + [r.id]] else buckets, rows[..n + 1], san)
  {
    assert rows[..n + 1][..n] == rows[..n];
    var r := rows[n];
    var after := if r.active then buckets[san(r.value) := Bucket(buckets, san(r.value)) + [r.id]] else buckets;
    forall name ensures Bucket(after, name) == Sharing(rows[..n + 1], san, name) {
      assert Bucket(buckets, name) == Sharing(rows[..n], san, name);
    }
  }

  // The second map: each final name with the active ids that will hold it.
  method Buckets(rows: seq<RowValue>, after: map<RowId, string>, ghost san: string -> string)
    returns (buckets: map<string, seq<RowId>>)
    requires forall k :: 0 <= k < |rows| ==> rows[k].id in after && after[rows[k].id] == san(rows[k].value)
    ensures BucketsMatch(buckets, rows, san)
  {
    buckets := map[];
    var i := 0;
    while i < |rows|
      invariant 0 <= i <= |rows|
      invariant BucketsMatch(buckets, rows[..i], san)
    {
      PushMatches(buckets, rows, san, i);
      if rows[i].active {
        var name := after[rows[i].id];
        if name in buckets {
          buckets := buckets[name := buckets[name] + [rows[i].id]];
        } else {
          buckets := buckets[name := [] + [rows[i].id]];
        }
      }
      i := i + 1;
    }
    assert rows[..i] == rows;
  }

  // ---- Applying a plan ----

  // The partial unique index.
  ghost predicate ActiveUnique(rows: seq<RowValue>) {
    forall i, j :: 0 <= i < j < |rows| && rows[i].active && rows[j].active ==> rows[i].value != rows[j].value
  }

  function Write(r: RowValue, c: Change): RowValue {
    if r.id == c.id then r.(value := c.after) else r
  }

  function WriteAll(r: RowValue, cs: seq<Change>): RowValue {
    if cs == [] then r else Write(WriteAll(r, cs[..|cs| - 1]), cs[|cs| - 1])
  }

  // The table after some of the changes ran, in the order given.
  function Apply(rows: seq<RowValue>, cs: seq<Change>): (r: seq<RowValue>)
    ensures |r| == |rows|
  {
    seq(|rows|, i requires 0 <= i < |rows| => WriteAll(rows[i], cs))
  }

  ghost predicate Among(cs: seq<Change>, changes: seq<Change>) {
    forall c :: c in cs ==> c in changes
  }

  ghost predicate Planned(r: RowValue, rows: seq<RowValue>, san: string -> string) {
    Differs(r, san) && !Blocked(r, rows, san, true)
  }

  lemma {:induction false} ChangesAre(rows: seq<RowValue>, all: seq<RowValue>, san: string -> string)
    ensures forall c :: c in PlanFor(rows, all, san, true).changes <==>
      exists i :: 0 <= i < |rows| && Planned(rows[i], all, san) && c == Change(rows[i].id, rows[i].value, san(rows[i].value))
  {
    if rows != [] {
      var init, r := rows[..|rows| - 1], rows[|rows| - 1];
      ChangesAre(init, all, san);
      var changes := PlanFor(rows, all, san, true).changes;
      forall c | c in changes
        ensures exists i :: 0 <= i < |rows| && Planned(rows[i], all, san) && c == Change(rows[i].id, rows[i].value, san(rows[i].value))
      {
        if c in PlanFor(init, all, san, true).changes {
          var i :| 0 <= i < |init| && Planned(init[i], all, san) && c == Change(init[i].id, init[i].value, san(init[i].value));
          assert rows[i] == init[i];
        }
      }
      forall i | 0 <= i < |rows| && Planned(rows[i], all, san)
        ensures Change(rows[i].id, rows[i].value, san(rows[i].value)) in changes
      {
        if i < |init| { assert init[i] == rows[i]; }
      }
    }
  }

  // A row holds its old value, or its sanitised one if it was planned and written.
  lemma {:induction false} WrittenValue(rows: seq<RowValue>, san: string -> string, i: nat, cs: seq<Change>)
    requires DistinctIds(rows) && i < |rows| && Among(cs, PlanFor(rows, rows, san, true).changes)
    ensures var r := WriteAll(rows[i], cs);
      && r.id == rows[i].id && r.active == rows[i].active
      && (r.value == rows[i].value || (Planned(rows[i], rows, san) && r.value == san(rows[i].value)))
  {
    if cs != [] {
      var c := cs[|cs| - 1];
      WrittenValue(rows, san, i, cs[..|cs| - 1]);
      ChangesAre(rows, rows, san);
      assert c in cs;
      var k :| 0 <= k < |rows| && Planned(rows[k], rows, san) && c == Change(rows[k].id, rows[k].value, san(rows[k].value));
    }
  }

  lemma {:induction false} SharingHolds(rows: seq<RowValue>, san: string -> string, name: string, i: nat)
    requires i < |rows| && rows[i].active && san(rows[i].value) == name
    ensures |Sharing(rows, san, name)| >= 1
  {
    if i < |rows| - 1 { SharingHolds(rows[..|rows| - 1], san, name, i); }
  }

  lemma {:induction false} SharingHoldsBoth(rows: seq<RowValue>, san: string -> string, name: string, i: nat, j: nat)
    requires i < j < |rows| && rows[i].active && rows[j].active
    requires san(rows[i].value) == name && san(rows[j].value) == name
    ensures |Sharing(rows, san, name)| > 1
  {
    if j < |rows| - 1 {
      SharingHoldsBoth(rows[..|rows| - 1], san, name, i, j);
    } else {
      SharingHolds(rows[..|rows| - 1], san, name, i);
    }
  }

  // A planned active row whose new value is what another active row holds now.
  ghost predicate Lands(rows: seq<RowValue>, san: string -> string, i: int, j: int) {
    && 0 <= i < |rows| && 0 <= j < |rows| && i != j && rows[i].active && rows[j].active
    && Planned(rows[i], rows, san) && san(rows[i].value) == rows[j].value
  }

  lemma PairStaysDistinct(rows: seq<RowValue>, san: string -> string, cs: seq<Change>, i: nat, j: nat)
    requires DistinctIds(rows) && ActiveUnique(rows) && Among(cs, PlanFor(rows, rows, san, true).changes)
    requires forall i, j :: !Lands(rows, san, i, j)
    requires i < j < |rows| && rows[i].active && rows[j].active
    ensures WriteAll(rows[i], cs).value != WriteAll(rows[j], cs).value
  {
    WrittenValue(rows, san, i, cs);
    WrittenValue(rows, san, j, cs);
    assert !Lands(rows, san, i, j) && !Lands(rows, san, j, i);
    if san(rows[i].value) == san(rows[j].value) {
      SharingHoldsBoth(rows, san, san(rows[i].value), i, j);
    }
  }

  lemma WriteOne(r: RowValue, c: Change)
    ensures WriteAll(r, [c]) == Write(r, c)
  {
    assert [c][..0] == [];
  }

  lemma OneWriteLands(rows: seq<RowValue>, san: string -> string, i: nat, j: nat) returns (cs: seq<Change>)
    requires DistinctIds(rows) && Lands(rows, san, i, j)
    ensures Among(cs, PlanFor(rows, rows, san, true).changes) && !ActiveUnique(Apply(rows, cs))
  {
    var c := Change(rows[i].id, rows[i].value, san(rows[i].value));
    ChangesAre(rows, rows, san);
    cs := [c];
    WriteOne(rows[i], c);
    WriteOne(rows[j], c);
    assert rows[i].id != rows[j].id;
    var t := Apply(rows, cs);
    assert t[i].active && t[j].active && t[i].value == t[j].value;
  }

  // Whatever the sanitiser: every subset of the plan, in every order, keeps active values unique at every
  // moment exactly when no planned active row lands on a value another active row holds now.
  lemma SafeExactlyWithoutLanding(rows: seq<RowValue>, san: string -> string)
    requires DistinctIds(rows) && ActiveUnique(rows)
    ensures (forall cs :: Among(cs, PlanFor(rows, rows, san, true).changes) ==> ActiveUnique(Apply(rows, cs)))
       <==> (forall i, j :: !Lands(rows, san, i, j))
  {
    if forall i, j :: !Lands(rows, san, i, j) {
      forall cs | Among(cs, PlanFor(rows, rows, san, true).changes) ensures ActiveUnique(Apply(rows, cs)) {
        var t := Apply(rows, cs);
        forall i, j | 0 <= i < j < |t| && t[i].active && t[j].active ensures t[i].value != t[j].value {
          WrittenValue(rows, san, i, cs);
          WrittenValue(rows, san, j, cs);
          PairStaysDistinct(rows, san, cs, i, j);
        }
      }
    } else {
      var i, j :| Lands(rows, san, i, j);
      var cs := OneWriteLands(rows, san, i, j);
    }
  }

  ghost predicate Idempotent(san: string -> string) {
    forall s :: san(san(s)) == san(s)
  }

  // With an idempotent sanitiser nothing lands, so any part of the plan can run in any order.
  lemma IdempotentIsSafe(rows: seq<RowValue>, san: string -> string, cs: seq<Change>)
    requires Idempotent(san) && DistinctIds(rows) && ActiveUnique(rows)
    requires Among(cs, PlanFor(rows, rows, san, true).changes)
    ensures ActiveUnique(Apply(rows, cs))
  {
    forall i, j ensures !Lands(rows, san, i, j) {
      if Lands(rows, san, i, j) {
        assert san(rows[j].value) == san(rows[i].value);
        if i < j { SharingHoldsBoth(rows, san, san(rows[i].value), i, j); }
        else { SharingHoldsBoth(rows, san, san(rows[i].value), j, i); }
      }
    }
    SafeExactlyWithoutLanding(rows, san);
  }

  // ---- Planning again ----

  // Every planned change written once.
  function Finished(rows: seq<RowValue>, san: string -> string): (r: seq<RowValue>)
    ensures |r| == |rows|
  {
    seq(|rows|, i requires 0 <= i < |rows| =>
      if Differs(rows[i], san) && !Blocked(rows[i], rows, san, true) then rows[i].(value := san(rows[i].value)) else rows[i])
  }

  // Running the whole plan, in any order, ends there.
  lemma WholePlanFinishes(rows: seq<RowValue>, san: string -> string, cs: seq<Change>)
    requires DistinctIds(rows)
    requires forall c :: c in cs <==> c in PlanFor(rows, rows, san, true).changes
    ensures Apply(rows, cs) == Finished(rows, san)
  {
    forall i | 0 <= i < |rows| ensures Apply(rows, cs)[i] == Finished(rows, san)[i] {
      WrittenValue(rows, san, i, cs);
      if Planned(rows[i], rows, san) {
        ChangesAre(rows, rows, san);
        WrittenIfListed(rows, san, i, cs);
      }
    }
  }

  lemma {:induction false} WrittenIfListed(rows: seq<RowValue>, san: string -> string, i: nat, cs: seq<Change>)
    requires DistinctIds(rows) && i < |rows| && Among(cs, PlanFor(rows, rows, san, true).changes)
    requires Change(rows[i].id, rows[i].value, san(rows[i].value)) in cs
    ensures WriteAll(rows[i], cs).value == san(rows[i].value)
  {
    var c, init := cs[|cs| - 1], cs[..|cs| - 1];
    WrittenValue(rows, san, i, init);
    ChangesAre(rows, rows, san);
    assert c in cs;
    var k :| 0 <= k < |rows| && Planned(rows[k], rows, san) && c == Change(rows[k].id, rows[k].value, san(rows[k].value));
    if k != i {
      assert rows[k].id != rows[i].id;
      assert Change(rows[i].id, rows[i].value, san(rows[i].value)) in init;
      WrittenIfListed(rows, san, i, init);
    }
  }

  lemma {:induction false} SharingSame(a: seq<RowValue>, b: seq<RowValue>, san: string -> string, name: string)
    requires |a| == |b|
    requires forall i :: 0 <= i < |a| ==> a[i].id == b[i].id && a[i].active == b[i].active && san(a[i].value) == san(b[i].value)
    ensures Sharing(a, san, name) == Sharing(b, san, name)
  {
    if a != [] { SharingSame(a[..|a| - 1], b[..|b| - 1], san, name); }
  }

  lemma {:induction false} ReplanPrefix(rows: seq<RowValue>, san: string -> string, n: nat)
    requires Idempotent(san) && n <= |rows|
    ensures PlanFor(Finished(rows, san)[..n], Finished(rows, san), san, true)
         == Plan([], PlanFor(rows[..n], rows, san, true).collisions)
  {
    if n > 0 {
      var done := Finished(rows, san);
      ReplanPrefix(rows, san, n - 1);
      assert done[..n][..n - 1] == done[..n - 1] && rows[..n][..n - 1] == rows[..n - 1];
      SharingSame(rows, done, san, san(rows[n - 1].value));
    }
  }

  // After the whole plan ran, planning again proposes nothing and reports the same collisions.
  lemma ReplanIsEmpty(rows: seq<RowValue>, san: string -> string, cs: seq<Change>)
    requires Idempotent(san) && DistinctIds(rows)
    requires forall c :: c in cs <==> c in PlanFor(rows, rows, san, true).changes
    ensures var t := Apply(rows, cs);
      PlanFor(t, t, san, true) == Plan([], PlanFor(rows, rows, san, true).collisions)
  {
    WholePlanFinishes(rows, san, cs);
    ReplanPrefix(rows, san, |rows|);
    assert rows[..|rows|] == rows && Finished(rows, san)[..|rows|] == Finished(rows, san);
  }

  // ---- The sanitiser in use is not idempotent ----

  // Two active rows with different names: writing the plan's one change gives both the same name.
  lemma ThaiPlanCanCollide()
    ensures exists rows: seq<RowValue>, cs ::
      && DistinctIds(rows) && ActiveUnique(rows)
      && Among(cs, PlanFor(rows, rows, ThaiSanitizer.SanitizeThaiText, true).changes)
      && !ActiveUnique(Apply(rows, cs))
  {
    var a := [ThaiSanitizer.SARA_E, '\U{200B}', ThaiSanitizer.SARA_E];
    var b := [ThaiSanitizer.SARA_E, ThaiSanitizer.SARA_E];
    ThaiSanitizer.ZeroWidthBreaksIdempotence();
    assert ThaiSanitizer.SanitizeThaiText(a) == b && |ThaiSanitizer.SanitizeThaiText(b)| == 1;
    var cs := FoldedRowLands(a, b, ThaiSanitizer.SanitizeThaiText);
    assert ActiveUnique([RowValue(1, a, true), RowValue(2, b, true)]);
  }

  lemma FoldedRowLands(a: string, b: string, san: string -> string) returns (cs: seq<Change>)
    requires san(a) == b && a != b && san(b) != b
    ensures var rows := [RowValue(1, a, true), RowValue(2, b, true)];
      Among(cs, PlanFor(rows, rows, san, true).changes) && !ActiveUnique(Apply(rows, cs))
  {
    var rows := [RowValue(1, a, true), RowValue(2, b, true)];
    assert rows[..1] == [rows[0]] && [rows[0]][..0] == [];
    assert Sharing([rows[0]], san, b) == [] + [1];
    assert Sharing(rows, san, b) == [1];
    assert Lands(rows, san, 0, 1);
    cs := OneWriteLands(rows, san, 0, 1);
  }
}
