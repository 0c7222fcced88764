// The statements the booking services send to the database, each as a scan over the rows: what a `where`
// matches, and which rows an update changes and to what.
module BookingStatements {
  import opened Wrappers
  import opened BookingOverlap
  import opened BookingCode
  import opened BookingModel

  // ---- Order by code ----

  function LexLe(a: string, b: string): bool {
    a == "" || (b != "" && (a[0] < b[0] || (a[0] == b[0] && LexLe(a[1..], b[1..]))))
  }

  lemma {:induction false} LexTotal(a: string, b: string)
    ensures LexLe(a, b) || LexLe(b, a)
  {
    if a != "" && b != "" { LexTotal(a[1..], b[1..]); }
  }

  lemma {:induction false} LexTransitive(a: string, b: string, c: string)
    requires LexLe(a, b) && LexLe(b, c)
    ensures LexLe(a, c)
  {
    if a != "" && a[0] == b[0] && b[0] == c[0] { LexTransitive(a[1..], b[1..], c[1..]); }
  }

  function CodeText(requests: Requests, r: Id): string {
    if r in requests then CodeString(requests[r].code) else ""
  }

  function ByCode(requests: Requests): (Id, Id) -> bool {
    (a, b) => LexLe(CodeText(requests, a), CodeText(requests, b))
  }

  lemma ByCodeIsOrder(requests: Requests)
    ensures Sorting.TotalPreorder(ByCode(requests))
  {
    forall x, y ensures ByCode(requests)(x, y) || ByCode(requests)(y, x) {
      LexTotal(CodeText(requests, x), CodeText(requests, y));
    }
    forall x, y, z | ByCode(requests)(x, y) && ByCode(requests)(y, z) ensures ByCode(requests)(x, z) {
      LexTransitive(CodeText(requests, x), CodeText(requests, y), CodeText(requests, z));
    }
  }

  // `orderBy: { code: 'asc' }`.
  predicate InCodeOrder(list: seq<Id>, requests: Requests) {
    |list| <= 1 || (LexLe(CodeText(requests, list[0]), CodeText(requests, list[1])) && InCodeOrder(list[1..], requests))
  }

  lemma {:induction false} SortedIsInOrder(list: seq<Id>, requests: Requests)
    requires Sorting.SortedBy(list, ByCode(requests))
    ensures InCodeOrder(list, requests)
  {
    if |list| > 1 {
      assert ByCode(requests)(list[0], list[1]);
      SortedIsInOrder(list[1..], requests);
    }
  }

  ghost predicate NoRepeats(s: seq<Id>) {
    forall i, j :: 0 <= i < j < |s| ==> s[i] != s[j]
  }

  // ---- Reads ----

  // One of `overlapOr`'s clauses matches.
  method MatchesOverlap(theirs: Span, spans: set<Span>) returns (hit: bool)
    ensures hit <==> Hits(theirs, spans)
  {
    var rest := spans;
    while rest != {}
      invariant rest <= spans
      invariant forall mine :: mine in spans - rest ==> !Overlaps(theirs, mine)
      decreases |rest|
    {
      var mine: Span :| mine in rest;
      if theirs.start < mine.end && theirs.end > mine.start { return true; }
      rest := rest - {mine};
    }
    return false;
  }

  // `findFirst` and `count` over `approvedClashWhere`.
  method FindClashes(requests: Requests, slots: Slots, venue: Id, spans: set<Span>, exclude: Option<Id>) returns (found: seq<Id>)
    ensures NoRepeats(found)
    ensures forall s :: s in found <==> s in slots && IsClash(Db(requests, slots), s, venue, spans, exclude)
  {
    found := [];
    var rest := slots.Keys;
    while rest != {}
      invariant rest <= slots.Keys && NoRepeats(found)
      invariant forall s :: s in found <==> s in slots.Keys - rest && IsClash(Db(requests, slots), s, venue, spans, exclude)
      decreases |rest|
    {
      var s: Id :| s in rest;
      var slot := slots[s];
      var hit := MatchesOverlap(slot.span, spans);
      if slot.venue == venue && !slot.isCancelled && slot.request in requests && requests[slot.request].status == Approved
        && exclude != Some(slot.request) && hit {
        assert s !in found;
        found := found + [s];
      }
      rest := rest - {s};
    }
  }

  // `slots: { some: { isCancelled: false, OR: overlapOr(spans) } }`.
  method SomeSlotMatches(slots: Slots, r: Id, spans: set<Span>) returns (some: bool)
    ensures some <==> SomeSlotHits(slots, r, spans)
  {
    var rest := slots.Keys;
    while rest != {}
      invariant rest <= slots.Keys
      invariant forall s :: s in slots.Keys - rest ==> !(IsLiveOf(slots, s, r) && Hits(slots[s].span, spans))
      decreases |rest|
    {
      var s: Id :| s in rest;
      var hit := MatchesOverlap(slots[s].span, spans);
      if slots[s].request == r && !slots[s].isCancelled && hit { return true; }
      rest := rest - {s};
    }
    return false;
  }

  // `findPendingLosers`: which requests lose, in the order of their codes.
  method FindLosers(requests: Requests, slots: Slots, venue: Id, spans: set<Span>, exclude: Option<Id>) returns (losers: seq<Id>)
    ensures forall r :: r in losers <==> r in requests && IsLoser(Db(requests, slots), r, venue, spans, exclude)
    ensures InCodeOrder(losers, requests) && NoRepeats(losers)
  {
    var found: seq<Id> := [];
    var rest := requests.Keys;
    while rest != {}
      invariant rest <= requests.Keys && NoRepeats(found)
      invariant forall r :: r in found <==> r in requests.Keys - rest && IsLoser(Db(requests, slots), r, venue, spans, exclude)
      decreases |rest|
    {
      var r: Id :| r in rest;
      var some := SomeSlotMatches(slots, r, spans);
      if requests[r].venue == venue && requests[r].status == Pending && exclude != Some(r) && some {
        assert r !in found;
        found := found + [r];
      }
      rest := rest - {r};
    }
    losers := Sorting.SortBy(found, ByCode(requests));
    ByCodeIsOrder(requests);
    Sorting.SortBySorted(found, ByCode(requests));
    SortedIsInOrder(losers, requests);
    SameMembers(found, losers);
    SameNoRepeats(found, losers);
  }

  lemma {:induction false} AtMostOnce(s: seq<Id>, x: Id)
    requires NoRepeats(s)
    ensures multiset(s)[x] <= 1
  {
    if s != [] {
      assert s == [s[0]] + s[1..];
      forall i, j | 0 <= i < j < |s[1..]| ensures s[1..][i] != s[1..][j] {
        assert s[1..][i] == s[i + 1] && s[1..][j] == s[j + 1];
      }
      AtMostOnce(s[1..], x);
      assert s[0] !in s[1..];
    }
  }

  lemma RepeatsTwice(s: seq<Id>, i: nat, j: nat)
    requires i < j < |s| && s[i] == s[j]
    ensures multiset(s)[s[i]] >= 2
  {
    assert s == s[..j] + s[j..];
    assert s[..j][i] == s[i] && s[j..][0] == s[j];
    assert s[i] in multiset(s[..j]) && s[i] in multiset(s[j..]);
  }

  lemma SameNoRepeats(a: seq<Id>, b: seq<Id>)
    requires multiset(a) == multiset(b) && NoRepeats(a)
    ensures NoRepeats(b)
  {
    forall i, j | 0 <= i < j < |b| ensures b[i] != b[j] {
      AtMostOnce(a, b[i]);
      if b[i] == b[j] {
        RepeatsTwice(b, i, j);
        assert false;
      }
    }
  }

  lemma SameMembers(a: seq<Id>, b: seq<Id>)
    requires multiset(a) == multiset(b)
    ensures forall x :: x in a <==> x in b
  {
    forall x ensures x in a <==> x in b {
      assert x in a <==> x in multiset(a);
      assert x in b <==> x in multiset(b);
    }
  }

  // `count({ where: { createdAt: { gte: start, lt: end } } })`.
  method CountCreated(requests: Requests, day: Range) returns (n: nat)
    ensures n == |set r | r in requests && Within(day, requests[r].createdAt)|
  {
    n := 0;
    ghost var counted: set<Id> := {};
    var rest := requests.Keys;
    while rest != {}
      invariant rest <= requests.Keys && n == |counted|
      invariant counted == set r | r in requests && r !in rest && Within(day, requests[r].createdAt)
      decreases |rest|
    {
      var r: Id :| r in rest;
      if day.start <= requests[r].createdAt < day.end {
        n := n + 1;
        counted := counted + {r};
      }
      rest := rest - {r};
    }
    assert counted == set r | r in requests && Within(day, requests[r].createdAt);
  }

  // The unique index on `code`.
  method CodeExists(requests: Requests, code: Code) returns (taken: bool)
    ensures taken <==> exists r :: r in requests && requests[r].code == code
  {
    var rest := requests.Keys;
    while rest != {}
      invariant rest <= requests.Keys && forall r :: r in requests.Keys - rest ==> requests[r].code != code
      decreases |rest|
    {
      var r: Id :| r in rest;
      if requests[r].code == code { return true; }
      rest := rest - {r};
    }
    return false;
  }

  // ---- Guarded updates ----

  // `updateMany({ id: { in: ids }, status: PENDING })` with the fixed reason: a row no longer pending is
  // left alone, and so is every row not named.
  method RejectPending(requests: Requests, ids: seq<Id>) returns (after: Requests)
    ensures after.Keys == requests.Keys
    ensures forall r :: r in requests && r in ids && requests[r].status == Pending ==>
      after[r] == requests[r].(status := Rejected, rejectReason := Some(AutoRejectedReason))
    ensures forall r :: r in requests && (r !in ids || requests[r].status != Pending) ==> after[r] == requests[r]
  {
    after := requests;
    for i := 0 to |ids|
      invariant after.Keys == requests.Keys
      invariant forall r :: r in requests && r in ids[..i] && requests[r].status == Pending ==>
        after[r] == requests[r].(status := Rejected, rejectReason := Some(AutoRejectedReason))
      invariant forall r :: r in requests && (r !in ids[..i] || requests[r].status != Pending) ==> after[r] == requests[r]
    {
      var r := ids[i];
      assert ids[..i + 1] == ids[..i] + [r];
      if r in after && after[r].status == Pending {
        after := after[r := after[r].(status := Rejected, rejectReason := Some(AutoRejectedReason))];
      }
    }
  }

  // `updateManyAndReturn` of the expiry sweep: `returned` are the rows it changed, each once.
  method ExpirePending(requests: Requests, now: int) returns (after: Requests, returned: seq<Id>)
    ensures after.Keys == requests.Keys && NoRepeats(returned)
    ensures forall r :: r in returned <==> r in requests && requests[r].status == Pending && requests[r].firstStart < now
    ensures forall r :: r in returned ==>
      after[r] == requests[r].(status := Expired, rejectReason := Some(AutoExpiredReason))
    ensures forall r :: r in requests && r !in returned ==> after[r] == requests[r]
  {
    after, returned := requests, [];
    var rest := requests.Keys;
    while rest != {}
      invariant rest <= requests.Keys && after.Keys == requests.Keys && NoRepeats(returned)
      invariant forall r :: r in returned <==>
        r in requests.Keys - rest && requests[r].status == Pending && requests[r].firstStart < now
      invariant forall r :: r in returned ==>
        after[r] == requests[r].(status := Expired, rejectReason := Some(AutoExpiredReason))
      invariant forall r :: r in requests && r !in returned ==> after[r] == requests[r]
      decreases |rest|
    {
      var r: Id :| r in rest;
      if requests[r].status == Pending && requests[r].firstStart < now {
        after := after[r := requests[r].(status := Expired, rejectReason := Some(AutoExpiredReason))];
        returned := returned + [r];
      }
      rest := rest - {r};
    }
  }

  // `updateManyAndReturn` of the reminder sweep.
  method ClaimReminders(requests: Requests, slots: Slots, now: int) returns (after: Slots, claimed: seq<Id>)
    ensures after.Keys == slots.Keys && NoRepeats(claimed)
    ensures forall s :: s in claimed <==> s in slots && Claimable(requests, slots[s], now)
    ensures forall s :: s in claimed ==> after[s] == slots[s].(reminderSentAt := Some(now))
    ensures forall s :: s in slots && s !in claimed ==> after[s] == slots[s]
  {
    after, claimed := slots, [];
    var rest := slots.Keys;
    while rest != {}
      invariant rest <= slots.Keys && after.Keys == slots.Keys && NoRepeats(claimed)
      invariant forall s :: s in claimed <==> s in slots.Keys - rest && Claimable(requests, slots[s], now)
      invariant forall s :: s in claimed ==> after[s] == slots[s].(reminderSentAt := Some(now))
      invariant forall s :: s in slots && s !in claimed ==> after[s] == slots[s]
      decreases |rest|
    {
      var s: Id :| s in rest;
      if Claimable(requests, slots[s], now) {
        after := after[s := slots[s].(reminderSentAt := Some(now))];
        claimed := claimed + [s];
      }
      rest := rest - {s};
    }
  }

  // Unclaimed, live, starting within the hour but not yet, of an approved request somebody on LINE owns.
  predicate Claimable(requests: Requests, slot: Slot, now: int) {
    && slot.reminderSentAt == None && !slot.isCancelled && now < slot.span.start <= now + 60 * 60_000
    && slot.request in requests && requests[slot.request].status == Approved && requests[slot.request].lineUser != None
  }

  // `updateMany({ id: { in: targets }, isCancelled: false })`: the five columns together.
  method CancelLive(slots: Slots, targets: set<Id>, st: Stamp) returns (after: Slots, count: nat)
    ensures after.Keys == slots.Keys
    ensures forall s :: s in slots && s in targets && !slots[s].isCancelled ==>
      && after[s].isCancelled && after[s].cancelledAt == Some(st.at) && after[s].cancelledById == Some(st.actor)
      && after[s].cancelledByRole == Some(st.role)
      && after[s].cancelReason == (if st.reason.Some? then st.reason else slots[s].cancelReason)
      && after[s] == slots[s].(isCancelled := true, cancelledAt := after[s].cancelledAt,
           cancelledById := after[s].cancelledById, cancelledByRole := after[s].cancelledByRole,
           cancelReason := after[s].cancelReason)
    ensures forall s :: s in slots && (s !in targets || slots[s].isCancelled) ==> after[s] == slots[s]
    ensures count == |set s | s in slots && s in targets && !slots[s].isCancelled|
  {
    after, count := slots, 0;
    var rest := slots.Keys;
    ghost var done: set<Id> := {};
    while rest != {}
      invariant rest <= slots.Keys && after.Keys == slots.Keys && count == |done|
      invariant done == set s | s in slots && s !in rest && s in targets && !slots[s].isCancelled
      invariant forall s :: s in done ==> after[s] == CancelledSlot(slots[s], st)
      invariant forall s :: s in slots && s !in done ==> after[s] == slots[s]
      decreases |rest|
    {
      var s: Id :| s in rest;
      if s in targets && !slots[s].isCancelled {
        after := after[s := CancelledSlot(slots[s], st)];
        count := count + 1;
        done := done + {s};
      }
      rest := rest - {s};
    }
    assert done == set s | s in slots && s in targets && !slots[s].isCancelled;
  }

  // ---- Aggregates ----

  // `Math.min(...starts)` and `Math.max(...ends)`.
  method EarliestAndLatest(spans: set<Span>) returns (first: int, last: int)
    requires spans != {}
    ensures first == MinStart(spans) && last == MaxEnd(spans)
  {
    var x: Span :| x in spans;
    first, last := x.start, x.end;
    var rest := spans - {x};
    while rest != {}
      invariant rest < spans
      invariant forall s :: s in spans - rest ==> first <= s.start && s.end <= last
      invariant exists s :: s in spans && s.start == first
      invariant exists s :: s in spans && s.end == last
      decreases |rest|
    {
      var y: Span :| y in rest;
      if y.start < first { first := y.start; }
      if y.end > last { last := y.end; }
      rest := rest - {y};
    }
  }
}
