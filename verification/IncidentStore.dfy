// The incident store: a capped Redis list, newest first, and a detail hash that must agree with it.
module IncidentStore {
  import opened Wrappers
  import opened Decimal
  import Sorting

  // One record: the summary in the list and the detail in the hash carry the same id.
  datatype Incident = Incident(id: string, seqNo: nat, status: Option<nat>, atMs: int, payload: string)

  function IdPrefix(status: Option<nat>): string {
    "ERR-" + if status.Some? then FromNat(status.value) else "SYS"
  }

  // `ERR-<status>-<seq>`, the sequence padded to four digits.
  function MintId(status: Option<nat>, seqNo: nat): string {
    IdPrefix(status) + "-" + PadZero(FromNat(seqNo), 4)
  }

  // Counter values are never reused, so ids are not either, whatever the status in them.
  lemma IdsDiffer(a: Option<nat>, m: nat, b: Option<nat>, n: nat)
    ensures m != n ==> MintId(a, m) != MintId(b, n)
  {
    if MintId(a, m) == MintId(b, n) {
      PadZeroValue(FromNat(m), 4);
      PadZeroValue(FromNat(n), 4);
      SplitAtLastDash(IdPrefix(a), IdPrefix(b), PadZero(FromNat(m), 4), PadZero(FromNat(n), 4));
    }
  }

  function Ids(s: seq<Incident>): set<string> {
    set i | 0 <= i < |s| :: s[i].id
  }

  ghost predicate DistinctIds(s: seq<Incident>) {
    forall i, j :: 0 <= i < j < |s| ==> s[i].id != s[j].id
  }

  // The two structures agree: one hash field per list entry, holding that entry.
  ghost predicate Agree(ring: seq<Incident>, detail: map<string, Incident>) {
    && DistinctIds(ring)
    && detail.Keys == Ids(ring)
    && forall i :: 0 <= i < |ring| ==> ring[i].id in detail && detail[ring[i].id] == ring[i]
  }

  // ---- Specification of the two scripts ----

  // Pops expired entries off the tail, at most `budget` of them.
  function EvictOld(s: seq<Incident>, cutoff: int, budget: nat): (r: seq<Incident>)
    ensures |r| <= |s| && r == s[..|r|]
  {
    if budget == 0 || s == [] || s[|s| - 1].atMs >= cutoff then s
    else EvictOld(s[..|s| - 1], cutoff, budget - 1)
  }

  const EVICTIONS_PER_ADD := 100

  // LTRIM key 0 stop: a negative stop counts from the end, so -1 keeps everything.
  function TrimTo(s: seq<Incident>, stop: int): seq<Incident> {
    var last := if stop < 0 then |s| + stop else stop;
    if last < 0 then [] else if last >= |s| then s else s[..last + 1]
  }

  function AddResult(ring: seq<Incident>, e: Incident, cap: nat, cutoff: int): seq<Incident> {
    var kept := EvictOld([e] + ring, cutoff, EVICTIONS_PER_ADD);
    if |kept| > cap then TrimTo(kept, cap - 1) else kept
  }

  function AddDetail(
    ring: seq<Incident>, detail: map<string, Incident>, e: Incident, cap: nat, cutoff: int): map<string, Incident>
  {
    var all := [e] + ring;
    var kept := EvictOld(all, cutoff, EVICTIONS_PER_ADD);
    var left := detail[e.id := e] - Ids(all[|kept|..]);
    if |kept| > cap then left - Ids(kept[cap..]) else left
  }

  // The order-preserving filter by age.
  function Recent(s: seq<Incident>, cutoff: int): seq<Incident> {
    if s == [] then []
    else if s[|s| - 1].atMs >= cutoff then Recent(s[..|s| - 1], cutoff) + [s[|s| - 1]]
    else Recent(s[..|s| - 1], cutoff)
  }

  // Newest first: later `atMs`, then the higher sequence.
  predicate NewerOrSame(a: Incident, b: Incident) {
    a.atMs > b.atMs || (a.atMs == b.atMs && a.seqNo >= b.seqNo)
  }

  class Store {
    var ring: seq<Incident>
    var detail: map<string, Incident>
    var counter: nat
    const cap: nat
    const maxAgeMs: int

    constructor (cap: nat, maxAgeMs: int)
      ensures ring == [] && detail == map[] && counter == 0
      ensures this.cap == cap && this.maxAgeMs == maxAgeMs
    {
      ring, detail, counter := [], map[], 0;
      this.cap, this.maxAgeMs := cap, maxAgeMs;
    }

    // INCR.
    method NextSeq() returns (n: nat)
      modifies this`counter
      ensures n == counter == old(counter) + 1
    {
      counter := counter + 1;
      n := counter;
    }

    // ADD_LUA.
    method Add(e: Incident, nowMs: int)
      modifies this`ring, this`detail
      ensures ring == AddResult(old(ring), e, cap, nowMs - maxAgeMs)
      ensures detail == AddDetail(old(ring), old(detail), e, cap, nowMs - maxAgeMs)
    {
      ring := [e] + ring;
      detail := detail[e.id := e];
      EvictTail(nowMs - maxAgeMs);
      TrimToCap();
    }

    // The script's tail loop.
    method EvictTail(cutoff: int)
      modifies this`ring, this`detail
      ensures ring == EvictOld(old(ring), cutoff, EVICTIONS_PER_ADD)
      ensures detail == old(detail) - Ids(old(ring)[|ring|..])
    {
      ghost var all, full := ring, detail;
      var n := 0;
      while n < EVICTIONS_PER_ADD
        invariant 0 <= n <= EVICTIONS_PER_ADD
        invariant |ring| <= |all| && ring == all[..|ring|]
        invariant EvictOld(all, cutoff, EVICTIONS_PER_ADD) == EvictOld(ring, cutoff, EVICTIONS_PER_ADD - n)
        invariant detail == full - Ids(all[|ring|..])
      {
        if |ring| == 0 || ring[|ring| - 1].atMs >= cutoff {
          break;
        }
        TailSplit(all, |ring|);
        detail := detail - {ring[|ring| - 1].id};
        ring := ring[..|ring| - 1];
        n := n + 1;
      }
    }

    // The script's cap.
    method TrimToCap()
      modifies this`ring, this`detail
      ensures ring == if |old(ring)| > cap then TrimTo(old(ring), cap - 1) else old(ring)
      ensures detail == if |old(ring)| > cap then old(detail) - Ids(old(ring)[cap..]) else old(detail)
    {
      if |ring| > cap {
        ghost var before := detail;
        var extra := ring[cap..];
        var i := 0;
        while i < |extra|
          invariant 0 <= i <= |extra|
          invariant detail == before - Ids(extra[..i])
          modifies this`detail
        {
          HeadSplit(extra, i);
          detail := detail - {extra[i].id};
          i := i + 1;
        }
        assert extra[..i] == extra;
        ring := TrimTo(ring, cap - 1);
      }
    }

    // PURGE_LUA.
    method PurgeBefore(cutoff: int) returns (removed: nat)
      modifies this`ring, this`detail
      ensures ring == Recent(old(ring), cutoff)
      ensures detail == old(detail) - Ids(Expired(old(ring), cutoff))
      ensures removed == |Expired(old(ring), cutoff)|
    {
      var all := ring;
      var kept: seq<Incident> := [];
      removed := 0;
      var k := 0;
      while k < |all|
        invariant 0 <= k <= |all|
        invariant kept == Recent(all[..k], cutoff)
        invariant removed == |Expired(all[..k], cutoff)|
        invariant detail == old(detail) - Ids(Expired(all[..k], cutoff))
        modifies this`detail
      {
        ExpiredSplit(all, k, cutoff);
        if all[k].atMs < cutoff {
          detail := detail - {all[k].id};
          removed := removed + 1;
        } else {
          kept := kept + [all[k]];
        }
        k := k + 1;
      }
      assert all[..k] == all;
      if removed > 0 {
        Rebuild(kept);
      } else {
        NothingExpired(all, cutoff);
      }
    }

    // DEL, then RPUSH in chunks of a thousand.
    method Rebuild(kept: seq<Incident>)
      modifies this`ring
      ensures ring == kept
    {
      ring := [];
      var i := 0;
      while i < |kept|
        invariant 0 <= i <= |kept| && ring == kept[..i]
      {
        var j := if i + 1000 < |kept| then i + 1000 else |kept|;
        ring := ring + kept[i..j];
        i := j;
      }
    }

    // Every unexpired summary, newest first.
    method List(now: int) returns (out: seq<Incident>)
      ensures multiset(out) == multiset(Recent(ring, now - maxAgeMs))
      ensures Sorting.SortedBy(out, NewerOrSame)
    {
      var cutoff := now - maxAgeMs;
      out := [];
      var i := 0;
      while i < |ring|
        invariant 0 <= i <= |ring|
        invariant out == Recent(ring[..i], cutoff)
      {
        assert ring[..i + 1][..i] == ring[..i];
        if ring[i].atMs >= cutoff {
          out := out + [ring[i]];
        }
        i := i + 1;
      }
      assert ring[..i] == ring;
      Sorting.SortBySorted(out, NewerOrSame);
      out := Sorting.SortBy(out, NewerOrSame);
    }
  }

  lemma TailSplit(all: seq<Incident>, n: nat)
    requires 0 < n <= |all|
    ensures Ids(all[n - 1..]) == {all[n - 1].id} + Ids(all[n..])
  {
    assert all[n - 1..] == [all[n - 1]] + all[n..];
    IdsAppend([all[n - 1]], all[n..]);
  }

  lemma HeadSplit(s: seq<Incident>, i: nat)
    requires i < |s|
    ensures Ids(s[..i + 1]) == Ids(s[..i]) + {s[i].id}
  {
    assert s[..i + 1] == s[..i] + [s[i]];
    IdsAppend(s[..i], [s[i]]);
  }

  lemma IdsOne(e: Incident)
    ensures Ids([e]) == {e.id}
  {
    assert [e][0] == e;
  }

  lemma IdsAppend(a: seq<Incident>, b: seq<Incident>)
    ensures Ids(a + b) == Ids(a) + Ids(b)
  {
    forall id | id in Ids(a) + Ids(b) ensures id in Ids(a + b) {
      if id in Ids(a) {
        var i :| 0 <= i < |a| && a[i].id == id;
        assert (a + b)[i] == a[i];
      } else {
        var i :| 0 <= i < |b| && b[i].id == id;
        assert (a + b)[|a| + i] == b[i];
      }
    }
  }

  function Expired(s: seq<Incident>, cutoff: int): seq<Incident> {
    if s == [] then []
    else if s[|s| - 1].atMs < cutoff then Expired(s[..|s| - 1], cutoff) + [s[|s| - 1]]
    else Expired(s[..|s| - 1], cutoff)
  }

  lemma ExpiredSplit(all: seq<Incident>, k: nat, cutoff: int)
    requires k < |all|
    ensures Expired(all[..k + 1], cutoff) ==
      if all[k].atMs < cutoff then Expired(all[..k], cutoff) + [all[k]] else Expired(all[..k], cutoff)
    ensures Recent(all[..k + 1], cutoff) ==
      if all[k].atMs < cutoff then Recent(all[..k], cutoff) else Recent(all[..k], cutoff) + [all[k]]
    ensures Ids(Expired(all[..k + 1], cutoff)) ==
      Ids(Expired(all[..k], cutoff)) + if all[k].atMs < cutoff then {all[k].id} else {}
  {
    assert all[..k + 1][..k] == all[..k];
    IdsOne(all[k]);
    IdsAppend(Expired(all[..k], cutoff), [all[k]]);
  }

  lemma {:induction false} NothingExpired(s: seq<Incident>, cutoff: int)
    requires Expired(s, cutoff) == []
    ensures Recent(s, cutoff) == s
  {
    if s != [] { NothingExpired(s[..|s| - 1], cutoff); }
  }

  // ---- What the scripts keep ----

  lemma {:induction false} OnlyOldEvicted(s: seq<Incident>, cutoff: int, budget: nat)
    ensures forall i :: |EvictOld(s, cutoff, budget)| <= i < |s| ==> s[i].atMs < cutoff
  {
    if budget > 0 && s != [] && s[|s| - 1].atMs < cutoff {
      OnlyOldEvicted(s[..|s| - 1], cutoff, budget - 1);
    }
  }

  // An add leaves a prefix of the new entry followed by the old ring, within the cap, and what it drops
  // is older than the age cutoff or past the cap.
  lemma AddLeavesPrefix(ring: seq<Incident>, e: Incident, cap: nat, cutoff: int)
    requires cap > 0
    ensures var all, r := [e] + ring, AddResult(ring, e, cap, cutoff);
      && |r| <= |all| && r == all[..|r|] && |r| <= cap
      && forall i :: |r| <= i < |all| ==> all[i].atMs < cutoff || i >= cap
  {
    OnlyOldEvicted([e] + ring, cutoff, EVICTIONS_PER_ADD);
  }

  // Cutting the list and dropping the cut ids from the hash keeps them in agreement.
  lemma CutKeepsAgreement(ring: seq<Incident>, detail: map<string, Incident>, n: nat)
    requires Agree(ring, detail) && n <= |ring|
    ensures Agree(ring[..n], detail - Ids(ring[n..]))
  {
    assert ring == ring[..n] + ring[n..];
    IdsAppend(ring[..n], ring[n..]);
    forall i | 0 <= i < n ensures ring[..n][i].id !in Ids(ring[n..]) {
      forall j | 0 <= j < |ring[n..]| ensures ring[n..][j].id != ring[i].id {
        assert ring[n..][j] == ring[n + j];
      }
    }
    assert (detail - Ids(ring[n..])).Keys == Ids(ring[..n]);
  }

  lemma PushKeepsAgreement(ring: seq<Incident>, detail: map<string, Incident>, e: Incident)
    requires Agree(ring, detail) && e.id !in detail
    ensures Agree([e] + ring, detail[e.id := e])
  {
    IdsAppend([e], ring);
    IdsOne(e);
    forall i | 0 <= i < |ring| ensures ring[i].id != e.id { assert ring[i].id in detail; }
  }

  // List and hash agree after an add exactly when the cap is positive or nothing was left to cap: with
  // a cap of zero, LTRIM 0 -1 keeps every entry whose details were just deleted.
  lemma AgreementAfterAdd(ring: seq<Incident>, detail: map<string, Incident>, e: Incident, cap: nat, cutoff: int)
    requires Agree(ring, detail) && e.id !in detail
    ensures Agree(AddResult(ring, e, cap, cutoff), AddDetail(ring, detail, e, cap, cutoff))
       <==> cap > 0 || EvictOld([e] + ring, cutoff, EVICTIONS_PER_ADD) == []
  {
    var all := [e] + ring;
    var kept := EvictOld(all, cutoff, EVICTIONS_PER_ADD);
    PushKeepsAgreement(ring, detail, e);
    CutKeepsAgreement(all, detail[e.id := e], |kept|);
    var left := detail[e.id := e] - Ids(all[|kept|..]);
    if |kept| > cap {
      if cap > 0 {
        CutKeepsAgreement(kept, left, cap);
      } else {
        assert kept[0..] == kept;
        assert kept[0].id !in left - Ids(kept);
      }
    }
  }

  // The purge partitions the ring by age.
  lemma {:induction false} PurgePartitions(s: seq<Incident>, cutoff: int)
    ensures multiset(s) == multiset(Recent(s, cutoff)) + multiset(Expired(s, cutoff))
    ensures forall e :: e in Recent(s, cutoff) <==> e in s && e.atMs >= cutoff
    ensures forall e :: e in Expired(s, cutoff) <==> e in s && e.atMs < cutoff
  {
    if s != [] {
      PurgePartitions(s[..|s| - 1], cutoff);
      assert s == s[..|s| - 1] + [s[|s| - 1]];
    }
  }

  lemma {:induction false} PurgeKeepsAgreement(ring: seq<Incident>, detail: map<string, Incident>, cutoff: int)
    requires Agree(ring, detail)
    ensures Agree(Recent(ring, cutoff), detail - Ids(Expired(ring, cutoff)))
    ensures |Recent(ring, cutoff)| <= |ring|
  {
    if ring != [] {
      var n := |ring| - 1;
      var init, last := ring[..n], ring[n];
      assert ring[n..] == [last];
      CutKeepsAgreement(ring, detail, n);
      PurgeKeepsAgreement(init, detail - Ids([last]), cutoff);
      PurgeLast(ring, detail, cutoff);
    }
  }

  lemma PurgeLast(ring: seq<Incident>, detail: map<string, Incident>, cutoff: int)
    requires ring != [] && Agree(ring, detail)
    requires var n := |ring| - 1;
      Agree(Recent(ring[..n], cutoff), detail - Ids([ring[n]]) - Ids(Expired(ring[..n], cutoff)))
    ensures Agree(Recent(ring, cutoff), detail - Ids(Expired(ring, cutoff)))
  {
    var n := |ring| - 1;
    var init, last := ring[..n], ring[n];
    IdsOne(last);
    if last.atMs < cutoff {
      IdsAppend(Expired(init, cutoff), [last]);
      assert detail - Ids([last]) - Ids(Expired(init, cutoff)) == detail - Ids(Expired(ring, cutoff));
    } else {
      var before := detail - {last.id} - Ids(Expired(init, cutoff));
      LastStays(ring, cutoff);
      assert detail[last.id] == last;
      assert detail - Ids(Expired(ring, cutoff)) == before[last.id := last];
      AppendKeepsAgreement(Recent(init, cutoff), before, last);
    }
  }

  lemma LastStays(ring: seq<Incident>, cutoff: int)
    requires ring != [] && DistinctIds(ring)
    ensures ring[|ring| - 1].id !in Ids(Expired(ring[..|ring| - 1], cutoff))
  {
    var init, last := ring[..|ring| - 1], ring[|ring| - 1];
    PurgePartitions(init, cutoff);
    var expired := Expired(init, cutoff);
    forall i | 0 <= i < |expired| ensures expired[i].id != last.id {
      assert expired[i] in expired;
      var k :| 0 <= k < |init| && init[k] == expired[i];
      assert ring[k].id != last.id;
    }
  }

  lemma AppendKeepsAgreement(ring: seq<Incident>, detail: map<string, Incident>, e: Incident)
    requires Agree(ring, detail) && e.id !in detail
    ensures Agree(ring + [e], detail[e.id := e])
  {
    IdsAppend(ring, [e]);
    IdsOne(e);
    forall i | 0 <= i < |ring| ensures ring[i].id != e.id { assert ring[i].id in detail; }
  }

  // ---- Over whole runs ----

  // Two instances share one store: a number is minted by INCR, its add script runs some time later,
  // in any order.
  datatype StoreState = StoreState(ring: seq<Incident>, detail: map<string, Incident>, counter: nat, pending: set<nat>)

  datatype StoreEvent = Mint | AddMinted(e: Incident, nowMs: int) | Purge(cutoff: int)

  function StoreStep(s: StoreState, ev: StoreEvent, cap: nat, maxAgeMs: int): StoreState {
    match ev
    case Mint => s.(counter := s.counter + 1, pending := s.pending + {s.counter + 1})
    case AddMinted(e, nowMs) =>
      if e.seqNo in s.pending && e.id == MintId(e.status, e.seqNo) then
        AfterAdd(s, e, cap, nowMs - maxAgeMs)
      else s
    case Purge(cutoff) =>
      s.(ring := Recent(s.ring, cutoff), detail := s.detail - Ids(Expired(s.ring, cutoff)))
  }

  function AfterAdd(s: StoreState, e: Incident, cap: nat, cutoff: int): StoreState {
    StoreState(AddResult(s.ring, e, cap, cutoff), AddDetail(s.ring, s.detail, e, cap, cutoff),
               s.counter, s.pending - {e.seqNo})
  }

  function StoreRun(events: seq<StoreEvent>, cap: nat, maxAgeMs: int): StoreState {
    if events == [] then StoreState([], map[], 0, {})
    else StoreStep(StoreRun(events[..|events| - 1], cap, maxAgeMs), events[|events| - 1], cap, maxAgeMs)
  }

  ghost predicate StoreInv(s: StoreState, cap: nat) {
    && Agree(s.ring, s.detail) && |s.ring| <= cap
    && (forall n :: n in s.pending ==> n <= s.counter)
    && (forall e :: e in s.ring ==> Minted(s, e))
  }

  ghost predicate Minted(s: StoreState, e: Incident) {
    e.seqNo <= s.counter && e.seqNo !in s.pending && e.id == MintId(e.status, e.seqNo)
  }

  lemma PendingIdIsNew(s: StoreState, e: Incident, cap: nat)
    requires StoreInv(s, cap) && e.seqNo in s.pending && e.id == MintId(e.status, e.seqNo)
    ensures e.id !in s.detail
  {
    forall i | 0 <= i < |s.ring| ensures s.ring[i].id != e.id {
      assert Minted(s, s.ring[i]);
      IdsDiffer(s.ring[i].status, s.ring[i].seqNo, e.status, e.seqNo);
    }
  }

  lemma AddKeepsInv(s: StoreState, e: Incident, cap: nat, cutoff: int)
    requires StoreInv(s, cap) && cap > 0 && e.seqNo in s.pending && e.id == MintId(e.status, e.seqNo)
    ensures StoreInv(AfterAdd(s, e, cap, cutoff), cap)
  {
    PendingIdIsNew(s, e, cap);
    AddKeepsMinted(s, e, cap, cutoff);
    AddKeepsRest(s, e, cap, cutoff);
  }

  lemma AddKeepsRest(s: StoreState, e: Incident, cap: nat, cutoff: int)
    requires StoreInv(s, cap) && cap > 0 && e.id !in s.detail
    requires var t := AfterAdd(s, e, cap, cutoff); forall x :: x in t.ring ==> Minted(t, x)
    ensures StoreInv(AfterAdd(s, e, cap, cutoff), cap)
  {
    AddKeepsAgreement(s.ring, s.detail, e, cap, cutoff);
  }

  lemma AddKeepsAgreement(ring: seq<Incident>, detail: map<string, Incident>, e: Incident, cap: nat, cutoff: int)
    requires Agree(ring, detail) && e.id !in detail && cap > 0
    ensures Agree(AddResult(ring, e, cap, cutoff), AddDetail(ring, detail, e, cap, cutoff))
    ensures |AddResult(ring, e, cap, cutoff)| <= cap
  {
    AgreementAfterAdd(ring, detail, e, cap, cutoff);
    AddLeavesPrefix(ring, e, cap, cutoff);
  }

  lemma AddKeepsMinted(s: StoreState, e: Incident, cap: nat, cutoff: int)
    requires StoreInv(s, cap) && cap > 0 && e.seqNo in s.pending && e.id == MintId(e.status, e.seqNo)
    ensures var t := AfterAdd(s, e, cap, cutoff); forall x :: x in t.ring ==> Minted(t, x)
  {
    AddedFrom(s.ring, e, cap, cutoff);
    var t := AfterAdd(s, e, cap, cutoff);
    forall x | x in t.ring ensures Minted(t, x) {
      if x != e { assert Minted(s, x); }
    }
  }

  lemma AddedFrom(ring: seq<Incident>, e: Incident, cap: nat, cutoff: int)
    requires cap > 0
    ensures forall x :: x in AddResult(ring, e, cap, cutoff) ==> x == e || x in ring
  {
    AddLeavesPrefix(ring, e, cap, cutoff);
    forall x | x in AddResult(ring, e, cap, cutoff) ensures x == e || x in ring {
      assert x in [e] + ring;
    }
  }

  lemma MintKeepsInv(s: StoreState, cap: nat)
    requires StoreInv(s, cap)
    ensures StoreInv(s.(counter := s.counter + 1, pending := s.pending + {s.counter + 1}), cap)
  {
    var t := s.(counter := s.counter + 1, pending := s.pending + {s.counter + 1});
    forall x | x in t.ring ensures Minted(t, x) { assert Minted(s, x); }
  }

  lemma PurgeKeepsInv(s: StoreState, cutoff: int, cap: nat)
    requires StoreInv(s, cap)
    ensures StoreInv(s.(ring := Recent(s.ring, cutoff), detail := s.detail - Ids(Expired(s.ring, cutoff))), cap)
  {
    PurgeKeepsAgreement(s.ring, s.detail, cutoff);
    PurgePartitions(s.ring, cutoff);
    var t := s.(ring := Recent(s.ring, cutoff), detail := s.detail - Ids(Expired(s.ring, cutoff)));
    forall x | x in t.ring ensures Minted(t, x) { assert Minted(s, x); }
  }

  lemma AddStepKeepsInv(s: StoreState, e: Incident, nowMs: int, cap: nat, maxAgeMs: int)
    requires StoreInv(s, cap) && cap > 0
    ensures StoreInv(StoreStep(s, AddMinted(e, nowMs), cap, maxAgeMs), cap)
  {
    if e.seqNo in s.pending && e.id == MintId(e.status, e.seqNo) {
      AddKeepsInv(s, e, cap, nowMs - maxAgeMs);
      AddStepIs(s, e, nowMs, cap, maxAgeMs);
    }
  }

  lemma AddStepIs(s: StoreState, e: Incident, nowMs: int, cap: nat, maxAgeMs: int)
    requires e.seqNo in s.pending && e.id == MintId(e.status, e.seqNo)
    ensures StoreStep(s, AddMinted(e, nowMs), cap, maxAgeMs) == AfterAdd(s, e, cap, nowMs - maxAgeMs)
  {
  }

  lemma StoreStepKeepsInv(s: StoreState, ev: StoreEvent, cap: nat, maxAgeMs: int)
    requires StoreInv(s, cap) && cap > 0
    ensures StoreInv(StoreStep(s, ev, cap, maxAgeMs), cap)
  {
    match ev
    case Mint => MintKeepsInv(s, cap);
    case AddMinted(e, nowMs) => AddStepKeepsInv(s, e, nowMs, cap, maxAgeMs);
    case Purge(cutoff) => PurgeKeepsInv(s, cutoff, cap);
  }

  // After any sequence of mints, adds and purges the ring has distinct ids and at most `cap` entries,
  // and the detail hash holds exactly the ring's incidents.
  lemma {:induction false} RunKeepsAgreement(events: seq<StoreEvent>, cap: nat, maxAgeMs: int)
    requires cap > 0
    ensures StoreInv(StoreRun(events, cap, maxAgeMs), cap)
  {
    if events != [] {
      RunKeepsAgreement(events[..|events| - 1], cap, maxAgeMs);
      StoreStepKeepsInv(StoreRun(events[..|events| - 1], cap, maxAgeMs), events[|events| - 1], cap, maxAgeMs);
    }
  }
}
