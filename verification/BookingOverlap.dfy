// The single owner of the overlap rule: half-open spans, the overlap test and the slot parser.
module BookingOverlap {
  import Sorting

  // Instants are milliseconds. A span occupies start <= t < end.
  datatype Span = Span(start: int, end: int)

  predicate Contains(s: Span, t: int) {
    s.start <= t < s.end
  }

  // One clause of `overlapOr`: theirs.startAt < mine.end and theirs.endAt > mine.start.
  predicate Overlaps(theirs: Span, mine: Span) {
    theirs.start < mine.end && theirs.end > mine.start
  }

  predicate NonEmpty(s: Span) {
    s.start < s.end
  }

  ghost predicate PairwiseDisjoint(s: seq<Span>) {
    forall i, j :: 0 <= i < j < |s| ==> !Overlaps(s[i], s[j])
  }

  // The two strict comparisons say exactly "some instant lies in both", so touching spans are apart.
  lemma OverlapsIffSharedInstant(a: Span, b: Span)
    requires NonEmpty(a) && NonEmpty(b)
    ensures Overlaps(a, b) <==> exists t :: Contains(a, t) && Contains(b, t)
  {
    if Overlaps(a, b) {
      var t := if a.start < b.start then b.start else a.start;
      assert Contains(a, t) && Contains(b, t);
    }
  }

  datatype SlotError = RangeInvalid | InThePast | SelfOverlap
  datatype ParseResult = Parsed(spans: seq<Span>) | BadSlots(error: SlotError)

  predicate ValidSlot(s: Span, now: int) {
    NonEmpty(s) && s.start > now
  }

  predicate AllValid(input: seq<Span>, now: int) {
    forall i :: 0 <= i < |input| ==> ValidSlot(input[i], now)
  }

  // What the parser promises: the first bad span decides the error, then any overlapping pair.
  ghost function ParseOutcome(input: seq<Span>, now: int): ParseResult {
    if !AllValid(input, now) then BadSlots(FirstError(input, now))
    else if !PairwiseDisjoint(input) then BadSlots(SelfOverlap)
    else Parsed(input)
  }

  ghost function FirstError(input: seq<Span>, now: int): SlotError
    requires !AllValid(input, now)
  {
    if !ValidSlot(input[0], now) then
      if NonEmpty(input[0]) then InThePast else RangeInvalid
    else
      assert !AllValid(input[1..], now) by {
        var k :| 0 <= k < |input| && !ValidSlot(input[k], now);
        assert input[1..][k - 1] == input[k];
      }
      FirstError(input[1..], now)
  }

  predicate StartsNoLater(a: Span, b: Span) {
    a.start <= b.start
  }

  method ParseSlots(input: seq<Span>, now: int) returns (r: ParseResult)
    ensures r == ParseOutcome(input, now)
  {
    var n := 0;
    while n < |input|
      invariant 0 <= n <= |input|
      invariant AllValid(input[..n], now)
    {
      if input[n].end <= input[n].start || input[n].start <= now {
        FirstErrorAt(input, n, now);
        return BadSlots(if input[n].end <= input[n].start then RangeInvalid else InThePast);
      }
      assert input[..n + 1] == input[..n] + [input[n]];
      n := n + 1;
    }
    assert input[..n] == input;
    var sorted := Sorting.SortBy(input, StartsNoLater);
    Sorting.SortBySorted(input, StartsNoLater);
    SameBag(input, sorted);
    var apart := NeighboursApart(sorted);
    return if apart then Parsed(input) else BadSlots(SelfOverlap);
  }

  // The scan over the sorted copy: comparing each span with the one before it is enough.
  method NeighboursApart(sorted: seq<Span>) returns (apart: bool)
    requires Sorting.SortedBy(sorted, StartsNoLater) && forall i :: 0 <= i < |sorted| ==> NonEmpty(sorted[i])
    ensures apart <==> PairwiseDisjoint(sorted)
  {
    var i := 1;
    while i < |sorted|
      invariant 1 <= i <= |sorted| || |sorted| == 0
      invariant forall k :: 1 <= k < i <= |sorted| ==> sorted[k - 1].end <= sorted[k].start
    {
      if sorted[i].start < sorted[i - 1].end {
        assert NonEmpty(sorted[i - 1]) && NonEmpty(sorted[i]);
        assert StartsNoLater(sorted[i - 1], sorted[i]);
        assert Overlaps(sorted[i - 1], sorted[i]);
        return false;
      }
      i := i + 1;
    }
    AdjacentCheckIsComplete(sorted);
    return true;
  }

  lemma {:induction false} FirstErrorAt(input: seq<Span>, n: nat, now: int)
    requires n < |input| && AllValid(input[..n], now) && !ValidSlot(input[n], now)
    ensures !AllValid(input, now)
    ensures FirstError(input, now) == if NonEmpty(input[n]) then InThePast else RangeInvalid
  {
    if n > 0 {
      assert ValidSlot(input[..n][0], now);
      assert input[1..][..n - 1] == input[..n][1..];
      FirstErrorAt(input[1..], n - 1, now);
    }
  }

  // ---- Why checking neighbours after sorting is enough ----

  lemma AdjacentCheckIsComplete(sorted: seq<Span>)
    requires forall i :: 0 <= i < |sorted| ==> NonEmpty(sorted[i])
    requires forall k :: 1 <= k < |sorted| ==> sorted[k - 1].end <= sorted[k].start
    ensures PairwiseDisjoint(sorted)
  {
    forall i, j | 0 <= i < j < |sorted| ensures !Overlaps(sorted[i], sorted[j]) {
      EndsBefore(sorted, i, j);
    }
  }

  lemma {:induction false} EndsBefore(sorted: seq<Span>, i: nat, j: nat)
    requires forall i :: 0 <= i < |sorted| ==> NonEmpty(sorted[i])
    requires forall k :: 1 <= k < |sorted| ==> sorted[k - 1].end <= sorted[k].start
    requires i < j < |sorted|
    ensures sorted[i].end <= sorted[j].start
    decreases j - i
  {
    if i + 1 < j {
      EndsBefore(sorted, i, j - 1);
      assert NonEmpty(sorted[j - 1]);
    }
    assert sorted[j - 1].end <= sorted[j].start;
  }

  // Pairwise disjointness of non-empty spans does not depend on their order.
  ghost predicate DisjointBag(m: multiset<Span>) {
    && (forall a :: a in m ==> m[a] == 1)
    && (forall a, b :: a in m && b in m && a != b ==> !Overlaps(a, b))
  }

  lemma {:induction false} DistinctCountOne(s: seq<Span>, a: Span)
    requires forall i, j :: 0 <= i < j < |s| ==> s[i] != s[j]
    ensures a in s ==> multiset(s)[a] == 1
  {
    if s != [] {
      assert s == [s[0]] + s[1..];
      forall i, j | 0 <= i < j < |s[1..]| ensures s[1..][i] != s[1..][j] {
        assert s[1..][i] == s[i + 1] && s[1..][j] == s[j + 1];
      }
      DistinctCountOne(s[1..], a);
      if a == s[0] {
        assert a !in s[1..];
      }
    }
  }

  lemma RepeatedCountTwo(s: seq<Span>, i: nat, j: nat)
    requires i < j < |s| && s[i] == s[j]
    ensures multiset(s)[s[i]] >= 2
  {
    var left, right := s[..j], s[j..];
    assert s == left + right;
    assert left[i] == s[i] && right[0] == s[j];
    assert s[i] in multiset(left) && s[i] in multiset(right);
  }

  lemma BagView(s: seq<Span>)
    requires forall i :: 0 <= i < |s| ==> NonEmpty(s[i])
    ensures PairwiseDisjoint(s) <==> DisjointBag(multiset(s))
  {
    if PairwiseDisjoint(s) {
      forall i, j | 0 <= i < j < |s| ensures s[i] != s[j] {
        assert !Overlaps(s[i], s[j]);
      }
      forall a | a in multiset(s) ensures multiset(s)[a] == 1 {
        DistinctCountOne(s, a);
      }
      forall a, b | a in multiset(s) && b in multiset(s) && a != b ensures !Overlaps(a, b) {
        var i :| 0 <= i < |s| && s[i] == a;
        var j :| 0 <= j < |s| && s[j] == b;
        if i < j { assert !Overlaps(s[i], s[j]); } else { assert !Overlaps(s[j], s[i]); }
      }
    }
    if DisjointBag(multiset(s)) {
      forall i, j | 0 <= i < j < |s| ensures !Overlaps(s[i], s[j]) {
        assert s[i] in multiset(s) && s[j] in multiset(s);
        if s[i] == s[j] {
          RepeatedCountTwo(s, i, j);
          assert false;
        }
      }
    }
  }

  lemma SameBag(s: seq<Span>, t: seq<Span>)
    requires multiset(s) == multiset(t)
    requires forall i :: 0 <= i < |s| ==> NonEmpty(s[i])
    ensures forall i :: 0 <= i < |t| ==> NonEmpty(t[i])
    ensures PairwiseDisjoint(s) <==> PairwiseDisjoint(t)
  {
    forall i | 0 <= i < |t| ensures NonEmpty(t[i]) {
      assert t[i] in multiset(s);
    }
    BagView(s);
    BagView(t);
  }

  // Acceptance, stated outright: the request comes back unchanged exactly when every span is non-empty
  // and in the future and no instant is asked for twice.
  lemma AcceptedExactlyWhenDisjoint(input: seq<Span>, now: int)
    ensures ParseOutcome(input, now).Parsed? <==>
      && (forall i :: 0 <= i < |input| ==> input[i].start < input[i].end && now < input[i].start)
      && (forall i, j, t :: 0 <= i < |input| && 0 <= j < |input| && i != j && Contains(input[i], t) ==> !Contains(input[j], t))
    ensures ParseOutcome(input, now).Parsed? ==> ParseOutcome(input, now).spans == input
  {
    if AllValid(input, now) {
      forall i, j | 0 <= i < |input| && 0 <= j < |input|
        ensures Overlaps(input[i], input[j]) <==> exists t :: Contains(input[i], t) && Contains(input[j], t)
        ensures Overlaps(input[i], input[j]) <==> Overlaps(input[j], input[i])
      {
        assert ValidSlot(input[i], now) && ValidSlot(input[j], now);
        OverlapsIffSharedInstant(input[i], input[j]);
      }
      if PairwiseDisjoint(input) {
        forall i, j, t | 0 <= i < |input| && 0 <= j < |input| && i != j && Contains(input[i], t)
          ensures !Contains(input[j], t)
        {
          if i < j { assert !Overlaps(input[i], input[j]); } else { assert !Overlaps(input[j], input[i]); }
        }
      }
    } else {
      var k :| 0 <= k < |input| && !ValidSlot(input[k], now);
    }
  }
}
