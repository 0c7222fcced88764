// The walk over an error and everything it names through `cause` and `meta.cause`, which may be cyclic.
module ErrorChain {
  import opened Wrappers

  type Ref = nat

  // A JavaScript value as the walk sees it: an object, or anything else (null, undefined, primitives).
  datatype Value = NotAnObject | Object(ref: Ref)

  // The fields the classifier reads. A field that is absent or not a string is None;
  // `metaCause` is the value of `meta?.cause`.
  datatype Node = Node(
    code: Option<string>, originalCode: Option<string>, message: Option<string>,
    cause: Value, metaCause: Value)

  type Heap = map<Ref, Node>

  // Every reference stored in an object leads to an object.
  ghost predicate Closed(h: Heap) {
    forall r :: r in h ==> InHeap(h[r].cause, h) && InHeap(h[r].metaCause, h)
  }

  ghost predicate InHeap(v: Value, h: Heap) {
    v.Object? ==> v.ref in h
  }

  // `path` leads from one object to another, following one `cause` or `meta.cause` link at a time.
  ghost predicate IsPath(h: Heap, path: seq<Ref>, from: Ref, to: Ref) {
    && path != [] && path[0] == from && path[|path| - 1] == to
    && (forall i :: 0 <= i < |path| ==> path[i] in h)
    && (forall i :: 0 <= i < |path| - 1 ==> Links(h[path[i]], path[i + 1]))
  }

  ghost predicate Links(n: Node, r: Ref) {
    n.cause == Object(r) || n.metaCause == Object(r)
  }

  ghost predicate Reachable(h: Heap, err: Value, r: Ref) {
    err.Object? && exists path :: IsPath(h, path, err.ref, r)
  }

  ghost predicate NoDuplicates(s: seq<Ref>) {
    forall i, j :: 0 <= i < j < |s| ==> s[i] != s[j]
  }

  // The generator, collected: the objects in the order they are yielded.
  method ErrorChain(h: Heap, err: Value) returns (visited: seq<Ref>)
    requires Closed(h) && InHeap(err, h)
    ensures NoDuplicates(visited)
    ensures forall r :: r in visited <==> r in h && Reachable(h, err, r)
  {
    visited := [];
    var seen: set<Ref> := {};
    var queue := [err];
    assert err.Object? ==> IsPath(h, [err.ref], err.ref, err.ref);
    while |queue| > 0
      invariant forall r :: r in visited <==> r in seen
      invariant NoDuplicates(visited)
      invariant seen <= h.Keys
      invariant forall v :: v in queue && v.Object? ==> v.ref in h && Reachable(h, err, v.ref)
      invariant forall r :: r in seen ==> Reachable(h, err, r)
      invariant forall r, q :: r in seen && Links(h[r], q) ==> q in seen || Object(q) in queue
      invariant err.Object? ==> err.ref in seen || err in queue
      decreases h.Keys - seen, |queue|
    {
      var cur := queue[0];
      queue := queue[1..];
      if cur.NotAnObject? || cur.ref in seen {
        continue;
      }
      var node := h[cur.ref];
      ghost var before := h.Keys - seen;
      seen := seen + {cur.ref};
      assert cur.ref in before && cur.ref !in h.Keys - seen;
      visited := visited + [cur.ref];
      ReachOneMore(h, err, cur.ref);
      queue := queue + [node.cause, node.metaCause];
    }
    forall r | r in h && Reachable(h, err, r) ensures r in visited {
      ClosedSetHoldsAll(h, err, r, seen);
    }
  }

  lemma ReachOneMore(h: Heap, err: Value, r: Ref)
    requires Closed(h) && r in h && Reachable(h, err, r)
    ensures forall q :: Links(h[r], q) ==> Reachable(h, err, q)
  {
    var path :| IsPath(h, path, err.ref, r);
    forall q | Links(h[r], q) ensures Reachable(h, err, q) {
      var longer := path + [q];
      assert IsPath(h, longer, err.ref, q);
    }
  }

  lemma ClosedSetHoldsAll(h: Heap, err: Value, r: Ref, s: set<Ref>)
    requires Reachable(h, err, r) && err.ref in s && s <= h.Keys
    requires forall p, q :: p in s && Links(h[p], q) ==> q in s
    ensures r in s
  {
    var path :| IsPath(h, path, err.ref, r);
    var i := 0;
    while i < |path| - 1
      invariant 0 <= i < |path| && path[i] in s
    {
      assert Links(h[path[i]], path[i + 1]);
      i := i + 1;
    }
  }

  const EXCLUSION_VIOLATION := "23P01"
  const OVERLAP_CONSTRAINT := "booking_slots_no_overlap"

  predicate Includes(text: string, needle: string) {
    exists i :: 0 <= i <= |text| && StartsAt(text, needle, i)
  }

  predicate StartsAt(text: string, needle: string, i: nat) {
    i + |needle| <= |text| && text[i..i + |needle|] == needle
  }

  // A string `originalCode` shadows `code`.
  function SqlState(n: Node): Option<string> {
    if n.originalCode.Some? then n.originalCode else n.code
  }

  predicate NamesOverlap(n: Node) {
    SqlState(n) == Some(EXCLUSION_VIOLATION) || (n.message.Some? && Includes(n.message.value, OVERLAP_CONSTRAINT))
  }

  // True exactly when some object on the chain carries the SQLSTATE or the constraint's name.
  method IsOverlapViolation(h: Heap, err: Value) returns (found: bool)
    requires Closed(h) && InHeap(err, h)
    ensures found <==> exists r :: r in h && Reachable(h, err, r) && NamesOverlap(h[r])
  {
    var chain := ErrorChain(h, err);
    var i := 0;
    while i < |chain|
      invariant 0 <= i <= |chain|
      invariant forall k :: 0 <= k < i ==> !NamesOverlap(h[chain[k]])
    {
      assert chain[i] in chain;
      if NamesOverlap(h[chain[i]]) {
        return true;
      }
      i := i + 1;
    }
    return false;
  }
}
