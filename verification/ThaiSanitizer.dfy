// The Thai text sanitiser: a fixed chain of global replaces, NFC and trim, each scanning once.
module ThaiSanitizer {
  import opened Text

  const SARA_E: char := '\U{0E40}'
  const SARA_AE: char := '\U{0E41}'
  const SARA_AA: char := '\U{0E32}'
  const SARA_AM: char := '\U{0E33}'
  const NIKHAHIT: char := '\U{0E4D}'
  const NBSP: char := '\U{00A0}'

  // MAI EK .. THANTHAKHAT.
  predicate IsTone(c: char) {
    '\U{0E48}' <= c <= '\U{0E4C}'
  }

  // MAI HAN-AKAT, SARA I .. SARA UU, MAI TAIKHU.
  predicate IsVowelMark(c: char) {
    c == '\U{0E31}' || '\U{0E34}' <= c <= '\U{0E39}' || c == '\U{0E47}'
  }

  predicate IsZeroWidth(c: char) {
    '\U{200B}' <= c <= '\U{200D}' || c == '\U{FEFF}'
  }

  // Canonical combining classes of the alphabet: SARA U and SARA UU 103, PHINTHU 9, the four tones 107.
  function Ccc(c: char): nat {
    if c == '\U{0E38}' || c == '\U{0E39}' then 103
    else if c == '\U{0E3A}' then 9
    else if '\U{0E48}' <= c <= '\U{0E4B}' then 107
    else 0
  }

  predicate ToneBeforeVowel(a: char, b: char) {
    IsTone(a) && IsVowelMark(b)
  }

  predicate SaraAmBeforeTone(a: char, b: char) {
    a == SARA_AM && '\U{0E48}' <= b <= '\U{0E4B}'
  }

  predicate OutOfClassOrder(a: char, b: char) {
    Ccc(a) > Ccc(b) > 0
  }

  // ---- The rules ----

  // `s.replace(/ab/g, c)`.
  function FoldPairs(s: string, a: char, b: char, c: char): (r: string)
    ensures |r| <= |s|
  {
    if |s| < 2 then s
    else if s[0] == a && s[1] == b then [c] + FoldPairs(s[2..], a, b, c)
    else [s[0]] + FoldPairs(s[1..], a, b, c)
  }

  // `s.replace(/(x)(y)/g, '$2$1')` for the pairs of `p`: adjacent pairs from the left, no rescan.
  function SwapPairs(s: string, p: (char, char) -> bool): (r: string)
    ensures |r| == |s|
  {
    if |s| < 2 then s
    else if p(s[0], s[1]) then [s[1], s[0]] + SwapPairs(s[2..], p)
    else [s[0]] + SwapPairs(s[1..], p)
  }

  function StripZeroWidth(s: string): (r: string)
    ensures |r| <= |s|
  {
    if s == [] then []
    else if IsZeroWidth(s[0]) then StripZeroWidth(s[1..])
    else [s[0]] + StripZeroWidth(s[1..])
  }

  function NbspToSpace(s: string): (r: string)
    ensures |r| == |s|
  {
    if s == [] then [] else [if s[0] == NBSP then ' ' else s[0]] + NbspToSpace(s[1..])
  }

  // The canonical ordering algorithm: marks of each run sorted by class, equal classes kept in order.
  function CanonicalOrder(s: string): (r: string)
    ensures |r| == |s|
  {
    if s == [] then [] else InsertMark(s[0], CanonicalOrder(s[1..]))
  }

  function InsertMark(c: char, t: string): (r: string)
    ensures |r| == |t| + 1
  {
    if t != [] && OutOfClassOrder(c, t[0]) then [t[0]] + InsertMark(c, t[1..]) else [c] + t
  }

  function PairRules(s: string): string {
    SwapPairs(SwapPairs(FoldPairs(FoldPairs(s, SARA_E, SARA_E, SARA_AE), NIKHAHIT, SARA_AA, SARA_AM), ToneBeforeVowel), SaraAmBeforeTone)
  }

  function Settle(s: string): string {
    TrimEnd(TrimStart(CanonicalOrder(NbspToSpace(StripZeroWidth(s)))))
  }

  function SanitizeThaiText(s: string): string {
    Settle(PairRules(s))
  }

  // ---- The measure: length, then out-of-order mark pairs, then NBSPs ----

  predicate Inverted(a: char, b: char) {
    ToneBeforeVowel(a, b) || SaraAmBeforeTone(a, b) || OutOfClassOrder(a, b)
  }

  function InvertedAfter(c: char, s: string): nat {
    if s == [] then 0 else (if Inverted(c, s[0]) then 1 else 0) + InvertedAfter(c, s[1..])
  }

  function Inversions(s: string): nat {
    if s == [] then 0 else InvertedAfter(s[0], s[1..]) + Inversions(s[1..])
  }

  function Nbsps(s: string): nat {
    if s == [] then 0 else (if s[0] == NBSP then 1 else 0) + Nbsps(s[1..])
  }

  ghost predicate Smaller(a: string, b: string) {
    |a| < |b| || (|a| == |b| && (Inversions(a) < Inversions(b) || (Inversions(a) == Inversions(b) && Nbsps(a) < Nbsps(b))))
  }

  ghost predicate SameOrSmaller(a: string, b: string) {
    a == b || Smaller(a, b)
  }

  lemma Compose(a: string, b: string, c: string)
    requires SameOrSmaller(a, b) && SameOrSmaller(b, c)
    ensures SameOrSmaller(a, c)
    ensures a == c ==> a == b
  {
  }

  // ---- Each rule keeps the string or makes it smaller ----

  ghost predicate HasPair(s: string, p: (char, char) -> bool) {
    exists i :: 0 <= i < |s| - 1 && p(s[i], s[i + 1])
  }

  lemma HasPairTail(s: string, p: (char, char) -> bool)
    requires |s| >= 2
    ensures HasPair(s, p) <==> p(s[0], s[1]) || HasPair(s[1..], p)
  {
    if i :| 0 <= i < |s| - 1 && p(s[i], s[i + 1]) {
      if i > 0 { assert p(s[1..][i - 1], s[1..][i]); }
    }
    if j :| 0 <= j < |s[1..]| - 1 && p(s[1..][j], s[1..][j + 1]) {
      assert p(s[j + 1], s[j + 2]);
    }
  }

  predicate IsPair(a: char, b: char, x: char, y: char) {
    x == a && y == b
  }

  lemma {:induction false} FoldShrinks(s: string, a: char, b: char, c: char)
    ensures var r := FoldPairs(s, a, b, c);
      if HasPair(s, (x, y) => IsPair(a, b, x, y)) then |r| < |s| else r == s
  {
    if |s| >= 2 {
      HasPairTail(s, (x, y) => IsPair(a, b, x, y));
      if !(s[0] == a && s[1] == b) {
        FoldShrinks(s[1..], a, b, c);
        assert s == [s[0]] + s[1..];
      }
    }
  }

  ghost predicate Swappable(p: (char, char) -> bool) {
    forall x, y :: p(x, y) ==> Inverted(x, y) && !Inverted(y, x)
  }

  lemma RulesAreSwappable()
    ensures Swappable(ToneBeforeVowel) && Swappable(SaraAmBeforeTone)
  {
  }

  lemma {:induction false} SwapKeepsAfter(c: char, s: string, p: (char, char) -> bool)
    ensures InvertedAfter(c, SwapPairs(s, p)) == InvertedAfter(c, s)
  {
    if |s| >= 2 {
      if p(s[0], s[1]) {
        SwapKeepsAfter(c, s[2..], p);
        var t := SwapPairs(s[2..], p);
        var r := [s[1], s[0]] + t;
        assert r[1..] == [s[0]] + t && r[1..][1..] == t;
        assert s[1..][1..] == s[2..];
      } else {
        SwapKeepsAfter(c, s[1..], p);
        assert ([s[0]] + SwapPairs(s[1..], p))[1..] == SwapPairs(s[1..], p);
      }
    }
  }

  lemma InversionsOfTwo(a: char, b: char, t: string)
    ensures Inversions([a, b] + t) ==
      (if Inverted(a, b) then 1 else 0) + InvertedAfter(a, t) + InvertedAfter(b, t) + Inversions(t)
  {
    var s := [a, b] + t;
    assert s[1..] == [b] + t && ([b] + t)[1..] == t;
  }

  lemma {:induction false} SwapShrinks(s: string, p: (char, char) -> bool)
    requires Swappable(p)
    ensures var r := SwapPairs(s, p);
      if HasPair(s, p) then Inversions(r) < Inversions(s) else r == s
  {
    if |s| >= 2 {
      HasPairTail(s, p);
      if p(s[0], s[1]) {
        var rest := s[2..];
        var t := SwapPairs(rest, p);
        SwapShrinks(rest, p);
        SwapKeepsAfter(s[0], rest, p);
        SwapKeepsAfter(s[1], rest, p);
        InversionsOfTwo(s[0], s[1], rest);
        InversionsOfTwo(s[1], s[0], t);
        assert s == [s[0], s[1]] + rest;
      } else {
        SwapShrinks(s[1..], p);
        SwapKeepsAfter(s[0], s[1..], p);
        assert ([s[0]] + SwapPairs(s[1..], p))[1..] == SwapPairs(s[1..], p);
        assert s == [s[0]] + s[1..];
      }
    }
  }

  lemma {:induction false} StripShrinks(s: string)
    ensures var r := StripZeroWidth(s);
      if exists i :: 0 <= i < |s| && IsZeroWidth(s[i]) then |r| < |s| else r == s
  {
    if s != [] {
      StripShrinks(s[1..]);
      assert s == [s[0]] + s[1..];
      if i :| 0 <= i < |s| && IsZeroWidth(s[i]) {
        if i > 0 { assert IsZeroWidth(s[1..][i - 1]); }
      }
      if j :| 0 <= j < |s[1..]| && IsZeroWidth(s[1..][j]) { assert IsZeroWidth(s[j + 1]); }
    }
  }

  lemma {:induction false} SpacesAreNeutral(c: char, s: string)
    requires c == ' ' || c == NBSP
    ensures InvertedAfter(c, s) == 0
  {
    if s != [] { SpacesAreNeutral(c, s[1..]); }
  }

  lemma {:induction false} NbspKeepsInversions(s: string)
    ensures Inversions(NbspToSpace(s)) == Inversions(s)
    ensures forall c :: InvertedAfter(c, NbspToSpace(s)) == InvertedAfter(c, s)
  {
    if s != [] {
      NbspKeepsInversions(s[1..]);
      assert NbspToSpace(s)[1..] == NbspToSpace(s[1..]);
      if s[0] == NBSP {
        SpacesAreNeutral(' ', s[1..]);
        SpacesAreNeutral(NBSP, s[1..]);
      }
    }
  }

  lemma {:induction false} NbspShrinks(s: string)
    ensures Nbsps(NbspToSpace(s)) == 0 && (NbspToSpace(s) == s <==> Nbsps(s) == 0)
  {
    if s != [] {
      NbspShrinks(s[1..]);
      assert s == [s[0]] + s[1..];
      assert NbspToSpace(s)[1..] == NbspToSpace(s[1..]);
    }
  }

  lemma {:induction false} InsertMarkAfter(x: char, c: char, t: string)
    ensures InvertedAfter(x, InsertMark(c, t)) == (if Inverted(x, c) then 1 else 0) + InvertedAfter(x, t)
  {
    if t != [] && OutOfClassOrder(c, t[0]) {
      var v := InsertMark(c, t[1..]);
      InsertMarkAfter(x, c, t[1..]);
      assert ([t[0]] + v)[1..] == v;
    } else {
      assert ([c] + t)[1..] == t;
    }
  }

  lemma {:induction false} InsertMarkShrinks(c: char, t: string)
    ensures var r := InsertMark(c, t);
      && Inversions(r) <= InvertedAfter(c, t) + Inversions(t)
      && (r == [c] + t || Inversions(r) < InvertedAfter(c, t) + Inversions(t))
      && (r == [c] + t <==> !(t != [] && OutOfClassOrder(c, t[0])))
  {
    if t != [] && OutOfClassOrder(c, t[0]) {
      var v := InsertMark(c, t[1..]);
      InsertMarkShrinks(c, t[1..]);
      InsertMarkAfter(t[0], c, t[1..]);
      assert InsertMark(c, t) == [t[0]] + v;
      assert ([t[0]] + v)[1..] == v;
    } else {
      assert ([c] + t)[1..] == t;
    }
  }

  lemma {:induction false} CanonicalOrderShrinks(s: string)
    ensures var r := CanonicalOrder(s);
      && (r == s || Inversions(r) < Inversions(s))
      && Inversions(r) <= Inversions(s) && (forall c :: InvertedAfter(c, r) == InvertedAfter(c, s))
  {
    if s != [] {
      var c, t := s[0], CanonicalOrder(s[1..]);
      CanonicalOrderShrinks(s[1..]);
      InsertMarkShrinks(c, t);
      forall x ensures InvertedAfter(x, InsertMark(c, t)) == InvertedAfter(x, s) { InsertMarkAfter(x, c, t); }
      assert s == [c] + s[1..];
    }
  }

  // Nothing to reorder exactly when no neighbours are out of class order.
  lemma {:induction false} CanonicalOrderFixed(s: string)
    ensures CanonicalOrder(s) == s <==> !HasPair(s, OutOfClassOrder)
  {
    if |s| >= 2 {
      var t := CanonicalOrder(s[1..]);
      HasPairTail(s, OutOfClassOrder);
      CanonicalOrderFixed(s[1..]);
      CanonicalOrderShrinks(s[1..]);
      InsertMarkShrinks(s[0], t);
      assert s == [s[0]] + s[1..];
      if CanonicalOrder(s) == s {
        CanonicalOrderUnchanged(s);
      }
    }
  }

  lemma CanonicalOrderUnchanged(s: string)
    requires s != [] && CanonicalOrder(s) == s
    ensures CanonicalOrder(s[1..]) == s[1..]
  {
    var c, t := s[0], CanonicalOrder(s[1..]);
    CanonicalOrderShrinks(s[1..]);
    InsertMarkShrinks(c, t);
    assert ([c] + t)[1..] == t && s == [c] + s[1..];
    assert InvertedAfter(c, t) == InvertedAfter(c, s[1..]);
  }

  lemma {:induction false} TrimShrinks(s: string)
    ensures TrimStart(s) == s || |TrimStart(s)| < |s|
    ensures TrimEnd(s) == s || |TrimEnd(s)| < |s|
    ensures TrimStart(s) == s <==> s == [] || !IsSpace(s[0])
    ensures TrimEnd(s) == s <==> s == [] || !IsSpace(s[|s| - 1])
  {
    if s != [] {
      TrimShrinks(s[1..]);
      TrimShrinks(s[..|s| - 1]);
    }
  }

  // ---- Main results ----

  // The strings no rule applies to.
  ghost predicate Clean(s: string) {
    PairsClean(s) && Settled(s)
  }

  ghost predicate PairsClean(s: string) {
    && !HasPair(s, (x, y) => IsPair(SARA_E, SARA_E, x, y))
    && !HasPair(s, (x, y) => IsPair(NIKHAHIT, SARA_AA, x, y))
    && !HasPair(s, ToneBeforeVowel)
    && !HasPair(s, SaraAmBeforeTone)
  }

  ghost predicate Settled(s: string) {
    && (forall i :: 0 <= i < |s| ==> !IsZeroWidth(s[i]))
    && Nbsps(s) == 0
    && !HasPair(s, OutOfClassOrder)
    && (s != [] ==> !IsSpace(s[0]) && !IsSpace(s[|s| - 1]))
  }

  lemma PairRulesShrink(s: string)
    ensures SameOrSmaller(PairRules(s), s)
    ensures PairRules(s) == s <==> PairsClean(s)
  {
    RulesAreSwappable();
    var a := FoldPairs(s, SARA_E, SARA_E, SARA_AE);
    var b := FoldPairs(a, NIKHAHIT, SARA_AA, SARA_AM);
    var c := SwapPairs(b, ToneBeforeVowel);
    var d := SwapPairs(c, SaraAmBeforeTone);
    FoldShrinks(s, SARA_E, SARA_E, SARA_AE);
    FoldShrinks(a, NIKHAHIT, SARA_AA, SARA_AM);
    SwapShrinks(b, ToneBeforeVowel);
    SwapShrinks(c, SaraAmBeforeTone);
    Compose(b, a, s);
    Compose(c, b, s);
    Compose(d, c, s);
  }

  lemma SettleShrinks(s: string)
    ensures SameOrSmaller(Settle(s), s)
    ensures Settle(s) == s <==> Settled(s)
  {
    var a := StripZeroWidth(s);
    var b := NbspToSpace(a);
    var c := CanonicalOrder(b);
    var d := TrimStart(c);
    var e := TrimEnd(d);
    StripShrinks(s);
    NbspKeepsInversions(a);
    NbspShrinks(a);
    CanonicalOrderShrinks(b);
    CanonicalOrderFixed(b);
    TrimShrinks(c);
    TrimShrinks(d);
    Compose(b, a, s);
    Compose(c, b, s);
    Compose(d, c, s);
    Compose(e, d, s);
  }

  // One pass returns its input or something smaller, so it never lengthens a string; and it returns its
  // input exactly when no rule applies anywhere in it.
  lemma SanitizeShrinks(s: string)
    ensures SameOrSmaller(SanitizeThaiText(s), s)
    ensures |SanitizeThaiText(s)| <= |s|
    ensures SanitizeThaiText(s) == s <==> Clean(s)
  {
    PairRulesShrink(s);
    SettleShrinks(PairRules(s));
    Compose(SanitizeThaiText(s), PairRules(s), s);
  }

  // Sanitising until nothing changes always ends, in a string no rule applies to.
  function SanitizeFully(s: string): (r: string)
    ensures SanitizeThaiText(r) == r && Clean(r) && |r| <= |s|
    decreases |s|, Inversions(s), Nbsps(s)
  {
    SanitizeShrinks(s);
    if SanitizeThaiText(s) == s then s else SanitizeFully(SanitizeThaiText(s))
  }

  // ---- When a second pass changes something ----

  lemma {:induction false} StripLeavesNone(s: string)
    ensures forall c :: c in StripZeroWidth(s) ==> c in s && !IsZeroWidth(c)
  {
    if s != [] { StripLeavesNone(s[1..]); }
  }

  lemma {:induction false} NbspLeavesNone(s: string)
    ensures forall c :: c in NbspToSpace(s) ==> c != NBSP && (c in s || c == ' ')
  {
    if s != [] { NbspLeavesNone(s[1..]); }
  }

  lemma {:induction false} InsertMarkOrdered(c: char, t: string)
    requires !HasPair(t, OutOfClassOrder)
    ensures !HasPair(InsertMark(c, t), OutOfClassOrder)
    ensures forall x :: x in InsertMark(c, t) ==> x == c || x in t
  {
    var r := InsertMark(c, t);
    if t != [] && OutOfClassOrder(c, t[0]) {
      var u := t[1..];
      if |t| >= 2 { HasPairTail(t, OutOfClassOrder); }
      InsertMarkOrdered(c, u);
      assert r[1..] == InsertMark(c, u);
      HasPairTail(r, OutOfClassOrder);
      assert r[1] == c || (u != [] && r[1] == u[0] == t[1]);
      assert |t| >= 2 ==> !OutOfClassOrder(t[0], t[1]);
    } else if t != [] {
      assert r[1..] == t;
      HasPairTail(r, OutOfClassOrder);
    }
  }

  lemma {:induction false} CanonicalOrderOrdered(s: string)
    ensures !HasPair(CanonicalOrder(s), OutOfClassOrder)
    ensures forall x :: x in CanonicalOrder(s) ==> x in s
  {
    if s != [] {
      CanonicalOrderOrdered(s[1..]);
      InsertMarkOrdered(s[0], CanonicalOrder(s[1..]));
    }
  }

  lemma {:induction false} TrimStartCuts(s: string) returns (k: nat)
    ensures k <= |s| && TrimStart(s) == s[k..]
    ensures TrimStart(s) != [] ==> !IsSpace(TrimStart(s)[0])
  {
    k := 0;
    if s != [] && IsSpace(s[0]) {
      var j := TrimStartCuts(s[1..]);
      assert s[1..][j..] == s[j + 1..];
      k := j + 1;
    }
  }

  lemma {:induction false} TrimEndCuts(s: string) returns (k: nat)
    ensures k <= |s| && TrimEnd(s) == s[..k]
    ensures TrimEnd(s) != [] ==> !IsSpace(TrimEnd(s)[|TrimEnd(s)| - 1])
  {
    k := |s|;
    if s != [] && IsSpace(s[|s| - 1]) {
      k := TrimEndCuts(s[..|s| - 1]);
      assert s[..|s| - 1][..k] == s[..k];
    }
  }

  lemma {:induction false} CutKeepsOrder(s: string, i: nat, j: nat, p: (char, char) -> bool)
    requires i <= j <= |s| && !HasPair(s, p)
    ensures !HasPair(s[i..j], p)
  {
    forall k | 0 <= k < j - i - 1 ensures !p(s[i..j][k], s[i..j][k + 1]) {
      assert s[i..j][k] == s[i + k] && s[i..j][k + 1] == s[i + k + 1];
    }
  }

  lemma TrimCuts(s: string) returns (i: nat, j: nat)
    ensures i <= j <= |s| && TrimEnd(TrimStart(s)) == s[i..j]
    ensures i < j ==> !IsSpace(s[i]) && !IsSpace(s[j - 1])
  {
    i := TrimStartCuts(s);
    var k := TrimEndCuts(s[i..]);
    j := i + k;
    assert s[i..][..k] == s[i..j];
  }

  lemma SettledCharacters(s: string)
    ensures forall c :: c in CanonicalOrder(NbspToSpace(StripZeroWidth(s))) ==> !IsZeroWidth(c) && c != NBSP
  {
    StripLeavesNone(s);
    NbspLeavesNone(StripZeroWidth(s));
    CanonicalOrderOrdered(NbspToSpace(StripZeroWidth(s)));
  }

  lemma CutIsSettled(c: string, i: nat, j: nat)
    requires i <= j <= |c| && !HasPair(c, OutOfClassOrder)
    requires forall x :: x in c ==> !IsZeroWidth(x) && x != NBSP
    requires i < j ==> !IsSpace(c[i]) && !IsSpace(c[j - 1])
    ensures Settled(c[i..j])
  {
    CutKeepsOrder(c, i, j, OutOfClassOrder);
    assert forall x :: x in c[i..j] ==> x in c;
    NoNbspHere(c[i..j]);
  }

  // Stripping, spaces, canonical order and trimming are finished after one pass.
  lemma SettleSettles(s: string)
    ensures Settled(Settle(s))
  {
    var c := CanonicalOrder(NbspToSpace(StripZeroWidth(s)));
    SettledCharacters(s);
    CanonicalOrderOrdered(NbspToSpace(StripZeroWidth(s)));
    var i, j := TrimCuts(c);
    CutIsSettled(c, i, j);
  }

  // So a second pass changes something exactly when a pair rule matches again in the first one's result.
  lemma SecondPassIsNoOp(s: string)
    ensures SanitizeThaiText(SanitizeThaiText(s)) == SanitizeThaiText(s) <==> PairsClean(SanitizeThaiText(s))
  {
    SanitizeShrinks(SanitizeThaiText(s));
    SettleSettles(PairRules(s));
  }

  lemma {:induction false} NbspAt(s: string)
    ensures forall i :: 0 <= i < |s| ==> NbspToSpace(s)[i] == if s[i] == NBSP then ' ' else s[i]
  {
    if s != [] { NbspAt(s[1..]); }
  }

  // A zero-width space between two SARA E: it is stripped after the pair rules ran.
  lemma ZeroWidthBreaksIdempotence()
    ensures SanitizeThaiText([SARA_E, '\U{200B}', SARA_E]) == [SARA_E, SARA_E]
    ensures SanitizeThaiText([SARA_E, SARA_E]) == [SARA_AE]
  {
    StripMiddle(SARA_E, '\U{200B}');
    FoldTwo();
  }

  lemma {:induction false} NoNbspHere(s: string)
    requires NBSP !in s
    ensures Nbsps(s) == 0
  {
    if s != [] { NoNbspHere(s[1..]); }
  }

  lemma StripMiddle(e: char, z: char)
    requires e == SARA_E && z == '\U{200B}'
    ensures SanitizeThaiText([e, z, e]) == [e, e]
  {
    ApartIsClean([e, z, e], e, z);
    PairRulesShrink([e, z, e]);
    StripOne(e, z);
    StripShrinks([e, e]);
    TwoSettled([e, e], e);
  }

  lemma ApartIsClean(s: string, e: char, z: char)
    requires e == SARA_E && z == '\U{200B}' && s == [e, z, e]
    ensures PairsClean(s)
  {
    assert forall i :: 0 <= i < |s| - 1 ==> s[i] == z || s[i + 1] == z;
  }

  lemma TwoSettled(s: string, e: char)
    requires e == SARA_E && s == [e, e]
    ensures Settle(s) == s
  {
    NoNbspHere(s);
    assert forall i :: 0 <= i < |s| ==> s[i] == e;
    SettleShrinks(s);
  }

  lemma StripOne(e: char, z: char)
    requires !IsZeroWidth(e) && IsZeroWidth(z)
    ensures StripZeroWidth([e, z, e]) == [e, e]
  {
    var s := [e, z, e];
    assert s[1..] == [z, e] && [z, e][1..] == [e] && [e][1..] == [];
    assert StripZeroWidth([e]) == [e];
    assert StripZeroWidth([z, e]) == [e];
  }

  lemma FoldTwo()
    ensures SanitizeThaiText([SARA_E, SARA_E]) == [SARA_AE]
  {
    var t, u := [SARA_E, SARA_E], [SARA_AE];
    assert t[2..] == [];
    assert FoldPairs(t, SARA_E, SARA_E, SARA_AE) == u;
    assert FoldPairs(u, SARA_E, SARA_E, SARA_AE) == u;
    SanitizeShrinks(u);
  }

  lemma SwapLastOfFour(a: char, b: char, c: char, d: char, p: (char, char) -> bool)
    requires !p(a, b) && !p(b, c) && p(c, d)
    ensures SwapPairs([a, b, c, d], p) == [a, b, d, c]
  {
    assert [c, d][2..] == [] && SwapPairs([c, d], p) == [d, c] + [];
    assert [b, c, d][1..] == [c, d] && SwapPairs([b, c, d], p) == [b] + [d, c];
    assert [a, b, c, d][1..] == [b, c, d];
  }

  lemma SwapMiddleOfFour(a: char, b: char, c: char, d: char, p: (char, char) -> bool)
    requires !p(a, b) && p(b, c)
    ensures SwapPairs([a, b, c, d], p) == [a, c, b, d]
  {
    assert [b, c, d][2..] == [d] && SwapPairs([b, c, d], p) == [c, b] + [d];
    assert [a, b, c, d][1..] == [b, c, d];
  }

  // Two tones before a SARA I, with no invisible character at all: the swap does not rescan, and the
  // vowel has combining class 0, so NFC does not finish the job.
  lemma StackedTonesBreakIdempotence()
    ensures var once := SanitizeThaiText(['\U{0E04}', '\U{0E48}', '\U{0E49}', '\U{0E34}']);
      && once == ['\U{0E04}', '\U{0E48}', '\U{0E34}', '\U{0E49}']
      && SanitizeThaiText(once) == ['\U{0E04}', '\U{0E34}', '\U{0E48}', '\U{0E49}']
  {
    OneSwapThenSettled('\U{0E04}', '\U{0E48}', '\U{0E49}', '\U{0E34}');
  }

  lemma OneSwapThenSettled(k: char, t: char, u: char, v: char)
    requires k == '\U{0E04}' && t == '\U{0E48}' && u == '\U{0E49}' && v == '\U{0E34}'
    ensures SanitizeThaiText([k, t, u, v]) == [k, t, v, u]
    ensures SanitizeThaiText([k, t, v, u]) == [k, v, t, u]
  {
    SwapLastOfFour(k, t, u, v, ToneBeforeVowel);
    SwapMiddleOfFour(k, t, v, u, ToneBeforeVowel);
    TwoTonesSettled([k, t, v, u]);
    TwoTonesSettled([k, v, t, u]);
    OneSwap([k, t, u, v], [k, t, v, u]);
    OneSwap([k, t, v, u], [k, v, t, u]);
  }

  // No class in the string is lower than one before it: only the two tones have a class at all.
  lemma TwoTonesSettled(r: string)
    requires |r| == 4
    requires forall c :: c in r ==> c == '\U{0E04}' || c == '\U{0E48}' || c == '\U{0E49}' || c == '\U{0E34}'
    ensures Settled(r)
  {
    assert forall i :: 0 <= i < |r| ==> r[i] in r;
    NoNbspHere(r);
  }

  lemma OneSwap(s: string, r: string)
    requires SwapPairs(s, ToneBeforeVowel) == r && Settled(r)
    requires SARA_E !in s && NIKHAHIT !in s && SARA_AM !in r
    ensures SanitizeThaiText(s) == r
  {
    NoFoldHere(s);
    NoAmHere(r);
    SettleShrinks(r);
  }

  lemma NoFoldHere(s: string)
    requires SARA_E !in s && NIKHAHIT !in s
    ensures FoldPairs(s, SARA_E, SARA_E, SARA_AE) == s && FoldPairs(s, NIKHAHIT, SARA_AA, SARA_AM) == s
  {
    FoldShrinks(s, SARA_E, SARA_E, SARA_AE);
    FoldShrinks(s, NIKHAHIT, SARA_AA, SARA_AM);
  }

  lemma NoAmHere(s: string)
    requires SARA_AM !in s
    ensures SwapPairs(s, SaraAmBeforeTone) == s
  {
    RulesAreSwappable();
    SwapShrinks(s, SaraAmBeforeTone);
  }
}
