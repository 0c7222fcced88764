// Exactly which strings one pass of the sanitiser finishes, read off the string after its two folds.
module ThaiSecondPass {
  import opened Text
  import opened ThaiSanitizer

  // What the rules see of a character. A tone here is one NFC may move; THANTHAKHAT is not. A low vowel
  // is SARA U or SARA UU, which NFC puts before the tones and after PHINTHU.
  datatype Kind =
    | Tone | Thanthakhat | Vowel | LowVowel | Phinthu | SaraAm | Invisible | SaraE | Nikhahit | SaraAa | Other

  function KindOf(c: char): Kind {
    if '\U{0E48}' <= c <= '\U{0E4B}' then Tone
    else if c == '\U{0E4C}' then Thanthakhat
    else if c == '\U{0E38}' || c == '\U{0E39}' then LowVowel
    else if c == '\U{0E31}' || '\U{0E34}' <= c <= '\U{0E37}' || c == '\U{0E47}' then Vowel
    else if c == '\U{0E3A}' then Phinthu
    else if c == SARA_AM then SaraAm
    else if c == SARA_E then SaraE
    else if c == NIKHAHIT then Nikhahit
    else if c == SARA_AA then SaraAa
    else if IsZeroWidth(c) then Invisible
    else Other
  }

  function Kinds(s: string): (k: seq<Kind>)
    ensures |k| == |s|
  {
    if s == [] then [] else [KindOf(s[0])] + Kinds(s[1..])
  }

  // ---- The condition ----

  predicate Marks(k: Kind) { k == Tone || k == Thanthakhat }
  predicate Takes(k: Kind) { k == Vowel || k == LowVowel }

  // The first kind of `f`, or Other at its end.
  function At(f: seq<Kind>, i: nat): Kind {
    if i < |f| then f[i] else Other
  }

  // Whether a tone left before `f` will stand before a vowel: only what NFC moves ahead of it, or what is
  // invisible, lies between.
  predicate VowelNext(f: seq<Kind>) {
    match At(f, 0)
    case LowVowel => VowelNext(f[1..])
    case Phinthu => VowelNext(f[1..])
    case Invisible => VowelNext(f[1..])
    case Vowel => true
    case Tone => At(f, 1) == Vowel
    case Thanthakhat => At(f, 1) == Vowel
    case _ => false
  }

  // Which kind will stand first once the marks of `f` have settled.
  function Settles(f: seq<Kind>): Kind {
    match At(f, 0)
    case Invisible => Settles(f[1..])
    case Tone =>
      if At(f, 1) == Vowel then Vowel
      else if At(f, 1) == LowVowel then (if Settles(f[2..]) == Phinthu then Phinthu else LowVowel)
      else if Settles(f[1..]) == LowVowel || Settles(f[1..]) == Phinthu then Settles(f[1..])
      else Tone
    case Thanthakhat => if Takes(At(f, 1)) then f[1] else Thanthakhat
    case LowVowel => if Settles(f[1..]) == Phinthu then Phinthu else LowVowel
    case SaraAm => if At(f, 1) == Tone && !Takes(At(f, 2)) then Tone else SaraAm
    case other => other
  }

  // A mark at the head of `f` that one pass leaves in front of what it should follow. A tone right
  // behind SARA AM moves out of the way.
  predicate StuckAt(afterAm: bool, f: seq<Kind>) {
    match At(f, 0)
    case Tone => if Takes(At(f, 1)) then VowelNext(f[2..]) else !afterAm && VowelNext(f[1..])
    case Thanthakhat => Takes(Settles(if Takes(At(f, 1)) then f[2..] else f[1..]))
    case SaraAm => Settles(if At(f, 1) == Tone && !Takes(At(f, 2)) then f[2..] else f[1..]) == Tone
    case SaraE => Settles(f[1..]) == SaraE
    case Nikhahit => Settles(f[1..]) == SaraAa
    case _ => false
  }

  predicate Stuck(afterAm: bool, f: seq<Kind>)
    decreases |f|
  {
    f != [] && (StuckAt(afterAm, f) || Stuck(f[0] == SaraAm, f[1..]))
  }

  function Folded(s: string): string {
    FoldPairs(FoldPairs(s, SARA_E, SARA_E, SARA_AE), NIKHAHIT, SARA_AA, SARA_AM)
  }

  // ---- The rules on kinds ----

  predicate TonePair(a: Kind, b: Kind) { Marks(a) && Takes(b) }
  predicate AmPair(a: Kind, b: Kind) { a == SaraAm && b == Tone }

  predicate AnyPair(a: Kind, b: Kind) {
    TonePair(a, b) || AmPair(a, b) || (a == SaraE && b == SaraE) || (a == Nikhahit && b == SaraAa)
  }

  function SwapTones(f: seq<Kind>): seq<Kind> {
    if |f| < 2 then f
    else if TonePair(f[0], f[1]) then [f[1], f[0]] + SwapTones(f[2..])
    else [f[0]] + SwapTones(f[1..])
  }

  function SwapAms(f: seq<Kind>): seq<Kind> {
    if |f| < 2 then f
    else if AmPair(f[0], f[1]) then [f[1], f[0]] + SwapAms(f[2..])
    else [f[0]] + SwapAms(f[1..])
  }

  // Strip, then canonical order.
  function Ordered(f: seq<Kind>): seq<Kind> {
    if f == [] then []
    else if f[0] == Invisible then Ordered(f[1..])
    else Put(f[0], Ordered(f[1..]))
  }

  predicate Behind(a: Kind, b: Kind) {
    (a == Tone && (b == LowVowel || b == Phinthu)) || (a == LowVowel && b == Phinthu)
  }

  function Put(k: Kind, f: seq<Kind>): seq<Kind> {
    if f != [] && Behind(k, f[0]) then [f[0]] + Put(k, f[1..]) else [k] + f
  }

  predicate Rematches(f: seq<Kind>) {
    |f| >= 2 && (AnyPair(f[0], f[1]) || Rematches(f[1..]))
  }

  // ---- Level one: strip and order ----

  // The first kind after stripping and ordering.
  function First(f: seq<Kind>): Kind {
    match At(f, 0)
    case Invisible => First(f[1..])
    case Tone => if First(f[1..]) == LowVowel || First(f[1..]) == Phinthu then First(f[1..]) else Tone
    case LowVowel => if First(f[1..]) == Phinthu then Phinthu else LowVowel
    case other => other
  }

  lemma {:induction false} FirstIs(f: seq<Kind>)
    ensures First(f) == At(Ordered(f), 0)
  {
    if f != [] { FirstIs(f[1..]); }
  }

  // The first kind past the low vowels and PHINTHU is a vowel.
  predicate VowelAfterLow(f: seq<Kind>) {
    f != [] && (f[0] == Vowel || ((f[0] == LowVowel || f[0] == Phinthu) && VowelAfterLow(f[1..])))
  }

  lemma {:induction false} PutTone(f: seq<Kind>)
    ensures Rematches(Put(Tone, f)) <==> Rematches(f) || VowelAfterLow(f)
    ensures !VowelAfterLow(Put(Tone, f))
  {
    if f != [] && Behind(Tone, f[0]) {
      PutTone(f[1..]);
      PutFirst(Tone, f[1..]);
      var r := Put(Tone, f);
      assert r[1..] == Put(Tone, f[1..]);
    } else {
      assert ([Tone] + f)[1..] == f;
    }
  }

  lemma PutFirst(k: Kind, f: seq<Kind>)
    ensures Put(k, f) != [] && (Put(k, f)[0] == k || (f != [] && Put(k, f)[0] == f[0]))
  {
  }

  lemma {:induction false} PutLow(f: seq<Kind>)
    ensures Rematches(Put(LowVowel, f)) <==> Rematches(f)
    ensures VowelAfterLow(Put(LowVowel, f)) <==> VowelAfterLow(f)
  {
    if f != [] && Behind(LowVowel, f[0]) {
      PutLow(f[1..]);
      PutFirst(LowVowel, f[1..]);
      assert Put(LowVowel, f)[1..] == Put(LowVowel, f[1..]);
    } else {
      assert ([LowVowel] + f)[1..] == f;
    }
  }

  lemma PutOther(k: Kind, f: seq<Kind>)
    requires k != Tone && k != LowVowel
    ensures Put(k, f) == [k] + f
    ensures Rematches([k] + f) <==> Rematches(f) || (f != [] && AnyPair(k, f[0]))
    ensures VowelAfterLow([k] + f) <==> k == Vowel || (k == Phinthu && VowelAfterLow(f))
  {
    assert ([k] + f)[1..] == f;
  }

  predicate VowelLater(f: seq<Kind>) {
    match At(f, 0)
    case LowVowel => VowelLater(f[1..])
    case Phinthu => VowelLater(f[1..])
    case Invisible => VowelLater(f[1..])
    case Vowel => true
    case _ => false
  }

  lemma {:induction false} VowelLaterIs(f: seq<Kind>)
    ensures VowelLater(f) <==> VowelAfterLow(Ordered(f))
  {
    if f != [] {
      VowelLaterIs(f[1..]);
      var t := Ordered(f[1..]);
      if f[0] == Tone { PutTone(t); }
      else if f[0] == LowVowel { PutLow(t); }
      else if f[0] != Invisible { PutOther(f[0], t); }
    }
  }

  predicate HitsAt(f: seq<Kind>) {
    match At(f, 0)
    case Tone => VowelLater(f[1..])
    case Thanthakhat => Takes(First(f[1..]))
    case SaraAm => First(f[1..]) == Tone
    case SaraE => First(f[1..]) == SaraE
    case Nikhahit => First(f[1..]) == SaraAa
    case _ => false
  }

  predicate Hits(f: seq<Kind>) {
    f != [] && (HitsAt(f) || Hits(f[1..]))
  }

  lemma {:induction false} HitsIs(f: seq<Kind>)
    ensures Hits(f) <==> Rematches(Ordered(f))
  {
    if f != [] {
      HitsIs(f[1..]);
      var t := Ordered(f[1..]);
      if f[0] == Tone { PutTone(t); VowelLaterIs(f[1..]); }
      else if f[0] == LowVowel { PutLow(t); }
      else if f[0] != Invisible { PutOther(f[0], t); FirstIs(f[1..]); }
    }
  }

  // ---- Level two: SARA AM and tones ----

  function FirstAm(f: seq<Kind>): Kind {
    match At(f, 0)
    case Invisible => FirstAm(f[1..])
    case Tone => if FirstAm(f[1..]) == LowVowel || FirstAm(f[1..]) == Phinthu then FirstAm(f[1..]) else Tone
    case LowVowel => if FirstAm(f[1..]) == Phinthu then Phinthu else LowVowel
    case SaraAm => if At(f, 1) == Tone then Tone else SaraAm
    case other => other
  }

  predicate AmHitsAt(afterAm: bool, f: seq<Kind>) {
    match At(f, 0)
    case Tone => !afterAm && VowelLater(f[1..])
    case Thanthakhat => Takes(FirstAm(f[1..]))
    case SaraAm => FirstAm(if At(f, 1) == Tone then f[2..] else f[1..]) == Tone
    case SaraE => FirstAm(f[1..]) == SaraE
    case Nikhahit => FirstAm(f[1..]) == SaraAa
    case _ => false
  }

  predicate AmHits(afterAm: bool, f: seq<Kind>)
    decreases |f|
  {
    f != [] && (AmHitsAt(afterAm, f) || AmHits(f[0] == SaraAm, f[1..]))
  }

  lemma SwapAmsSteps(f: seq<Kind>)
    ensures |f| >= 2 && AmPair(f[0], f[1]) ==> SwapAms(f) == [Tone, SaraAm] + SwapAms(f[2..])
    ensures f != [] && !(|f| >= 2 && AmPair(f[0], f[1])) ==> SwapAms(f) == [f[0]] + SwapAms(f[1..])
  {
  }

  lemma {:induction false} FirstAmIs(f: seq<Kind>)
    ensures FirstAm(f) == First(SwapAms(f))
  {
    SwapAmsSteps(f);
    if f != [] {
      if |f| >= 2 && AmPair(f[0], f[1]) {
        assert SwapAms(f)[1..][0] == SaraAm;
      } else {
        FirstAmIs(f[1..]);
        assert SwapAms(f)[1..] == SwapAms(f[1..]);
      }
    }
  }

  lemma {:induction false} VowelLaterThroughAms(f: seq<Kind>)
    ensures VowelLater(SwapAms(f)) <==> VowelLater(f)
  {
    SwapAmsSteps(f);
    if f != [] && !(|f| >= 2 && AmPair(f[0], f[1])) {
      VowelLaterThroughAms(f[1..]);
      assert SwapAms(f)[1..] == SwapAms(f[1..]);
    }
  }

  lemma {:induction false} AmHitsIs(afterAm: bool, f: seq<Kind>)
    requires !(afterAm && At(f, 0) == Tone)
    ensures AmHits(afterAm, f) <==> Hits(SwapAms(f))
    decreases |f|
  {
    SwapAmsSteps(f);
    if |f| >= 2 && AmPair(f[0], f[1]) {
      AmHitsSwapped(afterAm, f);
      AmHitsIs(false, f[2..]);
    } else if f != [] {
      AmHitsIs(f[0] == SaraAm, f[1..]);
      assert SwapAms(f)[1..] == SwapAms(f[1..]);
      AmHitsUnswapped(afterAm, f);
    }
  }

  lemma AmHitsSwapped(afterAm: bool, f: seq<Kind>)
    requires |f| >= 2 && AmPair(f[0], f[1])
    ensures AmHits(afterAm, f) <==> First(SwapAms(f[2..])) == Tone || AmHits(false, f[2..])
    ensures Hits(SwapAms(f)) <==> First(SwapAms(f[2..])) == Tone || Hits(SwapAms(f[2..]))
  {
    var rest := SwapAms(f[2..]);
    SwapAmsSteps(f);
    assert f[1..][1..] == f[2..];
    FirstAmIs(f[2..]);
    assert SwapAms(f)[1..] == [SaraAm] + rest && ([SaraAm] + rest)[1..] == rest;
  }

  lemma AmHitsUnswapped(afterAm: bool, f: seq<Kind>)
    requires f != [] && !(|f| >= 2 && AmPair(f[0], f[1])) && !(afterAm && f[0] == Tone)
    ensures AmHitsAt(afterAm, f) <==> HitsAt([f[0]] + SwapAms(f[1..]))
  {
    var g := [f[0]] + SwapAms(f[1..]);
    assert g[1..] == SwapAms(f[1..]);
    FirstAmIs(f[1..]);
    VowelLaterThroughAms(f[1..]);
  }

  // ---- Level three: tones and vowels ----

  lemma SwapTonesSteps(f: seq<Kind>)
    ensures |f| >= 2 && TonePair(f[0], f[1]) ==> SwapTones(f) == [f[1], f[0]] + SwapTones(f[2..])
    ensures f != [] && !(|f| >= 2 && TonePair(f[0], f[1])) ==> SwapTones(f) == [f[0]] + SwapTones(f[1..])
    ensures At(SwapTones(f), 0) == Tone <==> At(f, 0) == Tone && !Takes(At(f, 1))
  {
  }

  lemma {:induction false} VowelNextIs(f: seq<Kind>)
    ensures VowelNext(f) <==> VowelLater(SwapTones(f))
  {
    SwapTonesSteps(f);
    if f != [] {
      if |f| >= 2 && TonePair(f[0], f[1]) {
        assert SwapTones(f)[1..] == [f[0]] + SwapTones(f[2..]);
      } else {
        VowelNextIs(f[1..]);
        assert SwapTones(f)[1..] == SwapTones(f[1..]);
      }
    }
  }

  lemma {:induction false} SettlesIs(f: seq<Kind>)
    ensures Settles(f) == FirstAm(SwapTones(f))
  {
    SwapTonesSteps(f);
    if f != [] {
      if |f| >= 2 && TonePair(f[0], f[1]) {
        SettlesIs(f[2..]);
        var rest := SwapTones(f[2..]);
        assert SwapTones(f)[1..] == [f[0]] + rest && ([f[0]] + rest)[1..] == rest;
      } else {
        SettlesIs(f[1..]);
        SwapTonesSteps(f[1..]);
        assert SwapTones(f)[1..] == SwapTones(f[1..]);
      }
    }
  }

  lemma {:induction false} StuckIs(afterAm: bool, f: seq<Kind>)
    ensures Stuck(afterAm, f) <==> AmHits(afterAm, SwapTones(f))
    decreases |f|
  {
    SwapTonesSteps(f);
    if |f| >= 2 && TonePair(f[0], f[1]) {
      StuckSwapped(afterAm, f);
      StuckIs(false, f[2..]);
    } else if f != [] {
      StuckIs(f[0] == SaraAm, f[1..]);
      assert SwapTones(f)[1..] == SwapTones(f[1..]);
      StuckUnswapped(afterAm, f);
    }
  }

  lemma StuckSwapped(afterAm: bool, f: seq<Kind>)
    requires |f| >= 2 && TonePair(f[0], f[1])
    ensures Stuck(afterAm, f) <==> StuckAt(afterAm, f) || Stuck(false, f[2..])
    ensures AmHits(afterAm, SwapTones(f)) <==> StuckAt(afterAm, f) || AmHits(false, SwapTones(f[2..]))
  {
    var rest := SwapTones(f[2..]);
    assert f[1..][1..] == f[2..];
    SwapTonesSteps(f);
    assert SwapTones(f)[1..] == [f[0]] + rest && ([f[0]] + rest)[1..] == rest;
    VowelNextIs(f[2..]);
    SettlesIs(f[2..]);
  }

  lemma StuckUnswapped(afterAm: bool, f: seq<Kind>)
    requires f != [] && !(|f| >= 2 && TonePair(f[0], f[1]))
    ensures StuckAt(afterAm, f) <==> AmHitsAt(afterAm, [f[0]] + SwapTones(f[1..]))
  {
    var r := f[1..];
    var g := [f[0]] + SwapTones(r);
    assert g[1..] == SwapTones(r);
    VowelNextIs(r);
    SettlesIs(r);
    SwapTonesSteps(r);
    if f[0] == SaraAm && At(f, 1) == Tone && !Takes(At(f, 2)) {
      assert r[1..] == f[2..] && g[2..] == SwapTones(f[2..]);
      SettlesIs(f[2..]);
    }
  }

  // ---- From characters to kinds ----

  lemma KindsOfTones(a: char, b: char)
    ensures ToneBeforeVowel(a, b) <==> TonePair(KindOf(a), KindOf(b))
  {
  }

  lemma KindsOfAms(a: char, b: char)
    ensures SaraAmBeforeTone(a, b) <==> AmPair(KindOf(a), KindOf(b))
  {
  }

  lemma KindsOfOrder(a: char, b: char)
    ensures OutOfClassOrder(a, b) <==> Behind(KindOf(a), KindOf(b))
  {
  }

  lemma KindsOfLetters(a: char)
    ensures a == SARA_E <==> KindOf(a) == SaraE
    ensures a == NIKHAHIT <==> KindOf(a) == Nikhahit
    ensures a == SARA_AA <==> KindOf(a) == SaraAa
    ensures IsZeroWidth(a) <==> KindOf(a) == Invisible
    ensures IsSpace(a) ==> KindOf(a) == Other || KindOf(a) == Invisible
  {
  }

  lemma KindsStep(s: string)
    requires s != []
    ensures Kinds(s) == [KindOf(s[0])] + Kinds(s[1..]) && Kinds(s)[0] == KindOf(s[0]) && Kinds(s)[1..] == Kinds(s[1..])
    ensures |s| >= 2 ==> Kinds(s)[1] == KindOf(s[1]) && Kinds(s)[2..] == Kinds(s[2..])
  {
    if |s| >= 2 {
      assert s[1..][1..] == s[2..];
      assert Kinds(s[1..]) == [KindOf(s[1])] + Kinds(s[2..]);
    }
  }

  lemma {:induction false} KindsOfSwapTones(s: string)
    ensures Kinds(SwapPairs(s, ToneBeforeVowel)) == SwapTones(Kinds(s))
  {
    if |s| >= 2 {
      KindsStep(s);
      KindsOfTones(s[0], s[1]);
      KindsOfSwapTones(s[1..]);
      KindsOfSwapTones(s[2..]);
      var r := SwapPairs(s, ToneBeforeVowel);
      KindsStep(r);
      if ToneBeforeVowel(s[0], s[1]) {
        assert r[2..] == SwapPairs(s[2..], ToneBeforeVowel);
        assert Kinds(r) == [KindOf(s[1]), KindOf(s[0])] + Kinds(r[2..]);
      } else {
        assert r[1..] == SwapPairs(s[1..], ToneBeforeVowel);
      }
    }
  }

  lemma {:induction false} KindsOfSwapAms(s: string)
    ensures Kinds(SwapPairs(s, SaraAmBeforeTone)) == SwapAms(Kinds(s))
  {
    if |s| >= 2 {
      KindsStep(s);
      KindsOfAms(s[0], s[1]);
      KindsOfSwapAms(s[1..]);
      KindsOfSwapAms(s[2..]);
      var r := SwapPairs(s, SaraAmBeforeTone);
      KindsStep(r);
      if SaraAmBeforeTone(s[0], s[1]) {
        assert r[2..] == SwapPairs(s[2..], SaraAmBeforeTone);
        assert Kinds(r) == [KindOf(s[1]), KindOf(s[0])] + Kinds(r[2..]);
      } else {
        assert r[1..] == SwapPairs(s[1..], SaraAmBeforeTone);
      }
    }
  }

  lemma {:induction false} KindsOfPut(c: char, t: string)
    ensures Kinds(InsertMark(c, t)) == Put(KindOf(c), Kinds(t))
  {
    var r := InsertMark(c, t);
    KindsStep(r);
    if t != [] {
      KindsStep(t);
      KindsOfOrder(c, t[0]);
      if OutOfClassOrder(c, t[0]) {
        KindsOfPut(c, t[1..]);
        assert r[1..] == InsertMark(c, t[1..]);
      } else {
        assert r[1..] == t;
      }
    }
  }

  lemma {:induction false} KindsOfOrdered(s: string)
    ensures Kinds(CanonicalOrder(NbspToSpace(StripZeroWidth(s)))) == Ordered(Kinds(s))
  {
    if s != [] {
      KindsStep(s);
      KindsOfLetters(s[0]);
      KindsOfOrdered(s[1..]);
      if !IsZeroWidth(s[0]) {
        var c := if s[0] == NBSP then ' ' else s[0];
        var t := StripZeroWidth(s[1..]);
        assert ([s[0]] + t)[1..] == t;
        assert NbspToSpace([s[0]] + t) == [c] + NbspToSpace(t);
        assert ([c] + NbspToSpace(t))[1..] == NbspToSpace(t);
        KindsOfPut(c, CanonicalOrder(NbspToSpace(t)));
      }
    }
  }

  lemma KindsOfAnyPair(a: char, b: char)
    ensures AnyPair(KindOf(a), KindOf(b)) <==>
      IsPair(SARA_E, SARA_E, a, b) || IsPair(NIKHAHIT, SARA_AA, a, b) || ToneBeforeVowel(a, b) || SaraAmBeforeTone(a, b)
  {
    KindsOfTones(a, b);
    KindsOfAms(a, b);
    KindsOfLetters(a);
    KindsOfLetters(b);
  }

  lemma {:induction false} RematchesIs(s: string)
    ensures PairsClean(s) <==> !Rematches(Kinds(s))
  {
    if |s| >= 2 {
      KindsStep(s);
      RematchesIs(s[1..]);
      KindsOfAnyPair(s[0], s[1]);
      PairsCleanTail(s);
    }
  }

  lemma PairsCleanTail(s: string)
    requires |s| >= 2
    ensures PairsClean(s) <==>
      && PairsClean(s[1..])
      && !IsPair(SARA_E, SARA_E, s[0], s[1]) && !IsPair(NIKHAHIT, SARA_AA, s[0], s[1])
      && !ToneBeforeVowel(s[0], s[1]) && !SaraAmBeforeTone(s[0], s[1])
  {
    HasPairTail(s, (x, y) => IsPair(SARA_E, SARA_E, x, y));
    HasPairTail(s, (x, y) => IsPair(NIKHAHIT, SARA_AA, x, y));
    HasPairTail(s, ToneBeforeVowel);
    HasPairTail(s, SaraAmBeforeTone);
  }

  lemma {:induction false} TrimStartKeeps(s: string)
    ensures Rematches(Kinds(TrimStart(s))) <==> Rematches(Kinds(s))
  {
    if s != [] && IsSpace(s[0]) {
      KindsStep(s);
      KindsOfLetters(s[0]);
      TrimStartKeeps(s[1..]);
    }
  }

  lemma {:induction false} LastOtherKeeps(f: seq<Kind>, k: Kind)
    requires k == Other || k == Invisible
    ensures Rematches(f + [k]) <==> Rematches(f)
  {
    if f != [] {
      LastOtherKeeps(f[1..], k);
      assert (f + [k])[1..] == f[1..] + [k];
    }
  }

  lemma {:induction false} KindsAppend(s: string, c: char)
    ensures Kinds(s + [c]) == Kinds(s) + [KindOf(c)]
  {
    if s != [] {
      KindsAppend(s[1..], c);
      assert (s + [c])[1..] == s[1..] + [c];
    }
  }

  lemma {:induction false} TrimEndKeeps(s: string)
    ensures Rematches(Kinds(TrimEnd(s))) <==> Rematches(Kinds(s))
  {
    if s != [] && IsSpace(s[|s| - 1]) {
      var t := s[..|s| - 1];
      TrimEndKeeps(t);
      KindsAppend(t, s[|s| - 1]);
      assert s == t + [s[|s| - 1]];
      KindsOfLetters(s[|s| - 1]);
      LastOtherKeeps(Kinds(t), KindOf(s[|s| - 1]));
    }
  }

  // ---- Main results ----

  lemma ResultRematches(s: string)
    ensures Rematches(Kinds(SanitizeThaiText(s))) <==> Stuck(false, Kinds(Folded(s)))
  {
    var f := Folded(s);
    var g := SwapPairs(f, ToneBeforeVowel);
    var h := SwapPairs(g, SaraAmBeforeTone);
    var c := CanonicalOrder(NbspToSpace(StripZeroWidth(h)));
    TrimStartKeeps(c);
    TrimEndKeeps(TrimStart(c));
    KindsOfOrdered(h);
    KindsOfSwapAms(g);
    KindsOfSwapTones(f);
    HitsIs(Kinds(h));
    AmHitsIs(false, Kinds(g));
    StuckIs(false, Kinds(f));
  }

  // For every string: one pass is final exactly when, after the two folds, no mark is stuck.
  lemma OnePassIsFinalExactly(s: string)
    ensures SanitizeThaiText(SanitizeThaiText(s)) == SanitizeThaiText(s) <==> !Stuck(false, Kinds(Folded(s)))
  {
    SecondPassIsNoOp(s);
    RematchesIs(SanitizeThaiText(s));
    ResultRematches(s);
  }

  // ---- Two families read off it ----

  lemma {:induction false} FoldLeavesNone(s: string, a: char, b: char, c: char)
    requires c != a && c != b
    ensures !HasPair(FoldPairs(s, a, b, c), (x, y) => IsPair(a, b, x, y))
    ensures FoldPairs(s, a, b, c) != [] ==> s != [] && (FoldPairs(s, a, b, c)[0] == c || FoldPairs(s, a, b, c)[0] == s[0])
  {
    var p := (x, y) => IsPair(a, b, x, y);
    if |s| >= 2 {
      var r := FoldPairs(s, a, b, c);
      var t := if s[0] == a && s[1] == b then s[2..] else s[1..];
      FoldLeavesNone(t, a, b, c);
      assert r[1..] == FoldPairs(t, a, b, c);
      if |r| >= 2 { HasPairTail(r, p); }
    }
  }

  // Folding another pair creates no `x x`, for a letter the fold neither reads nor writes.
  lemma {:induction false} FoldKeepsApart(s: string, a: char, b: char, c: char, x: char)
    requires x != a && x != b && x != c
    requires !HasPair(s, (u, v) => IsPair(x, x, u, v))
    ensures !HasPair(FoldPairs(s, a, b, c), (u, v) => IsPair(x, x, u, v))
    ensures FoldPairs(s, a, b, c) != [] && FoldPairs(s, a, b, c)[0] == x ==> s != [] && s[0] == x
  {
    var p := (u, v) => IsPair(x, x, u, v);
    if |s| >= 2 {
      HasPairTail(s, p);
      var r := FoldPairs(s, a, b, c);
      var t := if s[0] == a && s[1] == b then s[2..] else s[1..];
      if |s[1..]| >= 2 { HasPairTail(s[1..], p); }
      assert s[1..][1..] == s[2..];
      FoldKeepsApart(t, a, b, c, x);
      assert r[1..] == FoldPairs(t, a, b, c);
      if |r| >= 2 { HasPairTail(r, p); }
    }
  }

  lemma FoldedIsFolded(s: string)
    ensures !HasPair(Folded(s), (x, y) => IsPair(SARA_E, SARA_E, x, y))
    ensures !HasPair(Folded(s), (x, y) => IsPair(NIKHAHIT, SARA_AA, x, y))
  {
    FoldLeavesNone(s, SARA_E, SARA_E, SARA_AE);
    FoldKeepsApart(FoldPairs(s, SARA_E, SARA_E, SARA_AE), NIKHAHIT, SARA_AA, SARA_AM, SARA_E);
    FoldLeavesNone(FoldPairs(s, SARA_E, SARA_E, SARA_AE), NIKHAHIT, SARA_AA, SARA_AM);
  }

  // No two tones side by side, no two vowel marks, no two SARA AM, no tone-vowel-tone-vowel, no SARA AM,
  // tone, SARA AM, tone; nothing invisible and no PHINTHU.
  predicate Spread(f: seq<Kind>) {
    && (forall i :: 0 <= i < |f| ==> f[i] != Invisible && f[i] != Phinthu)
    && (forall i :: 0 <= i < |f| - 1 ==> !CrowdedPair(f[i], f[i + 1]))
    && (forall i :: 0 <= i < |f| - 3 ==> !CrowdedFour(f[i], f[i + 1], f[i + 2], f[i + 3]))
  }

  predicate CrowdedPair(a: Kind, b: Kind) {
    (Marks(a) && Marks(b)) || (Takes(a) && Takes(b)) || (a == SaraAm && b == SaraAm)
  }

  predicate CrowdedFour(a: Kind, b: Kind, c: Kind, d: Kind) {
    (Marks(a) && Takes(b) && Marks(c) && Takes(d)) || (a == SaraAm && b == Tone && c == SaraAm && d == Tone)
  }

  // What the folds leave no pair of.
  predicate LettersFolded(f: seq<Kind>) {
    forall i :: 0 <= i < |f| - 1 ==> !FoldsInto(f[i], f[i + 1])
  }

  predicate FoldsInto(a: Kind, b: Kind) {
    (a == SaraE && b == SaraE) || (a == Nikhahit && b == SaraAa)
  }

  lemma {:induction false} KindsAt(s: string, i: nat)
    requires i < |s|
    ensures Kinds(s)[i] == KindOf(s[i])
  {
    if i > 0 { KindsAt(s[1..], i - 1); }
  }

  lemma FoldedLetters(s: string)
    ensures LettersFolded(Kinds(Folded(s)))
  {
    var t := Folded(s);
    FoldedIsFolded(s);
    forall i | 0 <= i < |t| - 1 ensures !FoldsInto(Kinds(t)[i], Kinds(t)[i + 1]) {
      KindsAt(t, i);
      KindsAt(t, i + 1);
      KindsOfLetters(t[i]);
      KindsOfLetters(t[i + 1]);
      assert !IsPair(SARA_E, SARA_E, t[i], t[i + 1]) && !IsPair(NIKHAHIT, SARA_AA, t[i], t[i + 1]);
    }
  }

  lemma SpreadTail(f: seq<Kind>)
    requires Spread(f) && LettersFolded(f) && f != []
    ensures Spread(f[1..]) && LettersFolded(f[1..])
  {
    var t := f[1..];
    forall i | 0 <= i < |t| - 1 ensures !FoldsInto(t[i], t[i + 1]) {
      assert !FoldsInto(f[i + 1], f[i + 2]);
    }
    forall i | 0 <= i < |t| - 1 ensures !CrowdedPair(t[i], t[i + 1]) {
      assert !CrowdedPair(f[i + 1], f[i + 2]);
    }
    forall i | 0 <= i < |t| - 3 ensures !CrowdedFour(t[i], t[i + 1], t[i + 2], t[i + 3]) {
      assert !CrowdedFour(f[i + 1], f[i + 2], f[i + 3], f[i + 4]);
    }
  }

  lemma SpreadHead(f: seq<Kind>)
    requires Spread(f) && LettersFolded(f)
    ensures Takes(Settles(f)) ==> Takes(At(f, 0)) || (Marks(At(f, 0)) && Takes(At(f, 1)))
    ensures VowelNext(f) ==> Takes(At(f, 0)) || (Marks(At(f, 0)) && Takes(At(f, 1)))
    ensures Settles(f) == Tone ==> (At(f, 0) == Tone && !Takes(At(f, 1))) || (At(f, 0) == SaraAm && At(f, 1) == Tone)
    ensures Settles(f) == SaraE ==> At(f, 0) == SaraE
    ensures Settles(f) == SaraAa ==> At(f, 0) == SaraAa
  {
    if |f| >= 2 { assert !CrowdedPair(f[0], f[1]); }
    if f != [] && At(f, 0) == Tone && !Takes(At(f, 1)) {
      SpreadTail(f);
      SpreadHead(f[1..]);
    }
  }

  lemma LetterNotStuckAt(afterAm: bool, f: seq<Kind>)
    requires Spread(f) && LettersFolded(f) && f != [] && (f[0] == SaraE || f[0] == Nikhahit)
    ensures !StuckAt(afterAm, f)
  {
    SpreadTail(f);
    SpreadHead(f[1..]);
    if |f| >= 2 { assert !FoldsInto(f[0], f[1]); }
  }

  lemma MarkNotStuckAt(afterAm: bool, f: seq<Kind>)
    requires Spread(f) && LettersFolded(f) && f != [] && (Marks(f[0]) || f[0] == SaraAm)
    ensures !StuckAt(afterAm, f)
  {
    SpreadTail(f);
    SpreadHead(f[1..]);
    if |f| >= 2 {
      assert !CrowdedPair(f[0], f[1]);
      SpreadTail(f[1..]);
      assert f[1..][1..] == f[2..];
      SpreadHead(f[2..]);
    }
    if |f| >= 3 { assert !CrowdedPair(f[1], f[2]); }
    if |f| >= 4 { assert !CrowdedFour(f[0], f[1], f[2], f[3]); }
  }

  lemma SpreadNotStuckAt(afterAm: bool, f: seq<Kind>)
    requires Spread(f) && LettersFolded(f) && f != []
    ensures !StuckAt(afterAm, f)
  {
    if f[0] == SaraE || f[0] == Nikhahit { LetterNotStuckAt(afterAm, f); }
    else if Marks(f[0]) || f[0] == SaraAm { MarkNotStuckAt(afterAm, f); }
  }

  lemma {:induction false} SpreadNotStuck(afterAm: bool, f: seq<Kind>)
    requires Spread(f) && LettersFolded(f)
    ensures !Stuck(afterAm, f)
    decreases |f|
  {
    if f != [] {
      SpreadNotStuckAt(afterAm, f);
      SpreadTail(f);
      SpreadNotStuck(f[0] == SaraAm, f[1..]);
    }
  }

  // Text with its marks spread like that is finished in one pass, however many of them are misplaced.
  lemma SpreadMarksNeedOnePass(s: string)
    requires Spread(Kinds(Folded(s)))
    ensures SanitizeThaiText(SanitizeThaiText(s)) == SanitizeThaiText(s)
  {
    FoldedLetters(s);
    SpreadNotStuck(false, Kinds(Folded(s)));
    OnePassIsFinalExactly(s);
  }

  lemma {:induction false} StuckInside(before: seq<Kind>, f: seq<Kind>, afterAm: bool)
    requires Stuck(if before == [] then afterAm else before[|before| - 1] == SaraAm, f)
    ensures Stuck(afterAm, before + f)
    decreases |before|
  {
    if before == [] {
      assert before + f == f;
    } else {
      assert (before + f)[1..] == before[1..] + f;
      StuckInside(before[1..], f, before[0] == SaraAm);
    }
  }

  // And crowds that stick wherever they stand: two tones before a vowel, a tone before two vowels
  // (neither right behind SARA AM), a SARA AM before two tones and something that is not a mark.
  lemma CrowdsStick(before: seq<Kind>, after: seq<Kind>)
    ensures before == [] || before[|before| - 1] != SaraAm ==>
      Stuck(false, before + ([Tone, Tone, Vowel] + after)) && Stuck(false, before + ([Tone, Vowel, Vowel] + after))
    ensures Stuck(false, before + ([SaraAm, Tone, Tone, Other] + after))
  {
    var f, g, h := [Tone, Tone, Vowel] + after, [Tone, Vowel, Vowel] + after, [SaraAm, Tone, Tone, Other] + after;
    if before == [] || before[|before| - 1] != SaraAm {
      assert f[1..][0] == Tone && f[1..][1] == Vowel && StuckAt(false, f);
      assert g[2..][0] == Vowel && StuckAt(false, g);
      StuckInside(before, f, false);
      StuckInside(before, g, false);
    }
    assert h[2..][0] == Tone && h[2..][1..][0] == Other;
    assert StuckAt(before != [] && before[|before| - 1] == SaraAm, h);
    StuckInside(before, h, false);
  }
}
