// The literal-search escaper of the announcement list, against PostgreSQL's LIKE and ILIKE.
module LikeEscape {

  // When two characters count as one: equality for LIKE, equality up to case for ILIKE.
  type Sameness = (char, char) -> bool

  // `text LIKE pattern` with the default escape character. A pattern that ends in a bare
  // backslash is an error in PostgreSQL; it matches nothing here.
  ghost predicate Like(same: Sameness, pattern: string, text: string)
    decreases |pattern|
  {
    if pattern == [] then text == []
    else if pattern[0] == '%' then
      exists k :: 0 <= k <= |text| && Like(same, pattern[1..], text[k..])
    else if pattern[0] == '_' then
      |text| > 0 && Like(same, pattern[1..], text[1..])
    else if pattern[0] == '\\' then
      |pattern| > 1 && |text| > 0 && same(text[0], pattern[1]) && Like(same, pattern[2..], text[1..])
    else
      |text| > 0 && same(text[0], pattern[0]) && Like(same, pattern[1..], text[1..])
  }

  predicate IsMeta(c: char) {
    c == '\\' || c == '%' || c == '_'
  }

  function EscapeLike(term: string): string {
    if term == [] then []
    else (if IsMeta(term[0]) then ['\\', term[0]] else [term[0]]) + EscapeLike(term[1..])
  }

  // What Prisma's `contains` sends for a search term.
  function ContainsPattern(term: string): string {
    "%" + EscapeLike(term) + "%"
  }

  // `text` begins with `term`, character by character.
  predicate BeginsWith(same: Sameness, text: string, term: string) {
    |text| >= |term| && forall i :: 0 <= i < |term| ==> same(text[i], term[i])
  }

  ghost predicate ContainsLiterally(same: Sameness, text: string, term: string) {
    exists i :: 0 <= i <= |text| && BeginsWith(same, text[i..], term)
  }

  lemma BeginsWithStep(same: Sameness, text: string, term: string)
    requires text != [] && term != []
    ensures BeginsWith(same, text, term) <==> same(text[0], term[0]) && BeginsWith(same, text[1..], term[1..])
  {
    if same(text[0], term[0]) && BeginsWith(same, text[1..], term[1..]) {
      forall i | 0 <= i < |term| ensures same(text[i], term[i]) {
        if i > 0 { assert same(text[1..][i - 1], term[1..][i - 1]); }
      }
    }
  }

  // An escaped term consumes exactly itself, whatever pattern follows it.
  lemma {:induction false} EscapedPrefix(same: Sameness, term: string, rest: string, text: string)
    ensures Like(same, EscapeLike(term) + rest, text)
       <==> BeginsWith(same, text, term) && Like(same, rest, text[|term|..])
  {
    var p := EscapeLike(term) + rest;
    if term == [] {
      assert p == rest && text[|term|..] == text;
    } else if text != [] {
      EscapedPrefix(same, term[1..], rest, text[1..]);
      BeginsWithStep(same, text, term);
      var tail := EscapeLike(term[1..]) + rest;
      assert (if IsMeta(term[0]) then p[2..] else p[1..]) == tail;
      assert Like(same, p, text) <==> same(text[0], term[0]) && Like(same, tail, text[1..]);
      if |text| >= |term| { assert text[1..][|term| - 1..] == text[|term|..]; }
    }
  }

  lemma PercentMatchesAnything(same: Sameness, text: string)
    ensures Like(same, "%", text)
  {
    assert Like(same, [], text[|text|..]);
    assert Like(same, "%"[1..], text[|text|..]);
  }

  // The search finds exactly the rows whose title contains the term literally, up to what counts as the
  // same character.
  lemma ContainsPatternIsLiteral(same: Sameness, term: string, text: string)
    ensures Like(same, ContainsPattern(term), text) <==> ContainsLiterally(same, text, term)
  {
    var p := ContainsPattern(term);
    assert p[1..] == EscapeLike(term) + "%";
    forall k | 0 <= k <= |text|
      ensures Like(same, p[1..], text[k..]) <==> BeginsWith(same, text[k..], term)
    {
      EscapedPrefix(same, term, "%", text[k..]);
      if |text| - k >= |term| { PercentMatchesAnything(same, text[k..][|term|..]); }
    }
    if i :| 0 <= i <= |text| && BeginsWith(same, text[i..], term) {
      assert Like(same, p[1..], text[i..]);
    }
  }

  function Equal(): Sameness {
    (a, b) => a == b
  }

  // For LIKE itself: the term occurs as a substring.
  lemma ContainsIsSubstring(term: string, text: string)
    ensures Like(Equal(), ContainsPattern(term), text) <==> exists i, j :: 0 <= i <= j <= |text| && text[i..j] == term
  {
    ContainsPatternIsLiteral(Equal(), term, text);
    if i :| 0 <= i <= |text| && BeginsWith(Equal(), text[i..], term) {
      assert text[i..i + |term|] == term;
    }
    if i, j :| 0 <= i <= j <= |text| && text[i..j] == term {
      forall k | 0 <= k < |term| ensures text[i..][k] == term[k] { assert text[i..j][k] == text[i + k]; }
      assert BeginsWith(Equal(), text[i..], term);
    }
  }

  lemma UnderscoreMatchesOneCharacter(p: string, q: string, text: string)
    requires q == "_%" && p == "%" + q && |text| == 1
    ensures Like(Equal(), p, text)
  {
    assert q[1..] == "%";
    PercentMatchesAnything(Equal(), text[1..]);
    assert p[1..] == q && text[0..] == text;
    assert Like(Equal(), p[1..], text[0..]);
  }

  // Without the escape the statement fails: a bare underscore finds a title that has none.
  lemma UnescapedUnderscoreOverMatches()
    ensures exists text, term ::
      Like(Equal(), "%" + term + "%", text) && !ContainsLiterally(Equal(), text, term)
  {
    forall i | 0 <= i <= |"a"| ensures !BeginsWith(Equal(), "a"[i..], "_") {
      if i == 0 { assert "a"[i..][0] == 'a' && "_"[0] == '_'; }
    }
    UnderscoreMatchesOneCharacter("%" + "_" + "%", "_%", "a");
  }
}
