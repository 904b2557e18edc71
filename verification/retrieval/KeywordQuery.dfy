/** Keyword queries: terms and their bounded selection. */
module KeywordQuery {
  import opened Wrappers
  import opened Ordering

  const MAX_CHARACTERS: nat := 2000
  const MAX_TERMS: nat := 64

  // --- Tokens ---

  predicate IsCjk(c: char) {
    '\U{3400}' <= c <= '\U{4DBF}' || '\U{4E00}' <= c <= '\U{9FFF}'
  }

  predicate IsAlnum(c: char) {
    'A' <= c <= 'Z' || 'a' <= c <= 'z' || '0' <= c <= '9'
  }

  predicate IsJoiner(c: char) {
    c in {'.', '_', '/', '-'}
  }

  function CjkEnd(s: string, i: nat): (j: nat)
    requires i <= |s|
    ensures i <= j <= |s|
    ensures forall k :: i <= k < j ==> IsCjk(s[k])
    ensures j < |s| ==> !IsCjk(s[j])
    decreases |s| - i
  {
    if i < |s| && IsCjk(s[i]) then CjkEnd(s, i + 1) else i
  }

  /** Letters and digits, continued over a single joiner when a letter or digit follows it. */
  function WordEnd(s: string, i: nat): (j: nat)
    requires i < |s| && IsAlnum(s[i])
    ensures i < j <= |s| && IsAlnum(s[j - 1])
    ensures forall k :: i <= k < j ==> !IsCjk(s[k])
    decreases |s| - i
  {
    if i + 1 < |s| && IsAlnum(s[i + 1]) then WordEnd(s, i + 1)
    else if i + 2 < |s| && IsJoiner(s[i + 1]) && IsAlnum(s[i + 2]) then WordEnd(s, i + 2)
    else i + 1
  }

  function Lower(s: string): (r: string)
    ensures |r| == |s|
  {
    seq(|s|, i requires 0 <= i < |s| => if 'A' <= s[i] <= 'Z' then ((s[i] as int) + 32) as char else s[i])
  }

  // The overlapping pairs of a stretch.
  function Pairs(s: string, i: nat, j: nat): (pairs: seq<string>)
    requires i <= j <= |s|
    ensures |pairs| == if j - i < 2 then 0 else j - i - 1
    ensures forall k :: 0 <= k < |pairs| ==> pairs[k] == s[i + k..i + k + 2]
  {
    if j - i < 2 then [] else seq(j - i - 1, k requires 0 <= k < j - i - 1 => s[i + k..i + k + 2])
  }

  /** The terms of a text from a position on: pairs of each Chinese stretch, and each word in lower case. */
  function Terms(s: string, i: nat): seq<string>
    requires i <= |s|
    decreases |s| - i
  {
    if i == |s| then []
    else if IsCjk(s[i]) then
      var j := CjkEnd(s, i);
      Pairs(s, i, j) + Terms(s, j)
    else if IsAlnum(s[i]) then
      var j := WordEnd(s, i);
      [Lower(s[i..j])] + Terms(s, j)
    else Terms(s, i + 1)
  }

  predicate IsPair(s: string, k: nat) {
    k + 1 < |s| && IsCjk(s[k]) && IsCjk(s[k + 1])
  }

  /** Every pair of neighbouring Chinese characters is a term. */
  lemma {:induction false} PairsAreTerms(s: string, i: nat, k: nat)
    requires i <= k && IsPair(s, k)
    ensures s[k..k + 2] in Terms(s, i)
    decreases |s| - i
  {
    if IsCjk(s[i]) {
      var j := CjkEnd(s, i);
      if k < j {
        assert Pairs(s, i, j)[k - i] == s[k..k + 2];
      } else {
        PairsAreTerms(s, j, k);
      }
    } else if IsAlnum(s[i]) {
      PairsAreTerms(s, WordEnd(s, i), k);
    } else {
      PairsAreTerms(s, i + 1, k);
    }
  }

  lemma LowerKeeps(s: string, i: nat, j: nat)
    requires i < j <= |s| && IsAlnum(s[j - 1])
    ensures var r := Lower(s[i..j]);
            r != [] && IsAlnum(r[|r| - 1])
  {
  }

  lemma StretchPair(s: string, i: nat, j: nat, term: string) returns (k: nat)
    requires i <= j <= |s| && term in Pairs(s, i, j) && forall m :: i <= m < j ==> IsCjk(s[m])
    ensures i <= k && IsPair(s, k) && term == s[k..k + 2]
  {
    var n :| 0 <= n < |Pairs(s, i, j)| && Pairs(s, i, j)[n] == term;
    k := i + n;
  }

  /** A term that ends with a Chinese character is such a pair of the text. */
  lemma {:induction false} TermsArePairs(s: string, i: nat, term: string) returns (k: nat)
    requires i <= |s| && term in Terms(s, i) && term != [] && IsCjk(term[|term| - 1])
    ensures i <= k && IsPair(s, k) && term == s[k..k + 2]
    decreases |s| - i
  {
    hide IsPair, Pairs, Lower;
    if IsCjk(s[i]) {
      var j := CjkEnd(s, i);
      if term in Pairs(s, i, j) {
        k := StretchPair(s, i, j, term);
      } else {
        k := TermsArePairs(s, j, term);
      }
    } else if IsAlnum(s[i]) {
      var j := WordEnd(s, i);
      LowerKeeps(s, i, j);
      k := TermsArePairs(s, j, term);
    } else {
      k := TermsArePairs(s, i + 1, term);
    }
  }

  // --- Each term once ---

  function Firsts(terms: seq<string>): seq<string> {
    if terms == [] then []
    else
      var before := Firsts(terms[..|terms| - 1]);
      if terms[|terms| - 1] in before then before else before + [terms[|terms| - 1]]
  }

  // The place of the first occurrence.
  function Place(terms: seq<string>, t: string): (p: nat)
    requires t in terms
    ensures p < |terms| && terms[p] == t && forall k :: 0 <= k < p ==> terms[k] != t
  {
    if terms[0] == t then 0 else 1 + Place(terms[1..], t)
  }

  lemma {:induction false} PlaceIs(terms: seq<string>, t: string, p: nat)
    requires p < |terms| && terms[p] == t && forall k :: 0 <= k < p ==> terms[k] != t
    ensures Place(terms, t) == p
  {
    if p > 0 {
      PlaceIs(terms[1..], t, p - 1);
    }
  }

  lemma PlaceOfPrefix(terms: seq<string>, n: nat, t: string)
    requires n <= |terms| && t in terms[..n]
    ensures Place(terms, t) == Place(terms[..n], t)
  {
    PlaceIs(terms, t, Place(terms[..n], t));
  }

  /** Removing repetitions keeps the terms and the order in which they first occur. */
  lemma {:induction false} FirstsAre(terms: seq<string>)
    ensures NoRepeats(Firsts(terms)) && forall t :: t in Firsts(terms) <==> t in terms
    ensures forall i, j :: 0 <= i < j < |Firsts(terms)| ==>
            Place(terms, Firsts(terms)[i]) < Place(terms, Firsts(terms)[j])
    decreases |terms|
  {
    if terms != [] {
      var n := |terms| - 1;
      FirstsAre(terms[..n]);
      assert terms == terms[..n] + [terms[n]];
      var before, all := Firsts(terms[..n]), Firsts(terms);
      forall i, j | 0 <= i < j < |all|
        ensures Place(terms, all[i]) < Place(terms, all[j])
      {
        assert all[i] == before[i] && before[i] in before;
        PlaceOfPrefix(terms, n, all[i]);
        if j < |before| {
          assert before[j] in before;
          PlaceOfPrefix(terms, n, all[j]);
        } else {
          LastIsNew(terms);
        }
      }
    }
  }

  lemma LastIsNew(terms: seq<string>)
    requires terms != [] && terms[|terms| - 1] !in terms[..|terms| - 1]
    ensures Place(terms, terms[|terms| - 1]) == |terms| - 1
  {
    var n := |terms| - 1;
    assert forall k :: 0 <= k < n ==> terms[..n][k] == terms[k];
    PlaceIs(terms, terms[n], n);
  }

  // --- At most 64 terms ---

  /** The place of the i-th of 64 selected terms among n. */
  function Position(n: nat, i: nat): nat
    requires n > 0
  {
    i * (n - 1) / (MAX_TERMS - 1)
  }

  lemma NextPosition(n: nat, i: nat)
    requires n > MAX_TERMS
    ensures Position(n, i) < Position(n, i + 1) <= Position(n, i) + (n - 1 + MAX_TERMS - 2) / (MAX_TERMS - 1)
  {
    var x := i * (n - 1);
    assert (i + 1) * (n - 1) == x + (n - 1);
  }

  lemma {:induction false} PositionsIncrease(n: nat, i: nat, j: nat)
    requires n > MAX_TERMS && i < j
    ensures Position(n, i) < Position(n, j)
    decreases j
  {
    NextPosition(n, j - 1);
    if i < j - 1 {
      PositionsIncrease(n, i, j - 1);
    }
  }

  lemma PositionEnds(n: nat)
    requires n > 0
    ensures Position(n, 0) == 0 && Position(n, MAX_TERMS - 1) == n - 1
  {
  }

  // The i-th of 64 selected terms stands at the i-th of 63 even steps to the last term, rounded down.
  predicate IsShare(n: nat, i: nat, place: nat)
    requires n > 0
  {
    place * (MAX_TERMS - 1) <= i * (n - 1) < (place + 1) * (MAX_TERMS - 1)
  }

  lemma PositionIsShare(n: nat, i: nat)
    requires n > 0
    ensures IsShare(n, i, Position(n, i))
  {
    var x := i * (n - 1);
    assert (x / 63) * 63 <= x < (x / 63 + 1) * 63;
  }

  // Beyond 64 terms the selection is even.
  predicate Even(terms: seq<string>, places: seq<nat>) {
    |terms| > MAX_TERMS ==> forall i :: 0 <= i < |places| ==> IsShare(|terms|, i, places[i])
  }

  // A subsequence, with the places its members come from.
  predicate PickedAt(terms: seq<string>, picked: seq<string>, places: seq<nat>) {
    && |places| == |picked|
    && (forall i :: 0 <= i < |picked| ==> places[i] < |terms| && picked[i] == terms[places[i]])
    && (forall i, j :: 0 <= i < j < |places| ==> places[i] < places[j])
  }

  // It spans the terms: first and last are there, and no gap exceeds a bound.
  predicate Spans(terms: seq<string>, places: seq<nat>, gap: nat) {
    && places != [] && places[0] == 0 && places[|places| - 1] == |terms| - 1
    && forall i :: 0 < i < |places| ==> places[i] <= places[i - 1] + gap
  }

  function Gap(n: nat): nat {
    if n <= MAX_TERMS then 1 else (n - 1 + MAX_TERMS - 2) / (MAX_TERMS - 1)
  }

  lemma PositionInside(n: nat, i: nat)
    requires n > MAX_TERMS && i < MAX_TERMS
    ensures Position(n, i) < n
  {
    PositionEnds(n);
    hide Position;
    if i < MAX_TERMS - 1 {
      PositionsIncrease(n, i, MAX_TERMS - 1);
    }
  }

  lemma PositionsSpan(terms: seq<string>, places: seq<nat>)
    requires |terms| > MAX_TERMS == |places| && forall k :: 0 <= k < |places| ==> places[k] == Position(|terms|, k)
    ensures forall i, j :: 0 <= i < j < |places| ==> places[i] < places[j]
    ensures Spans(terms, places, Gap(|terms|)) && Even(terms, places)
  {
    var n := |terms|;
    PositionEnds(n);
    hide Position, IsShare;
    forall i, j | 0 <= i < j < |places|
      ensures places[i] < places[j]
    {
      PositionsIncrease(n, i, j);
    }
    forall i | 0 <= i < |places|
      ensures IsShare(n, i, places[i]) && (i > 0 ==> places[i] <= places[i - 1] + Gap(n))
    {
      PositionIsShare(n, i);
      if i > 0 {
        NextPosition(n, i - 1);
      }
    }
  }

  /** Selecting from distinct terms: all of them, or 64 that span them with the smallest even gap. */
  method Bound(terms: seq<string>) returns (picked: seq<string>, ghost places: seq<nat>)
    requires terms != []
    ensures |picked| == if |terms| > MAX_TERMS then MAX_TERMS else |terms|
    ensures |terms| <= MAX_TERMS ==> picked == terms
    ensures PickedAt(terms, picked, places) && Spans(terms, places, Gap(|terms|)) && Even(terms, places)
  {
    var n := |terms|;
    if n <= MAX_TERMS {
      places := seq(n, i => i);
      return terms, places;
    }
    picked, places := [], [];
    for i := 0 to MAX_TERMS
      invariant |places| == |picked| == i
      invariant forall k :: 0 <= k < i ==> places[k] == Position(n, k) < n && picked[k] == terms[places[k]]
    {
      PositionInside(n, i);
      places := places + [Position(n, i)];
      picked := picked + [terms[Position(n, i)]];
    }
    PositionsSpan(terms, places);
  }

  datatype QueryError = BadLength | NoTerms

  /** Terms in order, each kept at its first occurrence. */
  method Deduplicate(terms: seq<string>) returns (unique: seq<string>)
    ensures unique == Firsts(terms)
  {
    unique := [];
    for i := 0 to |terms|
      invariant unique == Firsts(terms[..i])
    {
      assert terms[..i + 1][..i] == terms[..i];
      if terms[i] !in unique {
        unique := unique + [terms[i]];
      }
    }
    assert terms[..|terms|] == terms;
  }

  /** The query of a normalized text: its distinct terms in order, or 64 of them that span the whole text. */
  method Preprocess(normalized: string) returns (r: Result<seq<string>, QueryError>, ghost places: seq<nat>)
    ensures normalized == "" || |normalized| > MAX_CHARACTERS ==> r == Err(BadLength)
    ensures 0 < |normalized| <= MAX_CHARACTERS ==>
            (r.Ok? <==> Terms(normalized, 0) != []) && (r.Err? ==> r.error == NoTerms)
    ensures r.Ok? ==>
              var unique := Firsts(Terms(normalized, 0));
              && NoRepeats(r.value) && |r.value| == (if |unique| > MAX_TERMS then MAX_TERMS else |unique|)
              && PickedAt(unique, r.value, places) && Spans(unique, places, Gap(|unique|)) && Even(unique, places)
  {
    places := [];
    if normalized == "" || |normalized| > MAX_CHARACTERS {
      return Err(BadLength), places;
    }
    var terms := Terms(normalized, 0);
    var unique := Deduplicate(terms);
    FirstsAre(terms);
    assert unique == [] <==> terms == [] by {
      assert unique != [] ==> unique[0] in unique;
      assert terms != [] ==> terms[0] in terms;
    }
    if unique == [] {
      return Err(NoTerms), places;
    }
    var picked;
    picked, places := Bound(unique);
    r := Ok(picked);
  }
}
