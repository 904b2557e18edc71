/** Which pieces of a query are terms. */
module Tokens {
  import opened KeywordQuery

  // A letter or digit, or a joiner between two of them.
  predicate WordChar(s: string, i: nat, j: nat, k: nat) {
    && i <= k < j <= |s|
    && (IsAlnum(s[k]) || (IsJoiner(s[k]) && i < k && k + 1 < j && IsAlnum(s[k - 1]) && IsAlnum(s[k + 1])))
  }

  // Letters and digits, with single joiners between them.
  predicate IsWord(s: string, i: nat, j: nat) {
    i < j <= |s| && IsAlnum(s[i]) && IsAlnum(s[j - 1]) && forall k :: i <= k < j ==> WordChar(s, i, j, k)
  }

  // It cannot be continued to the right, or to the left.
  predicate EndsAt(s: string, j: nat) {
    j >= |s| || (!IsAlnum(s[j]) && !(j + 1 < |s| && IsJoiner(s[j]) && IsAlnum(s[j + 1])))
  }

  predicate StartsAt(s: string, i: nat) {
    && i < |s| && IsAlnum(s[i])
    && (i > 0 ==> !IsAlnum(s[i - 1]) && !(i > 1 && IsJoiner(s[i - 1]) && IsAlnum(s[i - 2])))
  }

  /** The same text, with capital letters made small. */
  predicate IsLowerOf(t: string, word: string) {
    && |t| == |word|
    && forall k :: 0 <= k < |t| ==>
         if 'A' <= word[k] <= 'Z' then t[k] as int == word[k] as int + 32 else t[k] == word[k]
  }

  /** A term stands at i: two Chinese characters, or a whole word in lower case. */
  ghost predicate IsTermAt(s: string, i: nat, t: string) {
    || (IsPair(s, i) && t == s[i..i + 2])
    || (StartsAt(s, i) && exists j: nat :: IsWord(s, i, j) && EndsAt(s, j) && IsLowerOf(t, s[i..j]))
  }

  lemma {:induction false} WordEndIs(s: string, i: nat)
    requires i < |s| && IsAlnum(s[i])
    ensures IsWord(s, i, WordEnd(s, i)) && EndsAt(s, WordEnd(s, i))
    decreases |s| - i
  {
    hide IsAlnum, IsJoiner;
    var j := WordEnd(s, i);
    if i + 1 < |s| && IsAlnum(s[i + 1]) {
      WordEndIs(s, i + 1);
      forall k | i < k < j
        ensures WordChar(s, i, j, k)
      {
        assert WordChar(s, i + 1, j, k);
      }
    } else if i + 2 < |s| && IsJoiner(s[i + 1]) && IsAlnum(s[i + 2]) {
      WordEndIs(s, i + 2);
      forall k | i + 1 < k < j
        ensures WordChar(s, i, j, k)
      {
        assert WordChar(s, i + 2, j, k);
      }
    }
  }

  // Scanning from here misses nothing: no word has begun before.
  predicate Clean(s: string, i: nat) {
    && i <= |s| && (i < |s| && IsAlnum(s[i]) ==> StartsAt(s, i))
    && !(0 < i && i + 1 < |s| && IsAlnum(s[i - 1]) && IsJoiner(s[i]) && IsAlnum(s[i + 1]))
  }

  // The terms from position i on stand at these places, and no others do.
  ghost predicate StandAt(s: string, i: nat, terms: seq<string>, places: seq<nat>) {
    && |terms| == |places|
    && (forall k :: 0 <= k < |places| ==> i <= places[k] && IsTermAt(s, places[k], terms[k]))
    && (forall k :: 0 < k < |places| ==> places[k - 1] < places[k])
    && forall p :: i <= p && (IsPair(s, p) || StartsAt(s, p)) ==> p in places
  }

  lemma PairsStand(s: string, i: nat, j: nat) returns (places: seq<nat>)
    requires i < j <= |s| && j == CjkEnd(s, i) && IsCjk(s[i])
    ensures |places| == |Pairs(s, i, j)| && forall k :: 0 <= k < |places| ==>
              places[k] == i + k && places[k] < j && IsTermAt(s, places[k], Pairs(s, i, j)[k])
    ensures forall p :: i <= p < j && (IsPair(s, p) || StartsAt(s, p)) ==> p in places
    ensures Clean(s, j)
  {
    places := seq(|Pairs(s, i, j)|, k => i + k);
    forall p | i <= p < j && (IsPair(s, p) || StartsAt(s, p))
      ensures p in places
    {
      assert IsCjk(s[p]);
      assert places[p - i] == p;
    }
  }

  lemma NoStartInside(s: string, i: nat, j: nat, p: nat)
    requires IsWord(s, i, j) && i < p < j
    ensures !IsPair(s, p) && !StartsAt(s, p)
  {
    assert WordChar(s, i, j, p) && WordChar(s, i, j, p - 1);
  }

  lemma CleanBehind(s: string, i: nat, j: nat)
    requires IsWord(s, i, j) && EndsAt(s, j)
    ensures Clean(s, j)
  {
  }

  lemma WordStands(s: string, i: nat)
    requires Clean(s, i) && i < |s| && IsAlnum(s[i])
    ensures var j := WordEnd(s, i);
            && IsTermAt(s, i, Lower(s[i..j])) && Clean(s, j)
            && forall p :: i < p < j ==> !IsPair(s, p) && !StartsAt(s, p)
  {
    var j := WordEnd(s, i);
    WordEndIs(s, i);
    assert IsLowerOf(Lower(s[i..j]), s[i..j]);
    CleanBehind(s, i, j);
    hide IsAlnum, IsJoiner, IsCjk, WordEnd, IsPair, StartsAt, IsLowerOf, Lower, EndsAt;
    forall p | i < p < j
      ensures !IsPair(s, p) && !StartsAt(s, p)
    {
      NoStartInside(s, i, j, p);
    }
  }

  lemma StandTogether(s: string, i: nat, j: nat, a: seq<string>, here: seq<nat>, b: seq<string>, there: seq<nat>)
    requires i < j && |a| == |here| && StandAt(s, j, b, there)
    requires forall k :: 0 <= k < |here| ==> i <= here[k] < j && IsTermAt(s, here[k], a[k])
    requires forall k :: 0 < k < |here| ==> here[k - 1] < here[k]
    requires forall p :: i <= p < j && (IsPair(s, p) || StartsAt(s, p)) ==> p in here
    ensures StandAt(s, i, a + b, here + there)
  {
    hide IsTermAt, IsPair, StartsAt;
  }

  /**
    * The terms of a text, in order: every pair of neighbouring Chinese characters, and every word of letters and digits
    * as a whole, in lower case; there are no others.
    */
  lemma {:induction false} TermsStand(s: string, i: nat) returns (places: seq<nat>)
    requires Clean(s, i)
    ensures StandAt(s, i, Terms(s, i), places)
    decreases |s| - i
  {
    hide IsTermAt, Pairs, Lower, CjkEnd, WordEnd;
    if i == |s| {
      places := [];
    } else if IsCjk(s[i]) {
      var j := CjkEnd(s, i);
      var here := PairsStand(s, i, j);
      var there := TermsStand(s, j);
      StandTogether(s, i, j, Pairs(s, i, j), here, Terms(s, j), there);
      places := here + there;
    } else if IsAlnum(s[i]) {
      var j := WordEnd(s, i);
      WordStands(s, i);
      var there := TermsStand(s, j);
      StandTogether(s, i, j, [Lower(s[i..j])], [i], Terms(s, j), there);
      places := [i] + there;
    } else {
      places := TermsStand(s, i + 1);
    }
  }

  /** The terms of a whole text. */
  lemma TermsAre(s: string) returns (places: seq<nat>)
    ensures StandAt(s, 0, Terms(s, 0), places)
  {
    places := TermsStand(s, 0);
  }
}
