/** What a fused answer says about the hits. */
module Answer {
  import opened Wrappers
  import opened Ordering
  import opened Hybrid
  import opened Fusion
  import opened Ranking
  import Text

  // --- Which channels can be fused ---

  predicate Present(h: Hit) {
    && h.id != "" && h.payload.document != "" && h.payload.path != [] && h.payload.content != "" && h.payload.hash != ""
    && h.payload.index >= 0
  }

  /** Every hit is complete, scores are in the range of their channel, and hits of one chunk carry one payload. */
  ghost predicate Acceptable(keyword: seq<Hit>, vector: seq<Hit>) {
    && (forall h :: h in keyword + vector ==> Present(h))
    && (forall h :: h in keyword ==> h.score >= 0.0) && (forall h :: h in vector ==> -1.0 <= h.score <= 1.0)
    && (forall h, g :: h in keyword + vector && g in keyword + vector && h.id == g.id ==> h.payload == g.payload)
  }

  lemma FusableIff(keyword: seq<Hit>, vector: seq<Hit>)
    ensures Fusable(keyword, vector) <==> Acceptable(keyword, vector)
  {
    var all := keyword + vector;
    if Fusable(keyword, vector) {
      forall h | h in all
        ensures Present(h) && (h in keyword ==> h.score >= 0.0) && (h in vector ==> -1.0 <= h.score <= 1.0)
      {
        HitIsFaultless(keyword, vector, h);
      }
      forall h, g | h in all && g in all && h.id == g.id
        ensures h.payload == g.payload
      {
        var i :| 0 <= i < |all| && all[i] == h;
        var j :| 0 <= j < |all| && all[j] == g;
        PayloadsAgree(keyword, vector, i, j);
      }
    }
    if Acceptable(keyword, vector) {
      forall i | 0 <= i < |all|
        ensures FaultAt(keyword, vector, i).None?
      {
        assert all[i] in all;
        assert i < |keyword| ==> all[i] == keyword[i];
        assert i >= |keyword| ==> all[i] == vector[i - |keyword|];
        assert forall h :: h in all[..i] ==> h in all;
      }
    }
  }

  lemma HitIsFaultless(keyword: seq<Hit>, vector: seq<Hit>, h: Hit)
    requires Fusable(keyword, vector) && h in keyword + vector
    ensures Present(h) && (h in keyword ==> h.score >= 0.0) && (h in vector ==> -1.0 <= h.score <= 1.0)
  {
    if h in keyword {
      var i :| 0 <= i < |keyword| && keyword[i] == h;
      assert (keyword + vector)[i] == h && FaultAt(keyword, vector, i).None?;
    }
    if h in vector {
      var i :| 0 <= i < |vector| && vector[i] == h;
      assert (keyword + vector)[|keyword| + i] == h && FaultAt(keyword, vector, |keyword| + i).None?;
    }
  }

  lemma PayloadsAgree(keyword: seq<Hit>, vector: seq<Hit>, i: nat, j: nat)
    requires Fusable(keyword, vector) && i < |keyword| + |vector| && j < |keyword| + |vector|
    requires (keyword + vector)[i].id == (keyword + vector)[j].id
    ensures (keyword + vector)[i].payload == (keyword + vector)[j].payload
  {
    var all := keyword + vector;
    if i < j {
      assert FaultAt(keyword, vector, j).None? && all[i] in all[..j];
    } else if j < i {
      assert FaultAt(keyword, vector, i).None? && all[j] in all[..i];
    }
  }

  // --- What a fragment says about the hits ---

  // Hit j is the first of its chunk, and its chunk is one of these.
  predicate Chosen(hits: seq<Hit>, ids: seq<string>, j: nat) {
    j < |hits| && hits[j].id in ids && forall i :: 0 <= i < j ==> hits[i].id != hits[j].id
  }

  /** The best rank of the chunks: the first place, counted from one, at which any of them is found. */
  ghost predicate BestPlace(rank: Option<nat>, hits: seq<Hit>, ids: seq<string>) {
    if rank.None? then forall h :: h in hits ==> h.id !in ids
    else
      && 1 <= rank.value <= |hits| && hits[rank.value - 1].id in ids
      && forall i :: 0 <= i < rank.value - 1 ==> hits[i].id !in ids
  }

  ghost predicate BestHit(score: Option<real>, hits: seq<Hit>, ids: seq<string>) {
    if score.None? then forall h :: h in hits ==> h.id !in ids
    else
      && (exists j: nat :: Chosen(hits, ids, j) && hits[j].score == score.value)
      && forall j: nat :: Chosen(hits, ids, j) ==> hits[j].score <= score.value
  }

  // The share of a rank in the score.
  function Worth(rank: Option<nat>): real {
    if rank.None? then 0.0 else 1.0 / ((60 + rank.value) as real)
  }

  // Every hit of the k-th chunk agrees with the fragment.
  ghost predicate Agrees(f: Fragment, k: nat, content: string, h: Hit)
    requires k < |f.ids| == |f.indexes| == |f.hashes|
  {
    h.id == f.ids[k] ==>
      && h.payload.document == f.document && h.payload.path == f.path && h.payload.index == f.indexes[k]
      && h.payload.hash == f.hashes[k] && h.payload.content == content
      && (k == 0 ==> h.payload.name == f.name && h.payload.version == f.version)
  }

  /**
    * A fragment is a stretch of consecutive chunks of one section that were found, with their texts joined in order;
    * its ranks and scores are the best that any of them has in each channel, and its score is that of these ranks.
    */
  ghost predicate Describes(f: Fragment, contents: seq<string>, keyword: seq<Hit>, vector: seq<Hit>) {
    && f.ids != [] && |f.ids| == |f.indexes| == |f.hashes| == |contents|
    && (forall k :: 0 <= k < |f.indexes| ==> f.indexes[k] == f.indexes[0] + k)
    && (forall k :: 0 <= k < |f.ids| ==> f.ids[k] in Ids(keyword) + Ids(vector))
    && (forall k, h :: 0 <= k < |f.ids| && h in keyword + vector ==> Agrees(f, k, contents[k], h))
    && f.content == Text.Join("\n\n", contents)
    && BestPlace(f.keywordRank, keyword, f.ids) && BestPlace(f.vectorRank, vector, f.ids)
    && BestHit(f.keywordScore, keyword, f.ids) && BestHit(f.vectorScore, vector, f.ids)
    && f.score == Worth(f.keywordRank) + Worth(f.vectorRank)
  }

  lemma BestPlaceIs(ranks: seq<Option<nat>>, ids: seq<string>, hits: seq<Hit>)
    requires |ranks| == |ids| && forall k :: 0 <= k < |ids| ==> ranks[k] == RankOf(hits, ids[k])
    ensures BestPlace(BestRank(ranks), hits, ids)
  {
    var best := BestRank(ranks);
    hide BestRank, FirstIndex;
    forall i | 0 <= i < |hits| && hits[i].id in ids
      ensures best.Some? && best.value <= i + 1
    {
      var k :| 0 <= k < |ids| && ids[k] == hits[i].id;
      assert ranks[k] in ranks;
    }
    if best.Some? {
      var k :| 0 <= k < |ranks| && ranks[k] == best;
      assert ids[k] in ids;
    }
  }

  lemma BestHitIs(scores: seq<Option<real>>, ids: seq<string>, hits: seq<Hit>)
    requires |scores| == |ids| && forall k :: 0 <= k < |ids| ==> scores[k] == ScoreOf(hits, ids[k])
    ensures BestHit(BestScore(scores), hits, ids)
  {
    var best := BestScore(scores);
    hide BestScore, FirstIndex;
    forall i | 0 <= i < |hits| && hits[i].id in ids
      ensures best.Some? && (Chosen(hits, ids, i) ==> hits[i].score <= best.value)
    {
      var k :| 0 <= k < |ids| && ids[k] == hits[i].id;
      assert scores[k] in scores;
    }
    if best.Some? {
      var k :| 0 <= k < |scores| && scores[k] == best;
      var j := FirstIndex(hits, ids[k]).value;
      assert ids[k] in ids && Chosen(hits, ids, j);
    }
  }

  lemma PayloadIs(keyword: seq<Hit>, vector: seq<Hit>, h: Hit)
    requires Acceptable(keyword, vector) && h in keyword + vector
    ensures h.id in Ids(keyword) + Ids(vector) && PayloadOf(keyword, vector, h.id) == h.payload
  {
    var i := FirstIndex(keyword, h.id);
    if i.Some? {
      assert keyword[i.value] in keyword + vector;
    } else {
      var j := FirstIndex(vector, h.id).value;
      assert vector[j] in keyword + vector;
    }
    hide FirstIndex;
  }

  // The k-th member of a run is the candidate of its chunk, in the section of the run.
  lemma MemberIs(keyword: seq<Hit>, vector: seq<Hit>, r: Run, k: nat)
    requires DistinctIds(Candidates(keyword, vector)) && r in RunSet(Candidates(keyword, vector)) && k < |r|
    ensures Consecutive(r) && GroupOf(r[k]) == GroupOf(r[0])
    ensures r[k].id in Ids(keyword) + Ids(vector) && r[k] == CandidateOf(keyword, vector, r[k].id)
  {
    hide RunSet, DistinctIds;
    var g, i := RunHasGroup(Candidates(keyword, vector), r);
    assert r[k] in r && r[0] in r;
    CandidateIs(keyword, vector, r[k]);
    hide Candidates, CandidateOf;
  }

  lemma CandidateIs(keyword: seq<Hit>, vector: seq<Hit>, c: Candidate)
    requires c in Candidates(keyword, vector)
    ensures c.id in Ids(keyword) + Ids(vector) && c == CandidateOf(keyword, vector, c.id)
  {
    hide Ids, FirstIndex;
  }

  lemma TextsAgree(keyword: seq<Hit>, vector: seq<Hit>, r: Run, k: nat, h: Hit)
    requires Acceptable(keyword, vector) && DistinctIds(Candidates(keyword, vector))
    requires r in RunSet(Candidates(keyword, vector)) && k < |r| && h in keyword + vector
    ensures Agrees(Merge(r), k, r[k].payload.content, h)
  {
    hide RunSet, DistinctIds, Candidates, Acceptable, BestRank, BestScore, Rrf, Text.Join;
    MemberIs(keyword, vector, r, k);
    PayloadIs(keyword, vector, h);
  }

  lemma TextsOfRun(keyword: seq<Hit>, vector: seq<Hit>, r: Run, contents: seq<string>)
    requires Acceptable(keyword, vector) && DistinctIds(Candidates(keyword, vector))
    requires r in RunSet(Candidates(keyword, vector))
    requires |contents| == |r| && forall k :: 0 <= k < |r| ==> contents[k] == r[k].payload.content
    ensures |Merge(r).ids| == |Merge(r).indexes| == |Merge(r).hashes| == |r|
    ensures forall k, h :: 0 <= k < |r| && h in keyword + vector ==> Agrees(Merge(r), k, contents[k], h)
  {
    hide RunSet, DistinctIds, Candidates, Acceptable, Agrees, BestRank, BestScore, Rrf;
    forall k, h | 0 <= k < |r| && h in keyword + vector
      ensures Agrees(Merge(r), k, contents[k], h)
    {
      TextsAgree(keyword, vector, r, k, h);
    }
  }

  lemma RunDescribed(keyword: seq<Hit>, vector: seq<Hit>, r: Run) returns (contents: seq<string>)
    requires Acceptable(keyword, vector) && DistinctIds(Candidates(keyword, vector))
    requires r in RunSet(Candidates(keyword, vector))
    ensures Describes(Merge(r), contents, keyword, vector)
  {
    hide RunSet, DistinctIds, Candidates, Acceptable, Agrees, BestPlace, BestHit, BestRank, BestScore, Ids;
    contents := Each(r, (c: Candidate) => c.payload.content);
    forall k | 0 <= k < |r|
      ensures Consecutive(r) && GroupOf(r[k]) == GroupOf(r[0])
      ensures r[k].id in Ids(keyword) + Ids(vector) && r[k] == CandidateOf(keyword, vector, r[k].id)
    {
      MemberIs(keyword, vector, r, k);
    }
    TextsOfRun(keyword, vector, r, contents);
    BestPlaceIs(KeywordRanks(r), RunIds(r), keyword);
    BestPlaceIs(VectorRanks(r), RunIds(r), vector);
    BestHitIs(Each(r, (c: Candidate) => c.keywordScore), RunIds(r), keyword);
    BestHitIs(Each(r, (c: Candidate) => c.vectorScore), RunIds(r), vector);
  }

  // --- The order of an answer ---

  function Best(f: Fragment): nat {
    match (f.keywordRank, f.vectorRank)
    case (Some(k), Some(v)) => if k <= v then k else v
    case (Some(k), None) => k
    case (None, Some(v)) => v
    case (None, None) => 0
  }

  /**
    * The first does not stand below the second: scores decide, then the better rank, the document, the place in it, and
    * the identities.
    */
  predicate Leads(a: Fragment, b: Fragment) {
    && a.score >= b.score
    && (a.score == b.score ==> Best(a) <= Best(b))
    && (a.score == b.score && Best(a) == Best(b) ==> a.document == b.document || StringLess(a.document, b.document))
    && (a.score == b.score && Best(a) == Best(b) && a.document == b.document && a.indexes != [] && b.indexes != [] ==>
          a.indexes[0] < b.indexes[0] || (a.indexes[0] == b.indexes[0] && StringsLess(a.ids, b.ids)))
  }

  lemma LessLeads(a: Fragment, b: Fragment)
    requires FragmentLess(a, b)
    ensures Leads(a, b)
  {
    hide StringLess, StringsLess;
    StringsAreOrdered();
    BestIs(a);
    BestIs(b);
    hide BestRank, Best;
  }

  lemma BestIs(f: Fragment)
    ensures KeyOf(f).best == Best(f)
  {
    assert f.keywordRank in [f.keywordRank, f.vectorRank] && f.vectorRank in [f.keywordRank, f.vectorRank];
  }

  /** Texts are compared by their first difference; a proper prefix comes first. */
  lemma {:induction false} TextsCompare(p: string, x: char, y: char, a: string, b: string)
    requires x < y
    ensures StringLess(p + [x] + a, p + [y] + b) && StringLess(p, p + [y] + b)
    decreases |p|
  {
    if p != [] {
      TextsCompare(p[1..], x, y, a, b);
      assert (p + [x] + a)[1..] == p[1..] + [x] + a && (p + [y] + b)[1..] == p[1..] + [y] + b;
    }
  }

  // --- What is returned, and what is left out ---

  ghost predicate SomeFragment(f: Fragment, keyword: seq<Hit>, vector: seq<Hit>) {
    exists contents :: Describes(f, contents, keyword, vector)
  }

  // A fragment with the chunk that every returned fragment leads.
  ghost predicate LeftOut(answer: seq<Fragment>, keyword: seq<Hit>, vector: seq<Hit>, id: string) {
    exists g :: SomeFragment(g, keyword, vector) && id in g.ids && forall i :: 0 <= i < |answer| ==> Leads(answer[i], g)
  }

  predicate Returned(answer: seq<Fragment>, id: string) {
    exists i :: 0 <= i < |answer| && id in answer[i].ids
  }

  /**
    * At most topK fragments, each about the hits, in order, without a chunk in two of them; every chunk that was found
    * is in one of them, or in a fragment that all of them lead because there are topK already.
    */
  ghost predicate Answers(answer: seq<Fragment>, keyword: seq<Hit>, vector: seq<Hit>, topK: nat) {
    && |answer| <= topK
    && (forall i :: 0 <= i < |answer| ==> SomeFragment(answer[i], keyword, vector))
    && (forall i, j :: 0 <= i < j < |answer| ==> Leads(answer[i], answer[j]) && Disjoint(answer[i].ids, answer[j].ids))
    && forall id :: id in Ids(keyword) + Ids(vector) ==>
         Returned(answer, id) || (|answer| == topK && LeftOut(answer, keyword, vector, id))
  }

  predicate Disjoint(a: seq<string>, b: seq<string>) {
    forall id :: id in a ==> id !in b
  }

  lemma FragmentsApart(cs: set<Candidate>, r: Run, q: Run)
    requires DistinctIds(cs) && r in RunSet(cs) && q in RunSet(cs) && Merge(r) != Merge(q)
    ensures Disjoint(Merge(r).ids, Merge(q).ids)
  {
    hide RunSet;
    forall id | id in RunIds(r)
      ensures id !in RunIds(q)
    {
      var k :| 0 <= k < |r| && RunIds(r)[k] == id;
      if id in RunIds(q) {
        var m :| 0 <= m < |q| && RunIds(q)[m] == id;
        var g, i := RunHasGroup(cs, r);
        var h, j := RunHasGroup(cs, q);
        assert r[k] in r && q[m] in q;
        RunsApart(cs, r, q, r[k]);
      }
    }
  }

  lemma RunLeads(keyword: seq<Hit>, vector: seq<Hit>, topK: nat, id: string) returns (g: Fragment)
    requires Acceptable(keyword, vector) && DistinctIds(Candidates(keyword, vector))
    requires id in Ids(keyword) + Ids(vector)
    ensures g in Fragments(Candidates(keyword, vector)) && id in g.ids && SomeFragment(g, keyword, vector)
  {
    var cs := Candidates(keyword, vector);
    var c := CandidateOf(keyword, vector, id);
    hide RunSet, DistinctIds, Describes, Acceptable, CandidateOf;
    assert c in cs;
    var r := RunsCover(cs, c);
    var k :| 0 <= k < |r| && r[k] == c;
    CandidateIs(keyword, vector, c);
    var contents := RunDescribed(keyword, vector, r);
    g := Merge(r);
    assert RunIds(r)[k] == r[k].id;
    SameId(keyword, vector, id);
  }

  lemma SameId(keyword: seq<Hit>, vector: seq<Hit>, id: string)
    requires id in Ids(keyword) + Ids(vector)
    ensures CandidateOf(keyword, vector, id).id == id
  {
  }

  lemma FragmentHasRun(cs: set<Candidate>, f: Fragment) returns (r: Run)
    requires DistinctIds(cs) && f in Fragments(cs)
    ensures r in RunSet(cs) && Merge(r) == f
  {
    hide RunSet, Merge;
    r :| r in RunSet(cs) && Merge(r) == f;
  }

  lemma FusedIsAscending(cs: set<Candidate>, topK: nat, i: nat, j: nat)
    requires DistinctIds(cs) && i < j < |Fused(cs, topK)|
    ensures Fused(cs, topK)[i] in Fragments(cs) && Fused(cs, topK)[j] in Fragments(cs)
    ensures FragmentLess(Fused(cs, topK)[i], Fused(cs, topK)[j]) && Fused(cs, topK)[i] != Fused(cs, topK)[j]
  {
    hide FragmentLess, Fragments;
    FragmentOrder(cs);
    var list := Ordered(cs);
    assert list[i] in list && list[j] in list;
    assert Fused(cs, topK)[i] == list[i] && Fused(cs, topK)[j] == list[j];
  }

  lemma FusedMember(cs: set<Candidate>, topK: nat, i: nat)
    requires DistinctIds(cs) && i < |Fused(cs, topK)|
    ensures Fused(cs, topK)[i] in Fragments(cs)
  {
    hide FragmentLess, Fragments;
    var list := Ordered(cs);
    assert list[i] in list;
  }

  lemma FusedIsAll(cs: set<Candidate>, topK: nat, g: Fragment)
    requires DistinctIds(cs) && g in Fragments(cs) && |Fused(cs, topK)| < topK
    ensures g in Fused(cs, topK)
  {
    hide FragmentLess, Fragments;
    var list := Ordered(cs);
    assert Fused(cs, topK) == list;
  }

  /** The fused answer of any acceptable channels. */
  lemma FusedAnswers(keyword: seq<Hit>, vector: seq<Hit>, topK: nat)
    requires Acceptable(keyword, vector) && DistinctIds(Candidates(keyword, vector))
    ensures Answers(Fused(Candidates(keyword, vector), topK), keyword, vector, topK)
  {
    var cs := Candidates(keyword, vector);
    var answer := Fused(cs, topK);
    hide RunSet, DistinctIds, Candidates, Acceptable, Describes, Fused, Fragments, FragmentLess, Merge, Disjoint, Leads;
    FusedIsPrefix(cs, topK);
    forall i | 0 <= i < |answer|
      ensures SomeFragment(answer[i], keyword, vector)
    {
      FusedMember(cs, topK, i);
      var r := FragmentHasRun(cs, answer[i]);
      var contents := RunDescribed(keyword, vector, r);
    }
    forall i, j | 0 <= i < j < |answer|
      ensures Leads(answer[i], answer[j]) && Disjoint(answer[i].ids, answer[j].ids)
    {
      FusedIsAscending(cs, topK, i, j);
      LessLeads(answer[i], answer[j]);
      var r := FragmentHasRun(cs, answer[i]);
      var q := FragmentHasRun(cs, answer[j]);
      FragmentsApart(cs, r, q);
    }
    forall id | id in Ids(keyword) + Ids(vector)
      ensures Returned(answer, id) || (|answer| == topK && LeftOut(answer, keyword, vector, id))
    {
      var g := RunLeads(keyword, vector, topK, id);
      if g !in answer {
        if |answer| < topK {
          FusedIsAll(cs, topK, g);
        }
        forall i | 0 <= i < |answer|
          ensures Leads(answer[i], g)
        {
          assert answer[i] in answer;
          LessLeads(answer[i], g);
        }
      }
    }
  }

  /** No hit that is left out was worth more than what is returned: not even the last of it. */
  lemma NothingBetterLeftOut(answer: seq<Fragment>, keyword: seq<Hit>, vector: seq<Hit>, topK: nat, i: nat, j: nat)
    requires Answers(answer, keyword, vector, topK) && j < |answer|
    ensures i < |keyword| && !Returned(answer, keyword[i].id) ==> answer[j].score >= 1.0 / ((61 + i) as real)
    ensures i < |vector| && !Returned(answer, vector[i].id) ==> answer[j].score >= 1.0 / ((61 + i) as real)
  {
    if i < |keyword| && !Returned(answer, keyword[i].id) {
      var g, contents :| Describes(g, contents, keyword, vector) && keyword[i].id in g.ids && Leads(answer[j], g);
      PlaceIsWorth(g.keywordRank, keyword, g.ids, i);
      WorthIsPositive(g.vectorRank);
    }
    if i < |vector| && !Returned(answer, vector[i].id) {
      var g, contents :| Describes(g, contents, keyword, vector) && vector[i].id in g.ids && Leads(answer[j], g);
      PlaceIsWorth(g.vectorRank, vector, g.ids, i);
      WorthIsPositive(g.keywordRank);
    }
  }

  lemma PlaceIsWorth(rank: Option<nat>, hits: seq<Hit>, ids: seq<string>, i: nat)
    requires BestPlace(rank, hits, ids) && i < |hits| && hits[i].id in ids
    ensures Worth(rank) >= 1.0 / ((61 + i) as real)
  {
    assert hits[i] in hits;
    BetterRankScoresMore(rank.value, i + 1);
  }

  lemma WorthIsPositive(rank: Option<nat>)
    ensures Worth(rank) >= 0.0
  {
    if rank.Some? {
      BetterRankScoresMore(rank.value, rank.value);
    }
  }

  /**
    * The whole fusion: a bad topK or the first faulty hit refuses it; otherwise it returns the best fragments of the
    * hits, best first, whatever order the tables are walked in.
    */
  method Fuse(keyword: seq<Hit>, vector: seq<Hit>, topK: int) returns (r: Result<seq<Fragment>, Fault>)
    ensures !(1 <= topK <= MAX_TOP_K) ==> r == Err(BadTopK)
    ensures 1 <= topK <= MAX_TOP_K ==> (r.Ok? <==> Acceptable(keyword, vector))
    ensures 1 <= topK <= MAX_TOP_K && r.Err? ==> exists i :: IsFirstFault(keyword, vector, i, r.error)
    ensures r.Ok? ==> Answers(r.value, keyword, vector, topK)
    ensures r.Ok? ==> DistinctIds(Candidates(keyword, vector)) && r.value == Fused(Candidates(keyword, vector), topK)
  {
    hide FaultAt, FragmentLess, Candidates, CandidateTable, Consistent, Fragments, DistinctIds, Acceptable, Answers;
    FusableIff(keyword, vector);
    if !(1 <= topK <= MAX_TOP_K) {
      return Err(BadTopK);
    }
    var candidates := Collect(keyword, vector);
    if candidates.Err? {
      return Err(candidates.error);
    }
    CandidatesAreDistinct(keyword, vector);
    TableValues(keyword, vector);
    var merged := MergeAdjacent(candidates.value);
    FragmentOrder(Candidates(keyword, vector));
    var ordered := Sort(merged, FragmentLess);
    FusedAnswers(keyword, vector, topK);
    r := Ok(ordered[..if topK < |ordered| then topK else |ordered|]);
  }
}
