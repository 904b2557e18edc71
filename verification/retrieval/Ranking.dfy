/** Reciprocal-rank scores, the total order of results, and the fused answer. */
module Ranking {
  import opened Wrappers
  import opened Ordering
  import opened Hybrid
  import opened Fusion
  import Text

  // --- Scores ---

  function Share(rank: Option<nat>): real {
    if rank.None? then 0.0 else 1.0 / ((RANK_CONSTANT + rank.value) as real)
  }

  function Rrf(keyword: Option<nat>, vector: Option<nat>): real {
    Share(keyword) + Share(vector)
  }

  function BestRank(ranks: seq<Option<nat>>): (best: Option<nat>)
    ensures best.None? <==> forall r :: r in ranks ==> r.None?
    ensures best.Some? ==> best in ranks && forall r :: r in ranks && r.Some? ==> best.value <= r.value
  {
    if ranks == [] then None
    else
      var before := BestRank(ranks[1..]);
      assert ranks == [ranks[0]] + ranks[1..];
      if before.None? || (ranks[0].Some? && ranks[0].value <= before.value) then ranks[0] else before
  }

  function BestScore(scores: seq<Option<real>>): (best: Option<real>)
    ensures best.None? <==> forall s :: s in scores ==> s.None?
    ensures best.Some? ==> best in scores && forall s :: s in scores && s.Some? ==> s.value <= best.value
  {
    if scores == [] then None
    else
      var before := BestScore(scores[1..]);
      assert scores == [scores[0]] + scores[1..];
      if before.None? || (scores[0].Some? && scores[0].value >= before.value) then scores[0] else before
  }

  function Each<T>(run: Run, f: Candidate -> T): (values: seq<T>)
    ensures |values| == |run| && forall i :: 0 <= i < |run| ==> values[i] == f(run[i])
  {
    seq(|run|, i requires 0 <= i < |run| => f(run[i]))
  }

  function KeywordRanks(run: Run): seq<Option<nat>> {
    Each(run, (c: Candidate) => c.keywordRank)
  }

  function VectorRanks(run: Run): seq<Option<nat>> {
    Each(run, (c: Candidate) => c.vectorRank)
  }

  function RunIds(run: Run): (ids: seq<string>)
    ensures |ids| == |run| && forall i :: 0 <= i < |run| ==> ids[i] == run[i].id
  {
    Each(run, (c: Candidate) => c.id)
  }

  /**
    * A run becomes one fragment: texts and identities in order, the best of each channel, and the score of the best
    * ranks.
    */
  function Merge(run: Run): Fragment
    requires run != []
  {
    var first := run[0].payload;
    var keyword, vector := BestRank(KeywordRanks(run)), BestRank(VectorRanks(run));
    Fragment(RunIds(run), first.document, first.name, first.version,
             Each(run, (c: Candidate) => c.payload.index), first.path,
             Text.Join("\n\n", Each(run, (c: Candidate) => c.payload.content)),
             Each(run, (c: Candidate) => c.payload.hash),
             BestScore(Each(run, (c: Candidate) => c.keywordScore)),
             BestScore(Each(run, (c: Candidate) => c.vectorScore)),
             keyword, vector, Rrf(keyword, vector))
  }

  lemma BetterRankScoresMore(a: nat, b: nat)
    requires a <= b
    ensures 1.0 / ((RANK_CONSTANT + a) as real) >= 1.0 / ((RANK_CONSTANT + b) as real) > 0.0
  {
    var x, y := (RANK_CONSTANT + a) as real, (RANK_CONSTANT + b) as real;
    assert 1.0 / x - 1.0 / y == (y - x) / (x * y);
  }

  lemma BestShare(ranks: seq<Option<nat>>, i: nat)
    requires i < |ranks|
    ensures Share(BestRank(ranks)) >= Share(ranks[i]) >= 0.0
  {
    assert ranks[i] in ranks;
    var best := BestRank(ranks);
    hide BestRank;
    if ranks[i].Some? {
      BetterRankScoresMore(BestRank(ranks).value, ranks[i].value);
    } else if BestRank(ranks).Some? {
      BetterRankScoresMore(BestRank(ranks).value, BestRank(ranks).value);
    }
  }

  /** A run scores at least as much as each of its members would alone. */
  lemma RunScoresMost(run: Run, i: nat)
    requires i < |run|
    ensures Merge(run).score >= Rrf(run[i].keywordRank, run[i].vectorRank)
  {
    hide BestRank;
    BestShare(KeywordRanks(run), i);
    BestShare(VectorRanks(run), i);
  }

  // --- The order of results ---

  datatype SortKey = SortKey(score: real, best: nat, document: string, first: int, ids: seq<string>)

  function KeyOf(f: Fragment): SortKey {
    var best := BestRank([f.keywordRank, f.vectorRank]);
    SortKey(f.score, if best.Some? then best.value else 0, f.document, if f.indexes == [] then 0
            else f.indexes[0], f.ids)
  }

  // Higher scores first; then the better rank, the document, the place in it, and the identities.
  predicate KeyLess(a: SortKey, b: SortKey) {
    a.score > b.score
    || (a.score == b.score
        && (a.best < b.best
            || (a.best == b.best
                && (StringLess(a.document, b.document)
                    || (a.document == b.document
                        && (a.first < b.first || (a.first == b.first && StringsLess(a.ids, b.ids))))))))
  }

  /** The sort key is a strict total order. */
  lemma KeysAreOrdered()
    ensures Total(KeyLess)
  {
    hide StringLess, StringsLess;
    StringsAreOrdered();
    forall a: SortKey, b: SortKey, c: SortKey | KeyLess(a, b) && KeyLess(b, c)
      ensures KeyLess(a, c)
    {
    }
    forall a: SortKey, b: SortKey
      ensures !KeyLess(a, a) && (a == b || KeyLess(a, b) || KeyLess(b, a))
    {
    }
  }

  predicate FragmentLess(a: Fragment, b: Fragment) {
    KeyLess(KeyOf(a), KeyOf(b))
  }

  ghost function Fragments(cs: set<Candidate>): set<Fragment>
    requires DistinctIds(cs)
  {
    set r | r in RunSet(cs) :: Merge(r)
  }

  /** Different runs have different identities, so their fragments differ. */
  lemma MergeIsInjective(cs: set<Candidate>, r: Run, q: Run)
    requires DistinctIds(cs) && r in RunSet(cs) && q in RunSet(cs) && Merge(r).ids == Merge(q).ids
    ensures r == q
  {
    hide RunSet;
    var g, i := RunHasGroup(cs, r);
    var h, j := RunHasGroup(cs, q);
    assert r[0] in r && q[0] in q && RunIds(r)[0] == RunIds(q)[0];
    RunsApart(cs, r, q, r[0]);
  }

  lemma FragmentOrder(cs: set<Candidate>)
    requires DistinctIds(cs)
    ensures Strict(FragmentLess) && Connects(FragmentLess, Fragments(cs))
  {
    hide KeyLess, RunSet;
    KeysAreOrdered();
    forall a, b | a in Fragments(cs) && b in Fragments(cs)
      ensures a == b || FragmentLess(a, b) || FragmentLess(b, a)
    {
      var r :| r in RunSet(cs) && Merge(r) == a;
      var q :| q in RunSet(cs) && Merge(q) == b;
      if KeyOf(a) == KeyOf(b) {
        assert a.ids == KeyOf(a).ids == b.ids;
        MergeIsInjective(cs, r, q);
      }
    }
  }

  // --- The fused answer ---

  function Min(a: nat, b: nat): nat {
    if a < b then a else b
  }

  /** All fragments in their order. */
  ghost function Ordered(cs: set<Candidate>): (list: seq<Fragment>)
    requires DistinctIds(cs)
    ensures IsListing(list, Fragments(cs), FragmentLess)
  {
    FragmentOrder(cs);
    Listing(Fragments(cs), FragmentLess)
  }

  ghost function Fused(cs: set<Candidate>, topK: nat): seq<Fragment>
    requires DistinctIds(cs)
  {
    Ordered(cs)[..Min(topK, |Ordered(cs)|)]
  }

  /** The candidates of two channels. */
  function Candidates(keyword: seq<Hit>, vector: seq<Hit>): set<Candidate> {
    set id | id in Ids(keyword) + Ids(vector) :: CandidateOf(keyword, vector, id)
  }

  lemma CandidatesAreDistinct(keyword: seq<Hit>, vector: seq<Hit>)
    ensures DistinctIds(Candidates(keyword, vector))
  {
  }

  lemma {:induction false} ImageSize(cs: set<Candidate>, runs: set<Run>)
    requires DistinctIds(cs) && runs <= RunSet(cs)
    ensures |set r | r in runs :: Merge(r)| == |runs|
    decreases runs
  {
    hide RunSet;
    if r :| r in runs {
      var rest := runs - {r};
      ImageSize(cs, rest);
      var image := set q | q in rest :: Merge(q);
      if Merge(r) in image {
        var q :| q in rest && Merge(q) == Merge(r);
        MergeIsInjective(cs, r, q);
      }
      assert (set q | q in runs :: Merge(q)) == image + {Merge(r)};
    }
  }

  /** The answer is the best min(topK, runs) fragments: every one left out comes after every one returned. */
  lemma FusedIsPrefix(cs: set<Candidate>, topK: nat)
    requires DistinctIds(cs)
    ensures |Fused(cs, topK)| == Min(topK, |RunSet(cs)|) && Ascending(Fused(cs, topK), FragmentLess)
    ensures forall f, g :: f in Fused(cs, topK) && g in Fragments(cs) && g !in Fused(cs, topK) ==> FragmentLess(f, g)
  {
    hide RunSet, FragmentLess, Merge;
    FragmentOrder(cs);
    ListingLength(Ordered(cs), Fragments(cs), FragmentLess);
    ImageSize(cs, RunSet(cs));
    var list := Ordered(cs);
    var n := Min(topK, |list|);
    forall f, g | f in list[..n] && g in Fragments(cs) && g !in list[..n]
      ensures FragmentLess(f, g)
    {
      var i :| 0 <= i < n && list[i] == f;
      var j :| 0 <= j < |list| && list[j] == g;
      assert forall k :: 0 <= k < n ==> list[..n][k] == list[k];
    }
  }

  // --- The fusion, step by step ---

  // Candidates by document and section, in any order of the table.
  method GroupCandidates(candidates: map<string, Candidate>) returns (grouped: map<Group, set<Candidate>>)
    ensures grouped.Keys == Groups(candidates.Values)
    ensures forall g :: g in grouped ==> grouped[g] == Members(candidates.Values, g)
  {
    grouped := map[];
    var rest := candidates.Keys;
    ghost var done: set<Candidate> := {};
    while rest != {}
      invariant rest <= candidates.Keys && done == set id | id in candidates.Keys - rest :: candidates[id]
      invariant grouped.Keys == Groups(done) && forall g :: g in grouped ==> grouped[g] == Members(done, g)
      decreases rest
    {
      var id :| id in rest;
      var c := candidates[id];
      var g := GroupOf(c);
      GroupAdded(done, c);
      grouped := grouped[g := (if g in grouped then grouped[g] else {}) + {c}];
      done := done + {c};
      rest := rest - {id};
    }
    assert done == candidates.Values;
  }

  lemma GroupAdded(cs: set<Candidate>, c: Candidate)
    ensures Groups(cs + {c}) == Groups(cs) + {GroupOf(c)}
    ensures forall g :: Members(cs + {c}, g) == if g == GroupOf(c) then Members(cs, g) + {c} else Members(cs, g)
    ensures GroupOf(c) !in Groups(cs) ==> Members(cs, GroupOf(c)) == {}
  {
  }

  // The fragments of the groups handled so far.
  ghost function FragmentsOf(cs: set<Candidate>, gs: set<Group>): set<Fragment>
    requires DistinctIds(cs) && gs <= Groups(cs)
  {
    set g, r | g in gs && r in Runs(InOrder(cs, g)) :: Merge(r)
  }

  lemma AllFragments(cs: set<Candidate>)
    requires DistinctIds(cs)
    ensures FragmentsOf(cs, Groups(cs)) == Fragments(cs)
  {
    forall f | f in Fragments(cs)
      ensures f in FragmentsOf(cs, Groups(cs))
    {
      var r :| r in RunSet(cs) && Merge(r) == f;
      var g, i := RunHasGroup(cs, r);
    }
    forall f | f in FragmentsOf(cs, Groups(cs))
      ensures f in Fragments(cs)
    {
      var g, r :| g in Groups(cs) && r in Runs(InOrder(cs, g)) && Merge(r) == f;
      assert r in RunSet(cs);
    }
  }

  /** Adjacent fragments merge group by group; the groups may come in any order. */
  method MergeAdjacent(candidates: map<string, Candidate>) returns (merged: set<Fragment>)
    requires DistinctIds(candidates.Values)
    ensures merged == Fragments(candidates.Values)
  {
    ghost var cs := candidates.Values;
    hide DistinctIds, Runs, Merge, CandidateLess;
    var grouped := GroupCandidates(candidates);
    merged := {};
    var rest := grouped.Keys;
    while rest != {}
      invariant rest <= grouped.Keys && merged == FragmentsOf(cs, grouped.Keys - rest)
      decreases rest
    {
      var g :| g in rest;
      MembersAreOrdered(cs, g);
      var ordered := Sort(grouped[g], CandidateLess);
      assert ordered == InOrder(cs, g);
      var runs := SplitRuns(ordered);
      var here := MergeRuns(runs);
      FragmentsAdded(cs, grouped.Keys - rest, g);
      merged := merged + here;
      rest := rest - {g};
      assert grouped.Keys - rest == grouped.Keys - (rest + {g}) + {g};
    }
    AllFragments(cs);
  }

  lemma MembersAreOrdered(cs: set<Candidate>, g: Group)
    requires DistinctIds(cs)
    ensures Strict(CandidateLess) && Connects(CandidateLess, Members(cs, g))
  {
    CandidateOrder(Members(cs, g));
  }

  lemma FragmentsAdded(cs: set<Candidate>, gs: set<Group>, g: Group)
    requires DistinctIds(cs) && gs + {g} <= Groups(cs)
    ensures FragmentsOf(cs, gs + {g}) == FragmentsOf(cs, gs) + set r | r in Runs(InOrder(cs, g)) :: Merge(r)
  {
  }

  method MergeRuns(runs: seq<Run>) returns (merged: set<Fragment>)
    requires forall i :: 0 <= i < |runs| ==> runs[i] != []
    ensures merged == set r | r in runs :: Merge(r)
  {
    hide Merge;
    merged := {};
    for i := 0 to |runs|
      invariant merged == set r | r in runs[..i] :: Merge(r)
    {
      assert runs[..i + 1] == runs[..i] + [runs[i]];
      merged := merged + {Merge(runs[i])};
    }
    assert runs[..|runs|] == runs;
  }

  lemma TableValues(keyword: seq<Hit>, vector: seq<Hit>)
    ensures CandidateTable(keyword, vector).Values == Candidates(keyword, vector)
  {
    var table := CandidateTable(keyword, vector);
    hide CandidateOf, Ids;
    forall c | c in table.Values
      ensures c in Candidates(keyword, vector)
    {
      var id :| id in table && table[id] == c;
    }
    forall c | c in Candidates(keyword, vector)
      ensures c in table.Values
    {
      var id :| id in Ids(keyword) + Ids(vector) && CandidateOf(keyword, vector, id) == c;
      assert table[id] in table.Values;
    }
  }

  // --- Repeated hits ---

  lemma SameCandidate(keyword: seq<Hit>, vector: seq<Hit>, hit: Hit, id: string)
    requires id in Ids(keyword) + Ids(vector)
    ensures hit.id in Ids(keyword) ==>
            Ids(keyword + [hit]) == Ids(keyword)
            && CandidateOf(keyword + [hit], vector, id) == CandidateOf(keyword, vector, id)
    ensures hit.id in Ids(vector) ==>
            Ids(vector + [hit]) == Ids(vector)
            && CandidateOf(keyword, vector + [hit], id) == CandidateOf(keyword, vector, id)
  {
    hide FirstIndex;
    if hit.id in Ids(keyword) {
      IdsAppend(keyword, hit);
      FirstIndexAppend(keyword, hit, id);
    }
    if hit.id in Ids(vector) {
      IdsAppend(vector, hit);
      FirstIndexAppend(vector, hit, id);
    }
  }

  /** A chunk repeated further down a channel changes nothing: only its first rank there counts. */
  lemma RepeatedHitIsIgnored(keyword: seq<Hit>, vector: seq<Hit>, hit: Hit)
    ensures hit.id in Ids(keyword) ==> Candidates(keyword + [hit], vector) == Candidates(keyword, vector)
    ensures hit.id in Ids(vector) ==> Candidates(keyword, vector + [hit]) == Candidates(keyword, vector)
  {
    hide CandidateOf, Ids;
    IdsAppend(keyword, hit);
    IdsAppend(vector, hit);
    forall id | id in Ids(keyword) + Ids(vector)
      ensures hit.id in Ids(keyword) ==>
              Ids(keyword + [hit]) == Ids(keyword)
              && CandidateOf(keyword + [hit], vector, id) == CandidateOf(keyword, vector, id)
      ensures hit.id in Ids(vector) ==>
              Ids(vector + [hit]) == Ids(vector)
              && CandidateOf(keyword, vector + [hit], id) == CandidateOf(keyword, vector, id)
    {
      SameCandidate(keyword, vector, hit, id);
    }
  }
}
