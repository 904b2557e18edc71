/**
  * Adjacent candidates merge into runs: the candidates of one document and one section with consecutive indices. A
  * loop with one open run splits the sorted candidates; the runs partition them and are maximal.
  */
module Fusion {
  import opened Ordering
  import opened Hybrid
  import Text

  // --- Candidates in document order ---

  datatype Group = Group(document: string, path: seq<string>)

  function GroupOf(c: Candidate): Group {
    Group(c.payload.document, c.payload.path)
  }

  function Index(c: Candidate): int {
    c.payload.index
  }

  predicate CandidateLess(a: Candidate, b: Candidate) {
    Index(a) < Index(b) || (Index(a) == Index(b) && StringLess(a.id, b.id))
  }

  ghost predicate DistinctIds(cs: set<Candidate>) {
    forall a, b :: a in cs && b in cs && a.id == b.id ==> a == b
  }

  lemma CandidateOrder(cs: set<Candidate>)
    requires DistinctIds(cs)
    ensures Strict(CandidateLess) && Connects(CandidateLess, cs)
  {
    hide StringLess;
    StringsAreOrdered();
  }

  function Groups(cs: set<Candidate>): set<Group> {
    set c | c in cs :: GroupOf(c)
  }

  function Members(cs: set<Candidate>, g: Group): set<Candidate> {
    set c | c in cs && GroupOf(c) == g
  }

  // The candidates of one document and section, by index and then by identity.
  ghost function InOrder(cs: set<Candidate>, g: Group): (list: seq<Candidate>)
    requires DistinctIds(cs)
    ensures IsListing(list, Members(cs, g), CandidateLess)
  {
    CandidateOrder(Members(cs, g));
    Listing(Members(cs, g), CandidateLess)
  }

  // --- Runs ---

  type Run = seq<Candidate>

  predicate Continues(run: Run, c: Candidate) {
    run != [] && Index(c) == Index(run[|run| - 1]) + 1
  }

  /** The maximal stretches of a list in which every index follows the one before. */
  function Runs(list: seq<Candidate>): (runs: seq<Run>)
    ensures forall i :: 0 <= i < |runs| ==> runs[i] != []
    ensures list != [] ==> runs != []
    decreases |list|
  {
    if list == [] then []
    else
      var before := Runs(list[..|list| - 1]);
      var c := list[|list| - 1];
      if before != [] && Continues(before[|before| - 1], c)
      then before[..|before| - 1] + [before[|before| - 1] + [c]]
      else before + [[c]]
  }

  predicate Consecutive(run: Run) {
    run != [] && forall i :: 0 <= i < |run| ==> Index(run[i]) == Index(run[0]) + i
  }

  function Flatten(runs: seq<Run>): seq<Candidate> {
    if runs == [] then [] else Flatten(runs[..|runs| - 1]) + runs[|runs| - 1]
  }

  /** Runs lose, repeat and reorder nothing. */
  lemma {:induction false} RunsFlatten(list: seq<Candidate>)
    ensures Flatten(Runs(list)) == list
    decreases |list|
  {
    if list != [] {
      var n := |list| - 1;
      RunsFlatten(list[..n]);
      var before := Runs(list[..n]);
      assert list == list[..n] + [list[n]];
      if before != [] && Continues(before[|before| - 1], list[n]) {
        var last := before[|before| - 1];
        assert Flatten(before) == Flatten(before[..|before| - 1]) + last;
        assert Runs(list)[..|before| - 1] == before[..|before| - 1];
        assert Flatten(Runs(list)) == Flatten(before[..|before| - 1]) + (last + [list[n]]);
        Text.Associative(Flatten(before[..|before| - 1]), last, [list[n]]);
      } else {
        assert Runs(list)[..|before|] == before;
      }
    }
  }

  lemma {:induction false} RunsAreConsecutive(list: seq<Candidate>)
    ensures forall r :: r in Runs(list) ==> Consecutive(r)
    decreases |list|
  {
    if list != [] {
      var n := |list| - 1;
      RunsAreConsecutive(list[..n]);
      var before := Runs(list[..n]);
      forall r | r in Runs(list)
        ensures Consecutive(r)
      {
        if r !in before && before != [] && Continues(before[|before| - 1], list[n]) {
          assert before[|before| - 1] in before;
          assert r == before[|before| - 1] + [list[n]];
        }
      }
    }
  }

  // No run could be joined to the next.
  predicate Broken(runs: seq<Run>) {
    && (forall i :: 0 <= i < |runs| ==> runs[i] != [])
    && forall i :: 0 < i < |runs| ==> !Continues(runs[i - 1], runs[i][0])
  }

  lemma {:induction false} RunsAreBroken(list: seq<Candidate>)
    ensures Broken(Runs(list))
    decreases |list|
  {
    if list != [] {
      var n := |list| - 1;
      RunsAreBroken(list[..n]);
      var before := Runs(list[..n]);
      var runs := Runs(list);
      forall i | 0 < i < |runs|
        ensures !Continues(runs[i - 1], runs[i][0])
      {
        assert runs[i - 1] == before[i - 1];
        assert i < |before| ==> runs[i][0] == before[i][0];
      }
    }
  }

  lemma {:induction false} FlattenMember(runs: seq<Run>, c: Candidate)
    ensures c in Flatten(runs) <==> exists r :: r in runs && c in r
    decreases |runs|
  {
    if runs != [] {
      FlattenMember(runs[..|runs| - 1], c);
      var last := runs[|runs| - 1];
      assert forall r :: r in runs <==> r in runs[..|runs| - 1] || r == last;
    }
  }

  // Flattening in ascending order keeps runs apart and in order.
  lemma {:induction false} FlattenApart(runs: seq<Run>, i: nat, j: nat, a: Candidate, b: Candidate)
    requires Ascending(Flatten(runs), CandidateLess) && i < j < |runs| && a in runs[i] && b in runs[j]
    ensures CandidateLess(a, b)
    decreases |runs|
  {
    var n := |runs| - 1;
    var front := Flatten(runs[..n]);
    assert Flatten(runs) == front + runs[n];
    if j < n {
      AscendingPrefix(front, runs[n]);
      FlattenApart(runs[..n], i, j, a, b);
    } else {
      FlattenMember(runs[..n], a);
      assert runs[i] == runs[..n][i];
      assert a in front;
      var x :| 0 <= x < |front| && front[x] == a;
      var y :| 0 <= y < |runs[n]| && runs[n][y] == b;
      assert (front + runs[n])[x] == a && (front + runs[n])[|front| + y] == b;
    }
  }

  lemma AscendingPrefix(a: seq<Candidate>, b: seq<Candidate>)
    requires Ascending(a + b, CandidateLess)
    ensures Ascending(a, CandidateLess) && Ascending(b, CandidateLess)
  {
    forall i, j | 0 <= i < j < |a|
      ensures CandidateLess(a[i], a[j])
    {
      assert (a + b)[i] == a[i] && (a + b)[j] == a[j];
    }
    forall i, j | 0 <= i < j < |b|
      ensures CandidateLess(b[i], b[j])
    {
      assert (a + b)[|a| + i] == b[i] && (a + b)[|a| + j] == b[j];
    }
  }

  lemma RunsExtend(list: seq<Candidate>, runs: seq<Run>, open: Run, c: Candidate)
    requires Runs(list) == runs + [open] && open != []
    ensures Runs(list + [c]) == if Continues(open, c) then runs + [open + [c]] else runs + [open] + [[c]]
  {
    assert (list + [c])[..|list|] == list;
    assert (runs + [open])[..|runs|] == runs;
  }

  lemma FirstRun(c: Candidate)
    ensures Runs([c]) == [] + [[c]]
  {
    assert [c][..0] == [];
  }

  lemma NoRuns()
    ensures Runs([]) == []
  {
  }

  /** The loop that splits an ordered group, as one pass with the open run. */
  method SplitRuns(ordered: seq<Candidate>) returns (runs: seq<Run>)
    ensures runs == Runs(ordered)
  {
    NoRuns();
    hide Runs;
    runs := [];
    var adjacent: Run := [];
    for i := 0 to |ordered|
      invariant if adjacent == [] then i == 0 && runs == [] else Runs(ordered[..i]) == runs + [adjacent]
    {
      var c := ordered[i];
      assert ordered[..i + 1] == ordered[..i] + [c];
      if adjacent != [] {
        RunsExtend(ordered[..i], runs, adjacent, c);
      } else {
        assert ordered[..i + 1] == [c];
        FirstRun(c);
      }
      if adjacent != [] && Index(c) != Index(adjacent[|adjacent| - 1]) + 1 {
        runs := runs + [adjacent];
        adjacent := [];
      }
      assert [] + [c] == [c];
      adjacent := adjacent + [c];
    }
    assert ordered[..|ordered|] == ordered;
    if adjacent != [] {
      runs := runs + [adjacent];
    }
  }

  // --- The runs of a candidate set ---

  /** All runs, over all documents and sections. */
  ghost function RunSet(cs: set<Candidate>): (runs: set<Run>)
    requires DistinctIds(cs)
    ensures forall r :: r in runs ==> r != []
  {
    set g, r | g in Groups(cs) && r in Runs(InOrder(cs, g)) :: r
  }

  lemma RunHasGroup(cs: set<Candidate>, r: Run) returns (g: Group, i: nat)
    requires DistinctIds(cs) && r in RunSet(cs)
    ensures g in Groups(cs) && i < |Runs(InOrder(cs, g))| && Runs(InOrder(cs, g))[i] == r && Consecutive(r)
    ensures forall c :: c in r ==> c in cs && GroupOf(c) == g
  {
    hide Runs;
    g :| g in Groups(cs) && r in Runs(InOrder(cs, g));
    i :| 0 <= i < |Runs(InOrder(cs, g))| && Runs(InOrder(cs, g))[i] == r;
    RunsAreConsecutive(InOrder(cs, g));
    RunsFlatten(InOrder(cs, g));
    forall c | c in r
      ensures c in cs && GroupOf(c) == g
    {
      FlattenMember(Runs(InOrder(cs, g)), c);
      assert c in Members(cs, g);
    }
  }

  lemma RunsAscend(cs: set<Candidate>, g: Group)
    requires DistinctIds(cs)
    ensures Ascending(Flatten(Runs(InOrder(cs, g))), CandidateLess) && Broken(Runs(InOrder(cs, g)))
  {
    RunsFlatten(InOrder(cs, g));
    RunsAreBroken(InOrder(cs, g));
  }

  lemma CandidateIrreflexive(c: Candidate)
    ensures !CandidateLess(c, c)
  {
    StringsAreOrdered();
  }

  /** Every candidate lies in a run. */
  lemma RunsCover(cs: set<Candidate>, c: Candidate) returns (r: Run)
    requires DistinctIds(cs) && c in cs
    ensures r in RunSet(cs) && c in r
  {
    var g := GroupOf(c);
    assert c in Members(cs, g) && g in Groups(cs);
    RunsFlatten(InOrder(cs, g));
    FlattenMember(Runs(InOrder(cs, g)), c);
    r :| r in Runs(InOrder(cs, g)) && c in r;
  }

  /** No candidate lies in two runs. */
  lemma RunsApart(cs: set<Candidate>, r: Run, q: Run, c: Candidate)
    requires DistinctIds(cs) && r in RunSet(cs) && q in RunSet(cs) && c in r && c in q
    ensures r == q
  {
    hide DistinctIds, RunSet, Runs, InOrder, Flatten, Ascending, Consecutive, Broken, CandidateLess;
    var g, i := RunHasGroup(cs, r);
    var h, j := RunHasGroup(cs, q);
    RunsAscend(cs, g);
    CandidateIrreflexive(c);
    var runs := Runs(InOrder(cs, g));
    if i < j {
      FlattenApart(runs, i, j, c, c);
    } else if j < i {
      FlattenApart(runs, j, i, c, c);
    }
  }

  lemma ConsecutiveIsNonEmpty(r: Run)
    requires Consecutive(r)
    ensures r != []
  {
  }

  /** Runs partition the candidates; each has one document, one section and consecutive indices. */
  lemma RunsPartition(cs: set<Candidate>)
    requires DistinctIds(cs)
    ensures forall c :: c in cs <==> exists r :: r in RunSet(cs) && c in r
    ensures forall r, q, c :: r in RunSet(cs) && q in RunSet(cs) && c in r && c in q ==> r == q
    ensures forall r :: r in RunSet(cs) ==> Consecutive(r) && forall c :: c in r ==> GroupOf(c) == GroupOf(r[0])
  {
    hide RunSet, Consecutive;
    forall r | r in RunSet(cs)
      ensures r != [] && Consecutive(r) && forall c :: c in r ==> c in cs && GroupOf(c) == GroupOf(r[0])
    {
      var g, i := RunHasGroup(cs, r);
      ConsecutiveIsNonEmpty(r);
      assert r[0] in r;
    }
    forall c | c in cs
      ensures exists r :: r in RunSet(cs) && c in r
    {
      var r := RunsCover(cs, c);
    }
    forall r, q, c | r in RunSet(cs) && q in RunSet(cs) && c in r && c in q
      ensures r == q
    {
      RunsApart(cs, r, q, c);
    }
  }

  ghost predicate DistinctIndexes(cs: set<Candidate>) {
    forall a, b :: a in cs && b in cs && GroupOf(a) == GroupOf(b) && Index(a) == Index(b) ==> a == b
  }

  /** With distinct indices per section, runs are maximal: none continues another. */
  lemma RunsAreMaximal(cs: set<Candidate>, r: Run, q: Run)
    requires DistinctIds(cs) && DistinctIndexes(cs) && r in RunSet(cs) && q in RunSet(cs) && r != [] && q != []
    requires GroupOf(q[0]) == GroupOf(r[0])
    ensures !Continues(r, q[0])
  {
    hide DistinctIds, RunSet, Runs, InOrder, Flatten, Ascending, StringLess;
    CandidateIrreflexive(q[0]);
    CandidateIrreflexive(r[|r| - 1]);
    var g, i := RunHasGroup(cs, r);
    var h, j := RunHasGroup(cs, q);
    assert r[0] in r && q[0] in q && r[|r| - 1] in r;
    RunsAscend(cs, g);
    var runs := Runs(InOrder(cs, g));
    if j < i {
      FlattenApart(runs, j, i, q[0], r[|r| - 1]);
    } else if i + 1 < j {
      var next := runs[i + 1];
      assert next[0] in next;
      NextCandidate(cs, g, i + 1);
      FlattenApart(runs, i, i + 1, r[|r| - 1], next[0]);
      FlattenApart(runs, i + 1, j, next[0], q[0]);
    }
  }

  lemma NextCandidate(cs: set<Candidate>, g: Group, i: nat)
    requires DistinctIds(cs) && i < |Runs(InOrder(cs, g))|
    ensures var c := Runs(InOrder(cs, g))[i][0];
            c in cs && GroupOf(c) == g
  {
    var runs := Runs(InOrder(cs, g));
    RunsFlatten(InOrder(cs, g));
    assert runs[i] in runs && runs[i][0] in runs[i];
    FlattenMember(runs, runs[i][0]);
    assert runs[i][0] in Members(cs, g);
  }
}
