/**
  * Two ranked channels become candidates: every hit is validated in the order of the scan, and a chunk keeps its first
  * rank and score in each channel.
  */
module Hybrid {
  import opened Wrappers

  const RANK_CONSTANT: nat := 60
  const MAX_TOP_K: nat := 100

  datatype Payload = Payload(
    document: string, name: string, version: string, index: int, path: seq<string>, content: string, hash: string)

  datatype Hit = Hit(id: string, payload: Payload, score: real)

  datatype Candidate = Candidate(
    id: string, payload: Payload, keywordScore: Option<real>, vectorScore: Option<real>,
    keywordRank: Option<nat>, vectorRank: Option<nat>)

  datatype Fragment = Fragment(
    ids: seq<string>, document: string, name: string, version: string, indexes: seq<int>,
    path: seq<string>, content: string, hashes: seq<string>, keywordScore: Option<real>, vectorScore: Option<real>,
    keywordRank: Option<nat>, vectorRank: Option<nat>, score: real)

  datatype Fault = BadTopK | BadHit | BadScore | PayloadConflict

  // --- Validation, in the order of the scan ---

  predicate FitsSchema(hit: Hit) {
    && hit.id != "" && hit.payload.document != "" && hit.payload.index >= 0 && hit.payload.path != []
    && hit.payload.content != "" && hit.payload.hash != ""
  }

  predicate ScoreOk(score: real, keyword: bool) {
    if keyword then score >= 0.0 else -1.0 <= score <= 1.0
  }

  // An earlier hit of either channel names the same chunk with another payload.
  predicate Conflicts(earlier: seq<Hit>, hit: Hit) {
    exists h :: h in earlier && h.id == hit.id && h.payload != hit.payload
  }

  function FaultOf(earlier: seq<Hit>, hit: Hit, keyword: bool): Option<Fault> {
    if !FitsSchema(hit) then Some(BadHit)
    else if !ScoreOk(hit.score, keyword) then Some(BadScore)
    else if Conflicts(earlier, hit) then Some(PayloadConflict)
    else None
  }

  /** The fault of the i-th hit, keyword hits first. */
  function FaultAt(keyword: seq<Hit>, vector: seq<Hit>, i: nat): Option<Fault>
    requires i < |keyword| + |vector|
  {
    FaultOf((keyword + vector)[..i], (keyword + vector)[i], i < |keyword|)
  }

  ghost predicate IsFirstFault(keyword: seq<Hit>, vector: seq<Hit>, i: nat, fault: Fault) {
    && i < |keyword| + |vector| && FaultAt(keyword, vector, i) == Some(fault)
    && forall j :: 0 <= j < i ==> FaultAt(keyword, vector, j).None?
  }

  ghost predicate Fusable(keyword: seq<Hit>, vector: seq<Hit>) {
    forall i :: 0 <= i < |keyword| + |vector| ==> FaultAt(keyword, vector, i).None?
  }

  // --- Candidates: one per chunk, with the first rank of each channel ---

  function FirstIndex(hits: seq<Hit>, id: string): (i: Option<nat>)
    ensures i.Some? ==> i.value < |hits| && hits[i.value].id == id && forall j :: 0 <= j < i.value ==> hits[j].id != id
    ensures i.None? ==> forall j :: 0 <= j < |hits| ==> hits[j].id != id
  {
    if hits == [] then None
    else
      var before := FirstIndex(hits[..|hits| - 1], id);
      if before.Some? then before else if hits[|hits| - 1].id == id then Some(|hits| - 1) else None
  }

  function Ids(hits: seq<Hit>): set<string> {
    set h | h in hits :: h.id
  }

  function RankOf(hits: seq<Hit>, id: string): Option<nat> {
    var i := FirstIndex(hits, id);
    if i.Some? then Some(i.value + 1) else None
  }

  function ScoreOf(hits: seq<Hit>, id: string): Option<real> {
    var i := FirstIndex(hits, id);
    if i.Some? then Some(hits[i.value].score) else None
  }

  function PayloadOf(keyword: seq<Hit>, vector: seq<Hit>, id: string): Payload
    requires id in Ids(keyword) + Ids(vector)
  {
    var i := FirstIndex(keyword, id);
    if i.Some? then keyword[i.value].payload else vector[FirstIndex(vector, id).value].payload
  }

  function CandidateOf(keyword: seq<Hit>, vector: seq<Hit>, id: string): Candidate
    requires id in Ids(keyword) + Ids(vector)
  {
    Candidate(id, PayloadOf(keyword, vector, id), ScoreOf(keyword, id), ScoreOf(vector, id), RankOf(keyword, id),
              RankOf(vector, id))
  }

  function CandidateTable(keyword: seq<Hit>, vector: seq<Hit>): map<string, Candidate> {
    map id | id in Ids(keyword) + Ids(vector) :: CandidateOf(keyword, vector, id)
  }

  // Every hit carries the payload of its chunk.
  ghost predicate Consistent(keyword: seq<Hit>, vector: seq<Hit>) {
    forall h :: h in keyword + vector ==> PayloadOf(keyword, vector, h.id) == h.payload
  }

  lemma IdsAppend(hits: seq<Hit>, hit: Hit)
    ensures Ids(hits + [hit]) == Ids(hits) + {hit.id}
  {
  }

  lemma FirstIndexAppend(hits: seq<Hit>, hit: Hit, id: string)
    ensures FirstIndex(hits + [hit], id)
         == if FirstIndex(hits, id).None? && hit.id == id then Some(|hits|) else FirstIndex(hits, id)
  {
    assert (hits + [hit])[..|hits|] == hits;
  }

  lemma CandidateAfterKeyword(keyword: seq<Hit>, hit: Hit, id: string)
    requires id in Ids(keyword) + {hit.id}
    ensures id in Ids(keyword + [hit]) && CandidateOf(keyword + [hit], [], id)
         == if id in Ids(keyword) then CandidateOf(keyword, [], id)
            else Candidate(hit.id, hit.payload, Some(hit.score), None, Some(|keyword| + 1), None)
  {
    IdsAppend(keyword, hit);
    FirstIndexAppend(keyword, hit, id);
  }

  lemma TableAfterKeyword(keyword: seq<Hit>, hit: Hit)
    ensures CandidateTable(keyword + [hit], []) ==
            if hit.id in CandidateTable(keyword, []) then CandidateTable(keyword, [])
            else
              var candidate := Candidate(hit.id, hit.payload, Some(hit.score), None, Some(|keyword| + 1), None);
              CandidateTable(keyword, [])[hit.id := candidate]
  {
    hide CandidateOf, Ids;
    IdsAppend(keyword, hit);
    NoIds();
    forall id | id in Ids(keyword) + {hit.id}
      ensures id in Ids(keyword + [hit]) && CandidateOf(keyword + [hit], [], id)
           == if id in Ids(keyword) then CandidateOf(keyword, [], id)
              else Candidate(hit.id, hit.payload, Some(hit.score), None, Some(|keyword| + 1), None)
    {
      CandidateAfterKeyword(keyword, hit, id);
    }
  }

  lemma NoIds()
    ensures Ids([]) == {}
  {
  }

  // A chunk already found by a channel keeps its first rank; otherwise this channel's rank is added.
  function Ranked(table: map<string, Candidate>, hit: Hit, rank: nat): map<string, Candidate> {
    if hit.id !in table then table[hit.id := Candidate(hit.id, hit.payload, None, Some(hit.score), None, Some(rank))]
    else table[hit.id := WithVectorRank(table[hit.id], hit, rank)]
  }

  function WithVectorRank(c: Candidate, hit: Hit, rank: nat): Candidate {
    if c.vectorRank.None? then c.(vectorRank := Some(rank), vectorScore := Some(hit.score)) else c
  }

  lemma CandidateAfterVector(keyword: seq<Hit>, vector: seq<Hit>, hit: Hit, id: string)
    requires id in Ids(keyword) + Ids(vector) + {hit.id}
    ensures id in Ids(keyword) + Ids(vector + [hit])
    ensures id != hit.id ==> CandidateOf(keyword, vector + [hit], id) == CandidateOf(keyword, vector, id)
    ensures id == hit.id && id !in Ids(keyword) + Ids(vector) ==>
              CandidateOf(keyword, vector + [hit], id)
                == Candidate(hit.id, hit.payload, None, Some(hit.score), None, Some(|vector| + 1))
    ensures id == hit.id && id in Ids(keyword) + Ids(vector) ==>
              CandidateOf(keyword, vector + [hit], id)
                == WithVectorRank(CandidateOf(keyword, vector, id), hit, |vector| + 1)
  {
    IdsAppend(vector, hit);
    FirstIndexAppend(vector, hit, id);
  }

  lemma TableAfterVector(keyword: seq<Hit>, vector: seq<Hit>, hit: Hit)
    ensures CandidateTable(keyword, vector + [hit]) == Ranked(CandidateTable(keyword, vector), hit, |vector| + 1)
  {
    hide CandidateOf, Ids;
    IdsAppend(vector, hit);
    forall id | id in Ids(keyword) + Ids(vector) + {hit.id}
      ensures id in Ids(keyword) + Ids(vector + [hit])
      ensures id != hit.id ==> CandidateOf(keyword, vector + [hit], id) == CandidateOf(keyword, vector, id)
    {
      CandidateAfterVector(keyword, vector, hit, id);
    }
    CandidateAfterVector(keyword, vector, hit, hit.id);
  }

  // With consistent hits so far, the stored payload decides the conflict.
  lemma ConflictIsPayload(keyword: seq<Hit>, vector: seq<Hit>, hit: Hit)
    requires Consistent(keyword, vector)
    ensures Conflicts(keyword + vector, hit) <==>
            hit.id in Ids(keyword) + Ids(vector) && PayloadOf(keyword, vector, hit.id) != hit.payload
  {
    if hit.id in Ids(keyword) + Ids(vector) {
      var h :| h in keyword + vector && h.id == hit.id;
      assert PayloadOf(keyword, vector, h.id) == h.payload;
    }
    hide FirstIndex;
  }

  lemma ConsistentAfterKeyword(keyword: seq<Hit>, hit: Hit)
    requires Consistent(keyword, []) && !Conflicts(keyword, hit)
    ensures Consistent(keyword + [hit], [])
  {
    forall h | h in keyword + [hit]
      ensures PayloadOf(keyword + [hit], [], h.id) == h.payload
    {
      FirstIndexAppend(keyword, hit, h.id);
      if h in keyword {
        assert h in keyword + [];
      } else if hit.id in Ids(keyword) {
        var i := FirstIndex(keyword, hit.id).value;
        assert keyword[i] in keyword;
      }
    }
  }

  lemma ConsistentAfterVector(keyword: seq<Hit>, vector: seq<Hit>, hit: Hit)
    requires Consistent(keyword, vector) && !Conflicts(keyword + vector, hit)
    ensures Consistent(keyword, vector + [hit])
  {
    forall h | h in keyword + (vector + [hit])
      ensures PayloadOf(keyword, vector + [hit], h.id) == h.payload
    {
      FirstIndexAppend(vector, hit, h.id);
      if h in keyword + vector {
        assert PayloadOf(keyword, vector, h.id) == h.payload;
      } else {
        ConflictIsPayload(keyword, vector, hit);
      }
    }
  }

  lemma EmptyTable()
    ensures CandidateTable([], []) == map[] && Consistent([], [])
  {
  }

  // One keyword hit: found or created, and checked against the stored payload.
  method AddKeyword(candidates: map<string, Candidate>, keyword: seq<Hit>, vector: seq<Hit>, i: nat)
    returns (r: Result<map<string, Candidate>, Fault>)
    requires i < |keyword| && candidates == CandidateTable(keyword[..i], []) && Consistent(keyword[..i], [])
    ensures r.Err? ==> FaultAt(keyword, vector, i) == Some(r.error)
    ensures r.Ok? ==>
              && FaultAt(keyword, vector, i).None?
              && r.value == CandidateTable(keyword[..i + 1], []) && Consistent(keyword[..i + 1], [])
  {
    hide FirstIndex, FitsSchema, ScoreOk, Conflicts, FaultAt, Consistent, Ids, PayloadOf;
    var hit := keyword[i];
    KeywordPrefix(keyword, vector, i);
    ConflictIsPayload(keyword[..i], [], hit);
    if !FitsSchema(hit) {
      return Err(BadHit);
    }
    if !ScoreOk(hit.score, true) {
      return Err(BadScore);
    }
    if hit.id in candidates && candidates[hit.id].payload != hit.payload {
      return Err(PayloadConflict);
    }
    TableAfterKeyword(keyword[..i], hit);
    ConsistentAfterKeyword(keyword[..i], hit);
    var added := candidates;
    if hit.id !in added {
      added := added[hit.id := Candidate(hit.id, hit.payload, Some(hit.score), None, Some(i + 1), None)];
    }
    r := Ok(added);
  }

  // One vector hit: a chunk found by both channels becomes one candidate.
  method AddVector(candidates: map<string, Candidate>, keyword: seq<Hit>, vector: seq<Hit>, i: nat)
    returns (r: Result<map<string, Candidate>, Fault>)
    requires i < |vector| && candidates == CandidateTable(keyword, vector[..i]) && Consistent(keyword, vector[..i])
    ensures r.Err? ==> FaultAt(keyword, vector, |keyword| + i) == Some(r.error)
    ensures r.Ok? ==>
              && FaultAt(keyword, vector, |keyword| + i).None?
              && r.value == CandidateTable(keyword, vector[..i + 1]) && Consistent(keyword, vector[..i + 1])
  {
    hide FirstIndex, FitsSchema, ScoreOk, Conflicts, FaultAt, Consistent, Ids, PayloadOf;
    var hit := vector[i];
    VectorPrefix(keyword, vector, i);
    ConflictIsPayload(keyword, vector[..i], hit);
    if !FitsSchema(hit) {
      return Err(BadHit);
    }
    if !ScoreOk(hit.score, false) {
      return Err(BadScore);
    }
    if hit.id in candidates && candidates[hit.id].payload != hit.payload {
      return Err(PayloadConflict);
    }
    TableAfterVector(keyword, vector[..i], hit);
    ConsistentAfterVector(keyword, vector[..i], hit);
    var added := candidates;
    if hit.id !in added {
      added := added[hit.id := Candidate(hit.id, hit.payload, None, None, None, None)];
    }
    if added[hit.id].vectorRank.None? {
      added := added[hit.id := added[hit.id].(vectorRank := Some(i + 1), vectorScore := Some(hit.score))];
    }
    r := Ok(added);
  }

  /** The two scans that fill the candidate table, stopping at the first fault. */
  method Collect(keyword: seq<Hit>, vector: seq<Hit>) returns (r: Result<map<string, Candidate>, Fault>)
    ensures r.Err? ==> exists i :: IsFirstFault(keyword, vector, i, r.error)
    ensures r.Ok? ==>
              Fusable(keyword, vector) && Consistent(keyword, vector) && r.value == CandidateTable(keyword, vector)
  {
    hide FaultAt, Consistent, CandidateTable;
    var candidates: map<string, Candidate> := map[];
    EmptyTable();
    assert keyword[..0] == [] && vector[..0] == [];
    for i := 0 to |keyword|
      invariant candidates == CandidateTable(keyword[..i], []) && Consistent(keyword[..i], [])
      invariant forall j :: 0 <= j < i ==> FaultAt(keyword, vector, j).None?
    {
      r := AddKeyword(candidates, keyword, vector, i);
      if r.Err? {
        assert IsFirstFault(keyword, vector, i, r.error);
        return;
      }
      candidates := r.value;
    }
    assert keyword[..|keyword|] == keyword;
    for i := 0 to |vector|
      invariant candidates == CandidateTable(keyword, vector[..i]) && Consistent(keyword, vector[..i])
      invariant forall j :: 0 <= j < |keyword| + i ==> FaultAt(keyword, vector, j).None?
    {
      r := AddVector(candidates, keyword, vector, i);
      if r.Err? {
        assert IsFirstFault(keyword, vector, |keyword| + i, r.error);
        return;
      }
      candidates := r.value;
    }
    assert vector[..|vector|] == vector;
    r := Ok(candidates);
  }

  lemma KeywordPrefix(keyword: seq<Hit>, vector: seq<Hit>, i: nat)
    requires i < |keyword|
    ensures FaultAt(keyword, vector, i) == FaultOf(keyword[..i], keyword[i], true)
    ensures keyword[..i] + [] == keyword[..i] && keyword[..i + 1] == keyword[..i] + [keyword[i]]
  {
    assert (keyword + vector)[..i] == keyword[..i];
  }

  lemma VectorPrefix(keyword: seq<Hit>, vector: seq<Hit>, i: nat)
    requires i < |vector|
    ensures FaultAt(keyword, vector, |keyword| + i) == FaultOf(keyword + vector[..i], vector[i], false)
    ensures vector[..i + 1] == vector[..i] + [vector[i]]
  {
    assert (keyword + vector)[..|keyword| + i] == keyword + vector[..i];
  }
}
