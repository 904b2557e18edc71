/** What every reachable state looks like from outside. */
module KnowledgeOutcomes {
  import opened Wrappers
  import opened Text
  import opened KnowledgeTypes
  import opened KnowledgeSteps
  import opened KnowledgeInvariant
  import opened KnowledgeMonotone
  import opened KnowledgeRuns
  import Chunker

  lemma ReachableInv(w: World)
    requires Reachable(w)
    ensures Inv(w.s)
  {
    hide Inv, Next;
    ReachableIsSafe(w);
  }

  // --- The current pointer ---

  predicate PublishedIn(vers: Vers, d: DocId, v: VerId) {
    v in vers && vers[v].doc == d && vers[v].state == Published
  }

  lemma PointersAgree(docs: Docs, vers: Vers, d: DocId)
    requires DocsOk(docs, vers) && PointersOk(docs, vers) && d in docs
    ensures forall v: VerId :: docs[d].current == Some(v) <==> PublishedIn(vers, d, v)
    ensures docs[d].current.None? <==> PublishedOf(vers, d) == {}
    ensures forall v: VerId, u: VerId :: PublishedIn(vers, d, v) && PublishedIn(vers, d, u) ==> v == u
  {
    assert docs[d].current.Some? ==> docs[d].current.value in PublishedOf(vers, d);
  }

  /** The pointer of a document names its one PUBLISHED version, and is null exactly when there is none. */
  lemma CurrentIsPublished(w: World, d: DocId)
    requires Reachable(w) && d in w.s.docs
    ensures forall v: VerId :: w.s.docs[d].current == Some(v) <==> PublishedIn(w.s.vers, d, v)
    ensures w.s.docs[d].current.None? <==> PublishedOf(w.s.vers, d) == {}
    ensures forall v: VerId, u: VerId :: PublishedIn(w.s.vers, d, v) && PublishedIn(w.s.vers, d, u) ==> v == u
  {
    hide Next;
    ReachableInv(w);
    assert DocsOk(w.s.docs, w.s.vers) && PointersOk(w.s.docs, w.s.vers);
    hide Inv;
    PointersAgree(w.s.docs, w.s.vers, d);
  }

  lemma PublishedIsPrevious(s: State, opId: OpId, scope: Scope, today: int)
    requires DocsOk(s.docs, s.vers) && PointersOk(s.docs, s.vers)
    requires opId in s.ops && s.ops[opId].version in s.vers && s.vers[s.ops[opId].version].doc in s.docs
    requires Prepared(s, opId, scope, today).Ok?
    ensures var d := s.vers[s.ops[opId].version].doc;
            var previous := s.ops[opId].conf.previous;
            previous == s.docs[d].current && PublishedOf(s.vers, d) == if previous.Some? then {previous.value} else {}
  {
  }

  /** The check of the published versions inside a commit never fails: the pointer already decides it. */
  lemma CommitReplacesCurrent(w: World, opId: OpId, scope: Scope, today: int)
    requires Reachable(w) && opId in w.s.ops && w.s.ops[opId].version in w.s.vers
             && w.s.vers[w.s.ops[opId].version].doc in w.s.docs
    requires Prepared(w.s, opId, scope, today).Ok?
    ensures var d := w.s.vers[w.s.ops[opId].version].doc;
            var previous := w.s.ops[opId].conf.previous;
            previous == w.s.docs[d].current && PublishedOf(w.s.vers, d) == if previous.Some? then {previous.value}
              else {}
  {
    hide Next;
    ReachableInv(w);
    assert DocsOk(w.s.docs, w.s.vers) && PointersOk(w.s.docs, w.s.vers);
    hide Inv, DocsOk, PointersOk, Prepared;
    PublishedIsPrevious(w.s, opId, scope, today);
  }

  // --- Lockstep ---

  // A live task: QUEUED under a CONFIRMED operation, or RUNNING under an EXECUTING one.
  predicate Live(s: State, t: TaskId, g: GenId) {
    && t in s.tasks && s.tasks[t].kind == INDEX && s.tasks[t].gen == Some(g) && s.tasks[t].op in s.ops
    && var op := s.ops[s.tasks[t].op].state;
       (s.tasks[t].state == Queued && op == OpConfirmed) || (s.tasks[t].state == Running && op == OpExecuting)
  }

  lemma LiveIffBuilding(s: State, g: GenId)
    requires TasksOk(s.ops, s.gens, s.tasks) && TasksUnique(s.tasks) && BuildingOk(s.gens, s.tasks) && g in s.gens
    ensures s.gens[g].state == Building <==> exists t :: Live(s, t, g)
    ensures forall t, u :: Live(s, t, g) && Live(s, u, g) ==> t == u
  {
    TasksApart(s.tasks);
    forall t | Builds(s.tasks, t, g)
      ensures s.gens[g].state == Building && Live(s, t, g)
    {
      assert TaskOk(s.ops, s.gens, s.tasks[t]);
    }
    assert forall t :: Live(s, t, g) ==> Builds(s.tasks, t, g);
  }

  /** A generation is BUILDING exactly when one task on it is live, and never more than one is. */
  lemma BuildingHasOneTask(w: World, g: GenId)
    requires Reachable(w) && g in w.s.gens
    ensures w.s.gens[g].state == Building <==> exists t :: Live(w.s, t, g)
    ensures forall t, u :: Live(w.s, t, g) && Live(w.s, u, g) ==> t == u
  {
    hide Next;
    ReachableInv(w);
    assert TasksOk(w.s.ops, w.s.gens, w.s.tasks) && TasksUnique(w.s.tasks) && BuildingOk(w.s.gens, w.s.tasks);
    hide Inv;
    LiveIffBuilding(w.s, g);
  }

  /**
    * A document has at most one CONFIRMED or EXECUTING build operation, and that operation is on its current draft
    * revision.
    */
  lemma OneOperationInFlight(w: World, o: OpId, p: OpId)
    requires Reachable(w) && o in w.s.ops && p in w.s.ops && ActiveOp(w.s.ops[o]) && ActiveOp(w.s.ops[p])
    requires SameDoc(w.s.vers, w.s.ops[o].version, w.s.ops[p].version)
    ensures o == p && w.s.vers[w.s.ops[o].version].state == Draft
            && w.s.vers[w.s.ops[o].version].currentRev == w.s.ops[o].rev
  {
    hide Next;
    ReachableInv(w);
    assert OneActive(w.s.vers, w.s.ops) && ActiveOk(w.s.vers, w.s.ops);
    hide Inv;
  }

  lemma TasksAlike(s: State, t: TaskId, u: TaskId)
    requires OpsOk(s.vers, s.revs, s.gens, s.ops) && OneActive(s.vers, s.ops) && TasksOk(s.ops, s.gens, s.tasks)
    requires TasksUnique(s.tasks) && ParsesUnique(s.revs, s.tasks)
    requires t in s.tasks && u in s.tasks && ActiveTask(s.tasks[t]) && ActiveTask(s.tasks[u])
    requires s.tasks[t].version == s.tasks[u].version && s.tasks[t].rev == s.tasks[u].rev
             && s.tasks[t].kind == s.tasks[u].kind
    ensures t == u
  {
    if s.tasks[t].kind == PARSE {
      assert ParseAlike(s.tasks[t], s.tasks[u]);
    } else {
      assert TaskOk(s.ops, s.gens, s.tasks[t]) && TaskOk(s.ops, s.gens, s.tasks[u]);
      assert OpOk(s.vers, s.revs, s.gens, s.ops[s.tasks[t].op]);
      assert SameDoc(s.vers, s.ops[s.tasks[t].op].version, s.ops[s.tasks[u].op].version);
      assert SameWork(s.tasks[t], s.tasks[u]);
    }
  }

  /** At most one task per version, revision and kind is unfinished, without the database index that says so. */
  lemma OneTaskInFlight(w: World, t: TaskId, u: TaskId)
    requires Reachable(w) && t in w.s.tasks && u in w.s.tasks && ActiveTask(w.s.tasks[t]) && ActiveTask(w.s.tasks[u])
    requires w.s.tasks[t].version == w.s.tasks[u].version && w.s.tasks[t].rev == w.s.tasks[u].rev
             && w.s.tasks[t].kind == w.s.tasks[u].kind
    ensures t == u
  {
    hide Next;
    ReachableInv(w);
    var s := w.s;
    assert OpsOk(s.vers, s.revs, s.gens, s.ops) && OneActive(s.vers, s.ops) && TasksOk(s.ops, s.gens, s.tasks);
    assert TasksUnique(s.tasks) && ParsesUnique(s.revs, s.tasks);
    hide Inv, OpsOk, OneActive, TasksOk, TasksUnique, ParsesUnique;
    TasksAlike(s, t, u);
  }

  // --- Evidence ---

  function ChunksOf(records: seq<Record>): (chunks: seq<Chunker.Chunk>)
    ensures |chunks| == |records| && forall i :: 0 <= i < |records| ==> chunks[i] == records[i].chunk
  {
    seq(|records|, i requires 0 <= i < |records| => records[i].chunk)
  }

  /**
    * Stored evidence is the whole text: nothing is lost, repeated or reordered, and chunks are numbered and distinct.
    */
  lemma EvidenceIsWhole(citation: nat, content: Revision, g: GenId, records: seq<Record>)
    requires Evidence(citation, content, g, records)
    ensures WellNumbered(records, g)
    ensures Chunker.VisibleChunks(ChunksOf(records)) == Squeeze(content.body.value)
    ensures forall r :: r in records ==> 0 < |r.chunk.content| <= Chunker.MAX_CHUNK_CHARACTERS
  {
    var body := content.body.value;
    var parsed := Chunker.ParseRevision(citation, content.meta.title, content.format, body);
    ParsedIsVisible(citation, content.meta.title, content.format, body);
    Chunker.NormalizedIsFixed(body);
    hide Chunker.IsNormalized, Chunker.ParseRevision, Squeeze;
    Chunker.ParseConserves(citation, content.meta.title, content.format, body);
    assert ChunksOf(records) == parsed.value;
    forall r | r in records
      ensures 0 < |r.chunk.content| <= Chunker.MAX_CHUNK_CHARACTERS
    {
      assert r.chunk in parsed.value;
    }
  }

  lemma ParsedIsVisible(document: nat, title: string, format: Chunker.Format, body: string)
    requires Chunker.Normalize(body) == body && Chunker.ParseRevision(document, title, format, body).Some?
    ensures Strip(body) != []
  {
    hide Chunker.HasTitle, Chunker.Chunks, Strip;
  }

  // A READY generation that was built here, whether or not anything was ever published from it.
  predicate BuiltHere(gens: Gens, g: GenId) {
    g in gens && gens[g].state == Ready && gens[g].built == Generated
  }

  predicate SameRevision(revs: Revs, revs': Revs, k: RevKey) {
    k in revs && k in revs' && revs'[k] == revs[k]
  }

  lemma ReadyHasEvidence(s: State, g: GenId)
    requires GensOk(s.vers, s.revs, s.gens, s.chunks) && EvidenceOk(s.vers, s.revs, s.gens, s.chunks)
             && BuiltHere(s.gens, g)
    ensures var row := s.gens[g];
            && row.version in s.vers && RevKey(row.version, row.rev) in s.revs && g in s.chunks
               && row.chunkCount == |s.chunks[g]| > 0
            && Evidence(Citation(row.version, s.vers[row.version]), s.revs[RevKey(row.version, row.rev)], g,
                        s.chunks[g])
  {
    hide Evidence;
    assert GenOk(s.vers, s.revs, s.chunks, g, s.gens[g]);
  }

  lemma ReadyOf(w: World, g: GenId)
    requires Reachable(w) && BuiltHere(w.s.gens, g)
    ensures var row := w.s.gens[g];
            && row.version in w.s.vers && RevKey(row.version, row.rev) in w.s.revs && g in w.s.chunks
               && row.chunkCount == |w.s.chunks[g]| > 0
            && Evidence(Citation(row.version, w.s.vers[row.version]), w.s.revs[RevKey(row.version, row.rev)], g,
                        w.s.chunks[g])
  {
    hide Next;
    ReachableInv(w);
    var s := w.s;
    assert GensOk(s.vers, s.revs, s.gens, s.chunks) && EvidenceOk(s.vers, s.revs, s.gens, s.chunks);
    hide Inv, GensOk, EvidenceOk, Evidence;
    ReadyHasEvidence(s, g);
  }

  /**
    * Every READY generation that was built here, published or not, stores exactly the chunking of the body of its
    * revision, and in every later state the generation, the revision with its body and the chunks are the same.
    */
  lemma ReadyForever(w: World, w': World, g: GenId)
    requires Reachable(w) && Follows(w, w') && BuiltHere(w.s.gens, g)
    ensures var row := w.s.gens[g];
            && g in w'.s.gens && w'.s.gens[g] == row && row.version in w.s.vers
            && SameRevision(w.s.revs, w'.s.revs, RevKey(row.version, row.rev))
            && g in w.s.chunks && g in w'.s.chunks && w'.s.chunks[g] == w.s.chunks[g]
               && row.chunkCount == |w.s.chunks[g]|
            && Evidence(Citation(row.version, w.s.vers[row.version]), w.s.revs[RevKey(row.version, row.rev)], g,
                        w.s.chunks[g])
  {
    hide Evidence, Next;
    ReadyOf(w, g);
    LaterIsMonotone(w, w');
    hide Safe, Reachable, Follows;
    var row := w.s.gens[g];
    var k := RevKey(row.version, row.rev);
    assert GenKept(row, w'.s.gens[g]);
    EvidenceHasBody(Citation(row.version, w.s.vers[row.version]), w.s.revs[k], g, w.s.chunks[g]);
    assert RevisionKept(w.s.revs[k], w'.s.revs[k]);
  }

  // A version published by finalization, not by the import.
  predicate PublishedHere(vers: Vers, v: VerId) {
    v in vers && vers[v].origin.Uploaded? && vers[v].state != Draft
  }

  lemma SealHasEvidence(s: State, v: VerId)
    requires VersOk(s.vers, s.revs, s.gens) && GensOk(s.vers, s.revs, s.gens, s.chunks)
             && EvidenceOk(s.vers, s.revs, s.gens, s.chunks)
    requires PublishedHere(s.vers, v)
    ensures var row := s.vers[v];
            && row.publishedGen.Some? && row.publishedGen.value in s.gens
               && s.gens[row.publishedGen.value].state == Ready
            && row.publishedRev == Some(row.currentRev) && RevKey(v, row.currentRev) in s.revs
               && row.publishedGen.value in s.chunks
            && Evidence(v, s.revs[RevKey(v, row.currentRev)], row.publishedGen.value, s.chunks[row.publishedGen.value])
  {
    hide Evidence;
    assert Sealed(v, s.vers[v], s.gens);
    assert GenOk(s.vers, s.revs, s.chunks, s.vers[v].publishedGen.value, s.gens[s.vers[v].publishedGen.value]);
  }

  /**
    * In every later state, a version published by finalization is backed by the same complete evidence of the same
    * text.
    */
  lemma EvidenceForever(w: World, w': World, v: VerId)
    requires Reachable(w) && Follows(w, w') && PublishedHere(w.s.vers, v)
    ensures var row := w.s.vers[v];
            && v in w'.s.vers && w'.s.vers[v].publishedGen == row.publishedGen
               && w'.s.vers[v].publishedRev == row.publishedRev == Some(row.currentRev)
            && row.publishedGen.Some? && row.publishedGen.value in w.s.chunks && row.publishedGen.value in w'.s.chunks
            && w'.s.chunks[row.publishedGen.value] == w.s.chunks[row.publishedGen.value]
            && row.publishedGen.value in w'.s.gens && w'.s.gens[row.publishedGen.value].state == Ready
            && RevKey(v, row.currentRev) in w.s.revs && RevKey(v, row.currentRev) in w'.s.revs
            && w'.s.revs[RevKey(v, row.currentRev)] == w.s.revs[RevKey(v, row.currentRev)]
            && Evidence(v, w'.s.revs[RevKey(v, row.currentRev)], row.publishedGen.value,
                        w'.s.chunks[row.publishedGen.value])
  {
    hide Evidence, Next;
    SealOf(w, v);
    LaterIsMonotone(w, w');
    hide Safe, Reachable, Follows;
    var row := w.s.vers[v];
    assert VersionKept(row, w'.s.vers[v]);
    assert GenKept(w.s.gens[row.publishedGen.value], w'.s.gens[row.publishedGen.value]);
    assert RevisionKept(w.s.revs[RevKey(v, row.currentRev)], w'.s.revs[RevKey(v, row.currentRev)]);
    EvidenceHasBody(v, w.s.revs[RevKey(v, row.currentRev)], row.publishedGen.value, w.s.chunks[row.publishedGen.value]);
  }

  lemma EvidenceHasBody(citation: nat, content: Revision, g: GenId, records: seq<Record>)
    requires Evidence(citation, content, g, records)
    ensures content.body.Some?
  {
  }

  lemma SealOf(w: World, v: VerId)
    requires Reachable(w) && PublishedHere(w.s.vers, v)
    ensures var row := w.s.vers[v];
            && row.publishedGen.Some? && row.publishedGen.value in w.s.gens
               && w.s.gens[row.publishedGen.value].state == Ready
            && row.publishedRev == Some(row.currentRev) && RevKey(v, row.currentRev) in w.s.revs
               && row.publishedGen.value in w.s.chunks
            && Evidence(v, w.s.revs[RevKey(v, row.currentRev)], row.publishedGen.value,
                        w.s.chunks[row.publishedGen.value])
  {
    hide Next;
    ReachableInv(w);
    var s := w.s;
    assert VersOk(s.vers, s.revs, s.gens) && GensOk(s.vers, s.revs, s.gens, s.chunks)
      && EvidenceOk(s.vers, s.revs, s.gens, s.chunks);
    hide Inv, VersOk, GensOk, EvidenceOk, Evidence;
    SealHasEvidence(s, v);
  }

  // --- Endings are final ---

  /** Versions move only forward; finished tasks, operations and generations never change again. */
  lemma EndingsAreFinal(w: World, w': World)
    requires Reachable(w) && Follows(w, w')
    ensures forall v :: v in w.s.vers ==> v in w'.s.vers && LaterState(w.s.vers[v].state, w'.s.vers[v].state)
    ensures forall o :: o in w.s.ops && w.s.ops[o].state in {OpSucceeded, OpFailed, OpStale} ==>
            o in w'.s.ops && w'.s.ops[o] == w.s.ops[o]
    ensures forall t :: t in w.s.tasks && !ActiveTask(w.s.tasks[t]) ==> t in w'.s.tasks && w'.s.tasks[t] == w.s.tasks[t]
    ensures forall g :: g in w.s.gens && w.s.gens[g].state != Building ==> g in w'.s.gens && w'.s.gens[g] == w.s.gens[g]
    ensures forall k :: k in w.s.revs && w.s.revs[k].body.Some? ==> k in w'.s.revs && w'.s.revs[k] == w.s.revs[k]
  {
    hide Next;
    LaterIsMonotone(w, w');
    hide Safe, Reachable, Follows;
  }

  lemma DisableEnds(s: State, cmd: DisableCommand, actor: Actor, scope: Scope, opId: OpId, o: OpId)
    requires Disable(s, cmd, actor, scope, opId).0 != s && o in s.ops && ActiveOp(s.ops[o])
    requires s.ops[o].version in s.vers && s.vers[s.ops[o].version].doc == cmd.target.doc
    ensures var s' := Disable(s, cmd, actor, scope, opId).0;
            o in s'.ops && s'.ops[o].state == OpStale
  {
    hide DisableSnapshot, DisableReceiptOf, PendingTasks, PendingGens;
  }

  /**
    * An operation in flight on a document when a disable commits never succeeds, however late its claim or snapshot
    * returns.
    */
  lemma DisableIsBarrier(w: World, cmd: DisableCommand, actor: Actor, scope: Scope, opId: OpId, o: OpId, w': World)
    requires Reachable(w) && o in w.s.ops && ActiveOp(w.s.ops[o])
    requires w.s.ops[o].version in w.s.vers && w.s.vers[w.s.ops[o].version].doc == cmd.target.doc
    requires Next(w, DisableEvent(cmd, actor, scope, opId)).s != w.s
             && Follows(Next(w, DisableEvent(cmd, actor, scope, opId)), w')
    ensures o in w'.s.ops && w'.s.ops[o].state == OpStale
  {
    var w1 := Next(w, DisableEvent(cmd, actor, scope, opId));
    DisableEnds(w.s, cmd, actor, scope, opId, o);
    hide Disable;
    StepReachable(w, DisableEvent(cmd, actor, scope, opId));
    EndingsAreFinal(w1, w');
  }

  /** A task whose operation has ended cannot complete a build, in any state at all. */
  lemma EndedTaskNeverCompletes(s: State, claim: Claim, records: seq<Record>, scope: Scope, owner: Owner,
                                action: Action, today: int)
    requires claim.task in s.tasks && s.tasks[claim.task].op in s.ops
             && s.ops[s.tasks[claim.task].op].state != OpExecuting
    ensures FinishIndex(s, claim, records, scope, owner, action, today) == (s, false)
  {
    hide Evidence, CheckInput, ValidRecord;
  }
}
