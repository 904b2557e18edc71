/** When an accepted publication can still succeed. */
module KnowledgeSucceeding {
  import opened KnowledgeTypes
  import opened KnowledgeSteps
  import opened KnowledgeInvariant
  import opened KnowledgeMonotone
  import opened KnowledgeRuns
  import opened KnowledgeOutcomes
  import opened KnowledgeFence
  import opened KnowledgeBodies
  import opened KnowledgePointers
  import opened KnowledgeDraining
  import opened KnowledgeIndexing
  import opened KnowledgeUnfinished

  predicate HasDay(meta: Metadata) {
    meta.expiry.Some? ==> meta.effective <= meta.expiry.value
  }

  /**
    * What a caller can check: nothing was accepted on the document after the operation, the counters have room, the
    * validity period is not empty, and the text can be indexed.
    */
  ghost predicate CanSucceed(s: State, o: OpId) {
    && Latest(s, o) && Room(s, o) && HasDay(s.ops[o].conf.meta)
    && s.ops[o].version in s.vers && RevKey(s.ops[o].version, s.ops[o].rev) in s.revs
    && Indexable(Citation(s.ops[o].version, s.vers[s.ops[o].version]), s.revs[RevKey(s.ops[o].version, s.ops[o].rev)])
  }

  // --- What can succeed does: claim, save, finalize ---

  // A step that leaves everything about an operation in flight as it was but the progress of its work.
  ghost predicate Progresses(s: State, s': State, o: OpId) {
    && o in s.ops && o in s'.ops && s'.ops[o] == s.ops[o].(state := s'.ops[o].state)
    && s'.docs == s.docs && s'.vers == s.vers && s'.revs == s.revs && s'.release == s.release
  }

  lemma ProgressKeeps(s: State, s': State, o: OpId, today: int)
    requires Progresses(s, s', o)
    ensures CanSucceed(s, o) ==> CanSucceed(s', o)
    ensures Due(s, o, today) ==> Due(s', o, today)
  {
    hide Indexable;
  }

  // The live task of a publication.
  ghost predicate Building(s: State, o: OpId, t: TaskId, state: TaskState) {
    && Intact(s, o) && s.ops[o].action == PUBLISH && IsTaskOf(s.tasks, t, o, INDEX) && s.tasks[t].state == state
    && TaskOk(s.ops, s.gens, s.tasks[t])
  }

  lemma LiveIsBuilding(w: World, o: OpId, t: TaskId)
    requires Reachable(w) && InFlight(w.s, o) && w.s.ops[o].action == PUBLISH && LiveTask(w.s, o, t)
    ensures Building(w.s, o, t, w.s.tasks[t].state)
  {
    hide Next, Intact;
    StaysIntact(w, o);
    ReachableInv(w);
    InvParts(w.s);
    hide Inv, OpsOk;
    EachTask(w.s.ops, w.s.gens, w.s.tasks);
  }

  lemma InputIsRechecked(s: State, o: OpId, t: TaskId, today: int)
    requires (Building(s, o, t, Queued) || Building(s, o, t, Running)) && Due(s, o, today)
    ensures IndexRows(s, t, s.ops[o].actor, PUBLISH)
    ensures s.gens[s.tasks[t].gen.value].state == GenState.Building
    ensures var index := s.gens[s.tasks[t].gen.value].index;
            var record := CheckInput(s, t, s.ops[o].actor, ScopeOf(s, o), index, PUBLISH, today);
            && record.Ok?
            && record.value.revision.citation == Citation(s.ops[o].version, s.vers[s.ops[o].version])
            && record.value.revision.content == s.revs[RevKey(s.ops[o].version, s.ops[o].rev)]
  {
    RecheckDecides(s, o, today);
    hide PublicationCandidate, PublicationConfirmation, Due, Parsed, PointedAt;
  }

  lemma ClaimStarts(s: State, o: OpId, t: TaskId, today: int)
    requires Building(s, o, t, Queued) && Due(s, o, today)
    ensures var index := s.gens[s.tasks[t].gen.value].index;
            var s' := ClaimIndex(s, t, s.ops[o].actor, ScopeOf(s, o), s.tasks[t].owner, index, PUBLISH, today).0;
            && Progresses(s, s', o) && InFlight(s', o) && LiveTask(s', o, t) && s'.tasks[t].state == Running
  {
    InputIsRechecked(s, o, t, today);
    hide CheckInput, Intact, Due;
  }

  // A task at work on the generation of its operation.
  ghost predicate AtWork(s: State, o: OpId, t: TaskId, index: Index) {
    && o in s.ops && IndexRows(s, t, s.ops[o].actor, PUBLISH) && s.tasks[t].op == o && s.tasks[t].state == Running
    && s.gens[s.tasks[t].gen.value].state == GenState.Building && s.gens[s.tasks[t].gen.value].index == index
    && s.ops[o].state == OpExecuting && s.ops[o].action == PUBLISH
  }

  lemma BuildingIsAtWork(s: State, o: OpId, t: TaskId, today: int)
    requires Building(s, o, t, Running) && Due(s, o, today)
    ensures AtWork(s, o, t, s.gens[s.tasks[t].gen.value].index)
  {
    InputIsRechecked(s, o, t, today);
    hide CheckInput, Intact, Due;
  }

  lemma BuildSucceeds(s: State, o: OpId, t: TaskId, index: Index, records: seq<Record>)
    requires AtWork(s, o, t, index) && TasksUnique(s.tasks)
    ensures var s' := CompleteBuild(s, t, records);
            Progresses(s, s', o) && InFlight(s', o) && !HasLiveTask(s', o)
  {
    TasksApart(s.tasks);
    hide TasksUnique;
    var s' := CompleteBuild(s, t, records);
    assert Progresses(s, s', o);
    forall u
      ensures !LiveTask(s', o, u)
    {
      assert LiveTask(s', o, u) ==> SameWork(s.tasks[u], s.tasks[t]);
    }
  }

  lemma SaveCompletes(s: State, o: OpId, t: TaskId, index: Index, today: int, claim: Claim, records: seq<Record>,
                      scope: Scope)
    requires AtWork(s, o, t, index)
    requires var record := CheckInput(s, t, s.ops[o].actor, scope, index, PUBLISH, today);
             record.Ok? && claim == Claim(t, s.tasks[t].gen.value, s.ops[o].actor, record.value, index)
    requires ValidRecords(claim, records) && WellNumbered(records, claim.gen)
    ensures FinishIndex(s, claim, records, scope, s.tasks[t].owner, PUBLISH, today).0 == CompleteBuild(s, t, records)
  {
    hide CheckInput, ValidRecords, WellNumbered, CompleteBuild, FailIndex;
  }

  lemma StartBuilding(w: World, o: OpId, t: TaskId, today: int) returns (w1: World)
    requires Reachable(w) && InFlight(w.s, o) && w.s.ops[o].action == PUBLISH && LiveTask(w.s, o, t)
    requires w.s.tasks[t].state == Queued && Due(w.s, o, today)
    ensures Reachable(w1) && Follows(w, w1) && Progresses(w.s, w1.s, o) && InFlight(w1.s, o) && LiveTask(w1.s, o, t)
    ensures w1.s.tasks[t].state == Running
  {
    hide Next, Due, Progresses;
    LiveIsBuilding(w, o, t);
    InputIsRechecked(w.s, o, t, today);
    ClaimStarts(w.s, o, t, today);
    var index := w.s.gens[w.s.tasks[t].gen.value].index;
    var e := ClaimIndexEvent(t, w.s.ops[o].actor, ScopeOf(w.s, o), w.s.tasks[t].owner, index, PUBLISH, today);
    hide Intact, ClaimIndex, CheckInput;
    StepReachable(w, e);
    ClaimStep(w, e);
    w1 := Next(w, e);
  }

  lemma ClaimStep(w: World, e: Event)
    requires e.ClaimIndexEvent?
    ensures Next(w, e).s == ClaimIndex(w.s, e.task, e.actor, e.scope, e.owner, e.index, e.action, e.today).0
  {
    hide ClaimIndex;
  }

  lemma SaveStep(w: World, e: Event)
    requires e.FinishIndexEvent?
    ensures Next(w, e).s == FinishIndex(w.s, e.claim, e.records, e.scope, e.owner, e.action, e.today).0
  {
    hide FinishIndex;
  }

  lemma CompleteBuilding(w: World, o: OpId, t: TaskId, today: int) returns (w1: World)
    requires Reachable(w) && InFlight(w.s, o) && w.s.ops[o].action == PUBLISH && LiveTask(w.s, o, t)
    requires w.s.tasks[t].state == Running && Due(w.s, o, today) && CanSucceed(w.s, o)
    ensures Reachable(w1) && Follows(w, w1) && Progresses(w.s, w1.s, o) && InFlight(w1.s, o) && !HasLiveTask(w1.s, o)
  {
    hide Next, Due, Progresses, HasLiveTask, Indexable, ValidEvidence, WellNumbered, TasksUnique;
    LiveIsBuilding(w, o, t);
    InputIsRechecked(w.s, o, t, today);
    TasksOfReachable(w);
    var s := w.s;
    var g := s.tasks[t].gen.value;
    var index := s.gens[g].index;
    var actor, scope, owner := s.ops[o].actor, ScopeOf(s, o), s.tasks[t].owner;
    var record := CheckInput(s, t, actor, scope, index, PUBLISH, today).value;
    var records := EvidenceFor(record.revision.citation, record.revision.content, g);
    EvidenceNumbered(record.revision.citation, record.revision.content, g, records);
    var claim := Claim(t, g, actor, record, index);
    BuildingIsAtWork(s, o, t, today);
    BuildSucceeds(s, o, t, index, records);
    SaveCompletes(s, o, t, index, today, claim, records, scope);
    var e := FinishIndexEvent(claim, records, scope, owner, PUBLISH, today);
    hide Intact, FinishIndex, CheckInput, CanSucceed;
    StepReachable(w, e);
    SaveStep(w, e);
    w1 := Next(w, e);
  }

  lemma EvidenceNumbered(citation: nat, content: Revision, g: GenId, records: seq<Record>)
    requires ValidEvidence(citation, content, g, records)
    ensures WellNumbered(records, g)
  {
    hide Evidence, WellNumbered, AllValid;
    EvidenceIsWhole(citation, content, g, records);
  }

  lemma TasksOfReachable(w: World)
    requires Reachable(w)
    ensures TasksUnique(w.s.tasks)
  {
    hide Next;
    ReachableInv(w);
  }

  // What has room and a day succeeds once its index work is done.
  lemma FinishPublication(w: World, o: OpId, today: int) returns (w': World)
    requires Reachable(w) && InFlight(w.s, o) && w.s.ops[o].action == PUBLISH && !HasLiveTask(w.s, o)
    requires Due(w.s, o, today) && Room(w.s, o)
    ensures Follows(w, w') && Released(w'.s, o)
  {
    w' := WorkCanEnd(w, o, today);
  }

  lemma SuccessIsReached(w: World, o: OpId) returns (w': World)
    requires Reachable(w) && InFlight(w.s, o) && w.s.ops[o].action == PUBLISH && CanSucceed(w.s, o)
    ensures Follows(w, w') && Released(w'.s, o)
  {
    var today := w.s.ops[o].conf.meta.effective;
    hide Next, Reachable, Follows, Indexable;
    assert Due(w.s, o, today) && Room(w.s, o);
    if HasLiveTask(w.s, o) {
      var t :| LiveTask(w.s, o, t);
      var w1 := w;
      if w.s.tasks[t].state == Queued {
        w1 := StartBuilding(w, o, t, today);
        ProgressKeeps(w.s, w1.s, o, today);
      } else {
        FollowsItself(w);
      }
      hide Due, CanSucceed;
      var w2 := CompleteBuilding(w1, o, t, today);
      ProgressKeeps(w1.s, w2.s, o, today);
      FollowsTrans(w, w1, w2);
      w' := FinishPublication(w2, o, today);
      FollowsTrans(w, w2, w');
    } else {
      w' := FinishPublication(w, o, today);
    }
  }

  lemma FollowsItself(w: World)
    ensures Follows(w, w)
  {
    hide Next;
    assert AllWellFormed([]) && Run(w, []) == w;
  }

  // --- Only a commit finishes a publication ---

  // The state in which the publication was committed.
  lemma {:induction false} CommitOf(w: World, es: seq<Event>, o: OpId) returns (i: nat)
    requires Reachable(w) && AllWellFormed(es) && Unfinished(w.s, o) && w.s.ops[o].action == PUBLISH
    requires !Unfinished(Run(w, es).s, o)
    ensures i < |es| && AllWellFormed(es[..i]) && CommitsNow(Run(w, es[..i]).s, o, es[i])
    decreases |es|
  {
    hide Next, WellFormed, CommitsNow, Reachable, Follows, Monotone, TasksOk, OpsOk;
    var front := es[..|es| - 1];
    var w1 := Run(w, front);
    if Unfinished(w1.s, o) {
      i := |es| - 1;
      RunFollows(w, front);
      FollowsReachable(w, w1);
      LaterIsMonotone(w, w1);
      KeptOp(w.s, w1.s, o);
      InvParts(w1.s);
      if !CommitsNow(w1.s, o, es[i]) {
        StepLeavesOpen(w1, o, es[i]);
      }
    } else {
      i := CommitOf(w, front, o);
      assert front[..i] == es[..i];
    }
  }

  lemma RunFollows(w: World, es: seq<Event>)
    requires AllWellFormed(es)
    ensures Follows(w, Run(w, es))
  {
    hide Next;
  }

  lemma KeptOp(s: State, s': State, o: OpId)
    requires Monotone(s, s') && o in s.ops
    ensures o in s'.ops && OpKept(s.ops[o], s'.ops[o])
  {
  }

  // --- What succeeded could have been foretold ---

  lemma CommittedCould(w: World, o: OpId, e: Event)
    requires Reachable(w) && o in w.s.ops && CommitsNow(w.s, o, e)
    requires w.s.ops[o].state != OpSucceeded
    ensures InFlight(w.s, o) && CanSucceed(w.s, o)
  {
    hide Next, Prepared, Indexable, Evidence, AllValid;
    ReachableInv(w);
    InvParts(w.s);
    hide Inv, OpsOk, TasksOk;
    PreparedIsInFlight(w.s, o, e.scope, e.today);
    StaysIntact(w, o);
    PreparedRead(w.s, o, e.scope, e.today);
    ReadyIsBacked(w, o);
    PreparedIsDue(w.s, o, e.scope, e.today);
    hide Intact;
    var row := w.s.ops[o];
    EvidenceIsIndexable(Citation(row.version, w.s.vers[row.version]), w.s.revs[RevKey(row.version, row.rev)],
                        row.conf.gen.value, w.s.chunks[row.conf.gen.value]);
  }

  lemma PreparedIsDue(s: State, o: OpId, scope: Scope, today: int)
    requires Intact(s, o) && Prepared(s, o, scope, today).Ok?
    ensures Due(s, o, today) && s.ops[o].conf.doc == s.vers[s.ops[o].version].doc
  {
    hide Parsed, AllValid;
  }

  // Going back to an earlier state that already held the operation.
  lemma EarlierRoom(s: State, s': State, o: OpId)
    requires o in s.ops && o in s'.ops && OpKept(s.ops[o], s'.ops[o]) && Reserved(s.docs, s.ops[o])
    requires DocsKept(s.docs, s'.docs) && s.release <= s'.release && Latest(s', o) && Room(s', o)
    ensures Latest(s, o) && Room(s, o)
  {
    assert DocumentKept(s.docs[s.ops[o].conf.doc], s'.docs[s.ops[o].conf.doc]);
  }

  lemma EarlierText(s: State, s': State, o: OpId)
    requires Intact(s, o) && VersKept(s.vers, s'.vers) && RevsKept(s.revs, s'.revs)
    ensures var row := s.ops[o];
            var k := RevKey(row.version, row.rev);
            && row.version in s'.vers && k in s'.revs && s'.revs[k] == s.revs[k]
            && Citation(row.version, s'.vers[row.version]) == Citation(row.version, s.vers[row.version])
  {
    var row := s.ops[o];
    var k := RevKey(row.version, row.rev);
    assert VersionKept(s.vers[row.version], s'.vers[row.version]) && RevisionKept(s.revs[k], s'.revs[k]);
    hide Parsed, PointedAt, GenOk, VersKept, RevsKept;
  }

  lemma EarlierCould(s: State, s': State, o: OpId)
    requires Intact(s, o) && Reserved(s.docs, s.ops[o]) && Monotone(s, s') && CanSucceed(s', o)
    ensures CanSucceed(s, o)
  {
    assert OpKept(s.ops[o], s'.ops[o]);
    EarlierRoom(s, s', o);
    EarlierText(s, s', o);
    hide Indexable, Intact, Reserved, Latest, Room, HasDay, Citation, DocsKept, VersKept, RevsKept, OpsKept, TasksKept,
      GensKept, ChunksKept;
  }

  lemma CouldBefore(w: World, w': World, o: OpId)
    requires Reachable(w) && Follows(w, w') && InFlight(w.s, o) && o in w'.s.ops && CanSucceed(w'.s, o)
    ensures CanSucceed(w.s, o)
  {
    hide Next, Reserved, Intact, Monotone, CanSucceed;
    LaterIsMonotone(w, w');
    FencedAt(w, o);
    StaysIntact(w, o);
    EarlierCould(w.s, w'.s, o);
  }

  /**
    * In every reachable state, some continuation publishes an operation in flight exactly when nothing was accepted on
    * its document after it, the two counters have room, its validity period is not empty and its text can be indexed.
    */
  lemma PublishesIff(w: World, o: OpId)
    requires Reachable(w) && InFlight(w.s, o) && w.s.ops[o].action == PUBLISH
    ensures CanSucceed(w.s, o) <==>
            exists w' :: Follows(w, w') && o in w'.s.ops && w'.s.ops[o].state == OpSucceeded
  {
    hide CanSucceed, Next, Reachable;
    if CanSucceed(w.s, o) {
      var w' := SuccessIsReached(w, o);
    }
    if w' :| Follows(w, w') && o in w'.s.ops && w'.s.ops[o].state == OpSucceeded {
      var es :| AllWellFormed(es) && w' == Run(w, es);
      var i := CommitOf(w, es, o);
      var w1 := Run(w, es[..i]);
      RunFollows(w, es[..i]);
      FollowsReachable(w, w1);
      LaterIsMonotone(w, w1);
      KeptOp(w.s, w1.s, o);
      CommitIsFirst(w1, o, es[i]);
      CouldBefore(w, w1, o);
    }
  }

  lemma CommitIsFirst(w: World, o: OpId, e: Event)
    requires Reachable(w) && o in w.s.ops && CommitsNow(w.s, o, e)
    ensures CanSucceed(w.s, o)
  {
    hide Next, CanSucceed;
    PreparedIsOpen(w.s, o, e.scope, e.today);
    CommittedCould(w, o, e);
  }

  lemma PreparedIsOpen(s: State, o: OpId, scope: Scope, today: int)
    requires o in s.ops && s.ops[o].version in s.vers && s.vers[s.ops[o].version].doc in s.docs
    requires Prepared(s, o, scope, today).Ok?
    ensures s.ops[o].state != OpSucceeded
  {
    hide PublicationCandidate, PublicationConfirmation, AllValid;
  }

  // --- Texts that can never be published ---

  /** A READY generation that was built here has a text that can be indexed: of any other text every build fails. */
  lemma ReadyIsIndexable(w: World, g: GenId)
    requires Reachable(w) && BuiltHere(w.s.gens, g)
    ensures var row := w.s.gens[g];
            && row.version in w.s.vers && RevKey(row.version, row.rev) in w.s.revs
            && Indexable(Citation(row.version, w.s.vers[row.version]), w.s.revs[RevKey(row.version, row.rev)])
  {
    hide Next, Indexable, Evidence, AllValid;
    ReadyOf(w, g);
    RecordsAreValid(w);
    var row := w.s.gens[g];
    EvidenceIsIndexable(Citation(row.version, w.s.vers[row.version]), w.s.revs[RevKey(row.version, row.rev)], g,
                        w.s.chunks[g]);
  }
}
