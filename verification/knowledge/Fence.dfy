/** Nothing else takes effect before a commit. */
module KnowledgeFence {
  import opened Wrappers
  import opened KnowledgeTypes
  import opened KnowledgeSteps
  import opened KnowledgeInvariant
  import opened KnowledgeMonotone
  import opened KnowledgeAccepting
  import opened KnowledgeImporting
  import opened KnowledgeRuns

  // Accepting an operation moves the counter of its document beyond the value it expected.
  predicate Reserved(docs: Docs, o: Operation) {
    o.conf.doc in docs && docs[o.conf.doc].rowVersion > o.conf.expectedRow
  }

  ghost predicate Fenced(docs: Docs, ops: Ops) {
    forall o :: o in ops ==> Reserved(docs, ops[o])
  }

  ghost predicate NewReserved(s: State, s': State) {
    forall o :: o in s'.ops && o !in s.ops ==> Reserved(s'.docs, s'.ops[o])
  }

  lemma FencedKept(s: State, s': State)
    requires Fenced(s.docs, s.ops) && DocsKept(s.docs, s'.docs) && OpsKept(s.ops, s'.ops) && NewReserved(s, s')
    ensures Fenced(s'.docs, s'.ops)
  {
    forall o | o in s'.ops
      ensures Reserved(s'.docs, s'.ops[o])
    {
      if o in s.ops {
        assert OpKept(s.ops[o], s'.ops[o]);
        assert Reserved(s.docs, s.ops[o]);
        assert DocumentKept(s.docs[s.ops[o].conf.doc], s'.docs[s.ops[o].conf.doc]);
      }
    }
  }

  lemma UploadReserves(s: State, u: UploadCall)
    requires ValidCommand(u.cmd) && PlanMatches(u.cmd, u.plan)
    ensures NewReserved(s, AcceptUpload(s, u).0)
  {
    hide UploadResult, ActiveTasksOn, ActiveOpsOn, BuildingOn;
  }

  lemma PublicationReserves(s: State, p: PublishCall)
    ensures NewReserved(s, AcceptPublication(s, p).0)
  {
    hide PublicationResult, PublishCheck, Reusable, Acceptable;
    if FindOp(s.ops, p.actor, PUBLISH, p.cmd.key).None? && PublishCheck(s, p).Ok? && p.op !in s.ops {
      PublishCheckAccepts(s, p);
    }
  }

  lemma RetryReserves(s: State, r: RetryCall)
    ensures NewReserved(s, AcceptRetry(s, r).0)
  {
    hide RetryResult, RetrySource, ParentOk, HasRetry, Acceptable;
    var t := r.cmd.target;
    if FindOp(s.ops, r.actor, RETRY_INDEX, r.cmd.key).None? && r.index.Some?
       && Visible(s, t.doc, t.version, t.rev, r.scope)
       && RetrySource(s, t, r.cmd.task, r.actor, r.scope, r.index.value, r.today).Ok? && r.op !in s.ops {
      RetrySourceAccepts(s, r);
    }
  }

  lemma DisableReserves(s: State, cmd: DisableCommand, actor: Actor, scope: Scope, opId: OpId)
    ensures NewReserved(s, Disable(s, cmd, actor, scope, opId).0)
  {
    hide DisableReceiptOf, PendingOps, PendingTasks, PendingGens;
  }

  lemma ImportVersionReserves(s: State, c: ImportCall, number: nat)
    requires number < |c.plan| && Admits(s, c, number)
    ensures NewReserved(s, ImportVersion(s, c, number)) && DocsKept(s.docs, ImportVersion(s, c, number).docs)
    ensures OpsKept(s.ops, ImportVersion(s, c, number).ops)
  {
  }

  lemma {:induction false} ImportVersionsReserve(s: State, c: ImportCall, n: nat)
    requires Inv(s) && n <= |c.plan| && PlanOk(c.plan) && (forall i :: 0 <= i < |c.plan| ==> Admits(s, c, i))
             && Fenced(s.docs, s.ops)
    ensures Fenced(ImportVersions(s, c, n).docs, ImportVersions(s, c, n).ops)
  {
    hide Inv, Monotone, Admits, Fenced, NewReserved, PlanOk, DocsKept, OpsKept;
    if n > 0 {
      ImportVersionsReserve(s, c, n - 1);
      ImportVersionsKeeps(s, c, n - 1);
      var s1 := ImportVersions(s, c, n - 1);
      ImportVersionReserves(s1, c, n - 1);
      hide ImportVersion;
      FencedKept(s1, ImportVersion(s1, c, n - 1));
    }
  }

  lemma ImportReserves(s: State, c: ImportCall)
    requires Inv(s) && PlanOk(c.plan) && Fenced(s.docs, s.ops)
    ensures Fenced(Import(s, c).0.docs, Import(s, c).0.ops)
  {
    hide Inv, Admits, Fenced, PlanOk, ImportVersions, ItemFresh, ItemOk;
    if !ImportReplayed(s, c) && ImportRefusal(s, c).None? {
      hide ImportReplayed;
      forall i | 0 <= i < |c.plan|
        ensures Admits(s, c, i)
      {
        PlanItemOk(c.plan, i);
        FreshAdmits(s, c, i);
      }
      ImportVersionsReserve(s, c, |c.plan|);
    }
  }

  // The remaining steps insert no operation.
  lemma NothingNew(s: State, s': State)
    requires s'.ops.Keys == s.ops.Keys
    ensures NewReserved(s, s')
  {
  }

  lemma TerminateInsertsNothing(s: State, t: TaskId, error: ErrorCode)
    requires t in s.tasks && s.tasks[t].gen.Some?
    ensures Terminate(s, t, error).ops.Keys == s.ops.Keys
  {
  }

  lemma FinishInsertsNothing(s: State, claim: Claim, records: seq<Record>, scope: Scope, owner: Owner, action: Action,
                             today: int)
    ensures FinishIndex(s, claim, records, scope, owner, action, today).0.ops.Keys == s.ops.Keys
  {
    hide ValidRecords, CheckInput, Terminate;
    if claim.task in s.tasks && s.tasks[claim.task].gen.Some? {
      forall error
        ensures Terminate(s, claim.task, error).ops.Keys == s.ops.Keys
      {
        TerminateInsertsNothing(s, claim.task, error);
      }
    }
  }

  lemma CommitInsertsNothing(s: State, op: OpId, fingerprint: Fingerprint, actor: Actor, scope: Scope, today: int)
    ensures CommitFinalization(s, op, fingerprint, actor, scope, today).0.ops.Keys == s.ops.Keys
  {
    hide Prepared, FinalReceiptOf, PublishedOf;
  }

  lemma ClaimInsertsNothing(s: State, t: TaskId, actor: Actor, scope: Scope, owner: Owner, index: Index, action: Action,
                            today: int)
    ensures ClaimIndex(s, t, actor, scope, owner, index, action, today).0.ops.Keys == s.ops.Keys
  {
    hide CheckInput;
  }

  lemma ParseInsertsNothing(s: State, t: TaskId, owner: Owner, outcome: ParseOutcome)
    ensures FinishParse(s, t, owner, outcome).0.ops == s.ops && ClaimParse(s, t, owner).0.ops == s.ops
  {
    hide StorableBody;
  }

  lemma StepReserves(w: World, e: Event, w': World)
    requires WellFormed(e) && w' == Next(w, e) && !e.ImportEvent?
    ensures NewReserved(w.s, w'.s)
  {
    hide NewReserved, PlanMatches, PlanOk, AfterPrepare, Owes, AcceptUpload, ClaimParse, FinishParse, AcceptPublication,
      ClaimIndex, FinishIndex, CommitFinalization, Disable, AcceptRetry, Import;
    match e
    case UploadEvent(u) => UploadReserves(w.s, u);
    case PublishEvent(p) => PublicationReserves(w.s, p);
    case RetryEvent(r) => RetryReserves(w.s, r);
    case DisableEvent(cmd, actor, scope, op) => DisableReserves(w.s, cmd, actor, scope, op);
    case ClaimParseEvent(t, owner) => ParseInsertsNothing(w.s, t, owner, ParseOutcome(None, None, None));
      NothingNew(w.s, w'.s);
    case FinishParseEvent(t, owner, outcome) => ParseInsertsNothing(w.s, t, owner, outcome); NothingNew(w.s, w'.s);
    case ClaimIndexEvent(t, actor, scope, owner, index, action, today) =>
      ClaimInsertsNothing(w.s, t, actor, scope, owner, index, action, today); NothingNew(w.s, w'.s);
    case FinishIndexEvent(claim, records, scope, owner, action, today) =>
      FinishInsertsNothing(w.s, claim, records, scope, owner, action, today); NothingNew(w.s, w'.s);
    case CommitEvent(op, fingerprint, actor, scope, today) =>
      CommitInsertsNothing(w.s, op, fingerprint, actor, scope, today); NothingNew(w.s, w'.s);
    case _ => NothingNew(w.s, w'.s);
  }

  lemma MonotoneParts(s: State, s': State)
    requires Monotone(s, s')
    ensures DocsKept(s.docs, s'.docs) && OpsKept(s.ops, s'.ops) && VersKept(s.vers, s'.vers)
  {
  }

  lemma StepIsFenced(w: World, e: Event)
    requires Safe(w) && WellFormed(e) && Fenced(w.s.docs, w.s.ops)
    ensures Fenced(Next(w, e).s.docs, Next(w, e).s.ops)
  {
    hide Inv, WorkOver, Fenced, NewReserved, Import, PlanOk, PlanMatches, DocsKept, OpsKept, VersKept, Monotone,
      AcceptUpload, ClaimParse, FinishParse, AcceptPublication, ClaimIndex, FailIndex, FinishIndex, CommitFinalization,
      RejectFinalization, Disable, AcceptRetry, RecoverInterrupted, AfterPrepare, Owes;
    if e.ImportEvent? {
      ImportReserves(w.s, e.c);
    } else {
      StepIsSafe(w, e);
      var w' := Next(w, e);
      StepReserves(w, e, w');
      MonotoneParts(w.s, w'.s);
      FencedKept(w.s, w'.s);
    }
  }

  lemma {:induction false} RunIsFenced(es: seq<Event>)
    requires AllWellFormed(es)
    ensures Fenced(Run(START, es).s.docs, Run(START, es).s.ops)
    decreases |es|
  {
    hide Next, Safe, WellFormed, Inv;
    if es != [] {
      RunIsFenced(es[..|es| - 1]);
      var w1 := Run(START, es[..|es| - 1]);
      assert Reachable(w1);
      ReachableIsSafe(w1);
      hide Fenced;
      StepIsFenced(w1, es[|es| - 1]);
    }
  }

  // --- Equal counters mean equal sets of accepted and finalized operations ---

  lemma SubsetOfSameSize<T>(a: set<T>, b: set<T>)
    requires a <= b && |a| >= |b|
    ensures a == b
  {
    assert b == a + (b - a);
    assert |b| == |a| + |b - a|;
  }

  lemma SubsetIsSmaller<T>(a: set<T>, b: set<T>)
    requires a <= b
    ensures |a| <= |b|
  {
    assert b == a + (b - a);
  }

  lemma IntentsGrow(s: State, s': State, d: DocId)
    requires VersKept(s.vers, s'.vers) && OpsKept(s.ops, s'.ops)
    ensures Intents(s.vers, s.ops, d) <= Intents(s'.vers, s'.ops, d)
            && Finalized(s.vers, s.ops, d) <= Finalized(s'.vers, s'.ops, d)
    ensures IsImported(s.vers, d) ==> IsImported(s'.vers, d)
  {
    forall o | o in s.ops && s.ops[o].version in s.vers
      ensures o in s'.ops && OpKept(s.ops[o], s'.ops[o]) && s.ops[o].version in s'.vers
      ensures VersionKept(s.vers[s.ops[o].version], s'.vers[s.ops[o].version])
    {
    }
    if IsImported(s.vers, d) {
      var v :| v in s.vers && s.vers[v].doc == d && s.vers[v].origin.Imported?;
      assert VersionKept(s.vers[v], s'.vers[v]);
    }
  }

  lemma SameCounterSameIntents(s: State, s': State, d: DocId)
    requires RowsCounted(s.docs, s.vers, s.ops) && RowsCounted(s'.docs, s'.vers, s'.ops) && VersKept(s.vers, s'.vers)
             && OpsKept(s.ops, s'.ops)
    requires d in s.docs && d in s'.docs && s.docs[d].rowVersion == s'.docs[d].rowVersion
    ensures Intents(s'.vers, s'.ops, d) == Intents(s.vers, s.ops, d)
            && Finalized(s'.vers, s'.ops, d) == Finalized(s.vers, s.ops, d)
  {
    IntentsGrow(s, s', d);
    hide Intents, Finalized, IsImported, VersKept, OpsKept;
    SubsetIsSmaller(Intents(s.vers, s.ops, d), Intents(s'.vers, s'.ops, d));
    SubsetIsSmaller(Finalized(s.vers, s.ops, d), Finalized(s'.vers, s'.ops, d));
    SubsetOfSameSize(Intents(s.vers, s.ops, d), Intents(s'.vers, s'.ops, d));
    SubsetOfSameSize(Finalized(s.vers, s.ops, d), Finalized(s'.vers, s'.ops, d));
  }

  lemma DraftIsUnfinished(s: State, v: VerId)
    requires OpsOk(s.vers, s.revs, s.gens, s.ops) && VersOk(s.vers, s.revs, s.gens) && v in s.vers
             && s.vers[v].state == Draft
    ensures s.vers[v].origin.Uploaded? && forall o :: o in Finalized(s.vers, s.ops, s.vers[v].doc) ==>
            s.ops[o].version != v
  {
    assert Sealed(v, s.vers[v], s.gens);
    forall o | o in Finalized(s.vers, s.ops, s.vers[v].doc)
      ensures s.ops[o].version != v
    {
      assert OpOk(s.vers, s.revs, s.gens, s.ops[o]);
    }
  }

  lemma SealedIsFinished(s: State, v: VerId)
    requires SealedByOps(s.vers, s.ops) && v in s.vers && s.vers[v].state != Draft && s.vers[v].origin.Uploaded?
    ensures exists o :: o in Finalized(s.vers, s.ops, s.vers[v].doc) && s.ops[o].version == v
  {
    EachSealed(s.vers, s.ops);
    var o :| o in s.ops && Finished(s.ops[o], PUBLISH) && s.ops[o].version == v;
    assert o in Finalized(s.vers, s.ops, s.vers[v].doc);
  }

  lemma SameCounterSameState(s: State, s': State, v: VerId)
    requires DocsOk(s.docs, s.vers) && PointersOk(s.docs, s.vers) && PointersOk(s'.docs, s'.vers)
             && SealedByOps(s'.vers, s'.ops)
    requires OpsOk(s.vers, s.revs, s.gens, s.ops) && VersOk(s.vers, s.revs, s.gens)
    requires VersKept(s.vers, s'.vers) && DocsKept(s.docs, s'.docs) && OpsKept(s.ops, s'.ops) && v in s.vers
    requires s.vers[v].doc in s'.docs && s.docs[s.vers[v].doc].rowVersion == s'.docs[s.vers[v].doc].rowVersion
    requires Finalized(s'.vers, s'.ops, s.vers[v].doc) == Finalized(s.vers, s.ops, s.vers[v].doc)
    ensures v in s'.vers && s'.vers[v].state == s.vers[v].state
  {
    var d := s.vers[v].doc;
    assert VersionKept(s.vers[v], s'.vers[v]) && DocumentKept(s.docs[d], s'.docs[d]);
    forall o | o in Finalized(s.vers, s.ops, d)
      ensures o in s'.ops && s'.ops[o].version == s.ops[o].version
    {
      assert OpKept(s.ops[o], s'.ops[o]);
    }
    if s.vers[v].state == Draft {
      DraftIsUnfinished(s, v);
      if s'.vers[v].state != Draft {
        SealedIsFinished(s', v);
      }
    }
  }

  lemma PreparedAtReservedRow(s: State, o: OpId, scope: Scope, today: int)
    requires o in s.ops && s.ops[o].version in s.vers && s.vers[s.ops[o].version].doc in s.docs
             && Prepared(s, o, scope, today).Ok?
    ensures s.ops[o].conf.doc == s.vers[s.ops[o].version].doc
    ensures s.docs[s.ops[o].conf.doc].rowVersion == s.ops[o].conf.expectedRow + 1
  {
  }

  lemma FencedAt(w: World, o: OpId)
    requires Reachable(w) && o in w.s.ops
    ensures Reserved(w.s.docs, w.s.ops[o])
  {
    hide Next, WellFormed;
    var es :| AllWellFormed(es) && w == Run(START, es);
    RunIsFenced(es);
  }

  // Nothing took effect on a document between two states.
  ghost predicate Undisturbed(s: State, s': State, d: DocId) {
    && d in s.docs && d in s'.docs && s'.docs[d].rowVersion == s.docs[d].rowVersion
    && Intents(s'.vers, s'.ops, d) == Intents(s.vers, s.ops, d)
       && Finalized(s'.vers, s'.ops, d) == Finalized(s.vers, s.ops, d)
    && forall v :: v in s.vers && s.vers[v].doc == d ==> v in s'.vers && s'.vers[v].state == s.vers[v].state
  }

  lemma SameCounterUndisturbed(s: State, s': State, d: DocId)
    requires Inv(s) && Inv(s') && Monotone(s, s') && d in s.docs && d in s'.docs
             && s'.docs[d].rowVersion == s.docs[d].rowVersion
    ensures Undisturbed(s, s', d)
  {
    hide DocsOk, PointersOk, VersOk, RevsOk, SpecsUnique, GensOk, EvidenceOk, OpsOk, ActiveOk, OneActive, KeysUnique,
      FinishedOnce, SealedByOps, TasksOk, TasksUnique, ParsesUnique, BuildingOk, OpsHaveTasks, RetriesOk, RetriesUnique,
      RowsCounted, ReleaseCounted, DocsKept, VersKept, RevsKept, OpsKept, TasksKept, GensKept, ChunksKept, Intents,
      Finalized;
    SameCounterSameIntents(s, s', d);
    forall v | v in s.vers && s.vers[v].doc == d
      ensures v in s'.vers && s'.vers[v].state == s.vers[v].state
    {
      SameCounterSameState(s, s', v);
    }
  }

  /**
    * If the finalization of an operation can commit, then since any earlier state that already held the operation
    * nothing was accepted on its document, nothing was finalized and no version of it changed state.
    */
  lemma FenceIsSound(w: World, w': World, o: OpId, scope: Scope, today: int)
    requires Reachable(w) && Follows(w, w') && o in w.s.ops && o in w'.s.ops
    requires w'.s.ops[o].version in w'.s.vers && w'.s.vers[w'.s.ops[o].version].doc in w'.s.docs
    requires Prepared(w'.s, o, scope, today).Ok?
    ensures Undisturbed(w.s, w'.s, w'.s.vers[w'.s.ops[o].version].doc)
  {
    hide Next, Inv, WorkOver, Prepared, Undisturbed;
    ReachableIsSafe(w);
    LaterIsMonotone(w, w');
    FencedAt(w, o);
    PreparedAtReservedRow(w'.s, o, scope, today);
    hide Reachable, Follows, VersKept, RevsKept, TasksKept, GensKept, ChunksKept;
    assert OpKept(w.s.ops[o], w'.s.ops[o]);
    assert DocumentKept(w.s.docs[w.s.ops[o].conf.doc], w'.s.docs[w.s.ops[o].conf.doc]);
    hide DocsKept, OpsKept;
    SameCounterUndisturbed(w.s, w'.s, w.s.ops[o].conf.doc);
  }
}
