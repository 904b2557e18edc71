/**
  * What is stored was checked before it was stored. A body is in the tables only together with a finished parse: the
  * step that writes a body finishes the parse of its revision in the same transaction, and a finished parse stays
  * finished. The chunks of a generation that was built here meet the record schema: only a save whose records were
  * checked writes them, and nothing writes them again.
  */
module KnowledgeBodies {
  import opened Wrappers
  import opened KnowledgeTypes
  import opened KnowledgeSteps
  import opened KnowledgeInvariant
  import opened KnowledgeMonotone
  import opened KnowledgeImporting
  import opened KnowledgeRuns

  ghost predicate BodiesParsed(revs: Revs, tasks: Tasks) {
    forall k {:trigger Parsed(tasks, k.version, k.rev)} :: k in revs && revs[k].body.Some? ==>
      Parsed(tasks, k.version, k.rev)
  }

  // Bodies that a step writes come with a finished parse.
  ghost predicate BodiesCome(s: State, s': State) {
    forall k {:trigger Parsed(s'.tasks, k.version, k.rev)} :: k in s'.revs && s'.revs[k].body.Some? ==>
      (k in s.revs && s.revs[k].body.Some?) || Parsed(s'.tasks, k.version, k.rev)
  }

  // Every stored record of a generation that was built here meets the record schema.
  ghost predicate RecordsValid(gens: Gens, chunks: Chunks) {
    forall g :: g in chunks && g in gens && gens[g].built == Generated ==> AllValid(chunks[g])
  }

  // Records that a step writes for a generation built here were checked.
  ghost predicate RecordsCome(s: State, s': State) {
    forall g :: g in s'.chunks && g in s'.gens && s'.gens[g].built == Generated ==>
      (g in s.chunks && s'.chunks[g] == s.chunks[g]) || AllValid(s'.chunks[g])
  }

  ghost predicate Checked(s: State) {
    BodiesParsed(s.revs, s.tasks) && RecordsValid(s.gens, s.chunks)
  }

  ghost predicate ComesChecked(s: State, s': State) {
    BodiesCome(s, s') && RecordsCome(s, s')
  }

  lemma ParsedKept(tasks: Tasks, tasks': Tasks, v: VerId, rev: nat)
    requires TasksKept(tasks, tasks') && Parsed(tasks, v, rev)
    ensures Parsed(tasks', v, rev)
  {
    var t :| t in tasks && tasks[t].version == v && tasks[t].rev == rev && tasks[t].kind == PARSE
      && tasks[t].state == TaskSucceeded;
    assert TaskKept(tasks[t], tasks'[t]);
  }

  lemma BodiesKept(s: State, s': State)
    requires BodiesParsed(s.revs, s.tasks) && TasksKept(s.tasks, s'.tasks) && BodiesCome(s, s')
    ensures BodiesParsed(s'.revs, s'.tasks)
  {
    forall k | k in s'.revs && s'.revs[k].body.Some?
      ensures Parsed(s'.tasks, k.version, k.rev)
    {
      if k in s.revs && s.revs[k].body.Some? && !Parsed(s'.tasks, k.version, k.rev) {
        ParsedKept(s.tasks, s'.tasks, k.version, k.rev);
      }
    }
  }

  lemma RecordsKept(s: State, s': State)
    requires RecordsValid(s.gens, s.chunks) && GensKept(s.gens, s'.gens) && s.chunks.Keys <= s.gens.Keys
             && RecordsCome(s, s')
    ensures RecordsValid(s'.gens, s'.chunks)
  {
    hide AllValid;
    forall g | g in s'.chunks && g in s'.gens && s'.gens[g].built == Generated
      ensures AllValid(s'.chunks[g])
    {
      if g in s.chunks && s'.chunks[g] == s.chunks[g] {
        assert GenKept(s.gens[g], s'.gens[g]);
      }
    }
  }

  lemma CheckedKept(s: State, s': State)
    requires Checked(s) && TasksKept(s.tasks, s'.tasks) && GensKept(s.gens, s'.gens) && s.chunks.Keys <= s.gens.Keys
    requires ComesChecked(s, s')
    ensures Checked(s')
  {
    BodiesKept(s, s');
    RecordsKept(s, s');
  }

  lemma NothingWritten(s: State, s': State)
    requires s'.revs == s.revs && s'.chunks == s.chunks
    ensures ComesChecked(s, s')
  {
    hide AllValid, Parsed;
  }

  lemma UploadBodies(s: State, u: UploadCall)
    requires ValidCommand(u.cmd) && PlanMatches(u.cmd, u.plan)
    ensures ComesChecked(s, AcceptUpload(s, u).0)
  {
    hide AllValid, UploadResult, ActiveTasksOn, ActiveOpsOn, BuildingOn, UploadRefusal, EndTasks, EndOps, EndGens,
      Parsed;
  }

  lemma ParseBodies(s: State, t: TaskId, owner: Owner, outcome: ParseOutcome)
    ensures ComesChecked(s, FinishParse(s, t, owner, outcome).0)
  {
    hide StorableBody, AllValid;
    var s' := FinishParse(s, t, owner, outcome).0;
    if s'.revs != s.revs {
      var k := RevKey(s.tasks[t].version, s.tasks[t].rev);
      assert s'.tasks[t].state == TaskSucceeded && s'.tasks[t].kind == PARSE;
      assert Parsed(s'.tasks, k.version, k.rev);
    }
  }

  lemma ImportVersionBodies(s: State, c: ImportCall, number: nat)
    requires number < |c.plan| && Admits(s, c, number)
    ensures ComesChecked(s, ImportVersion(s, c, number)) && TasksKept(s.tasks, ImportVersion(s, c, number).tasks)
    ensures GensKept(s.gens, ImportVersion(s, c, number).gens)
  {
    hide AllValid;
    var item := c.plan[number];
    var s' := ImportVersion(s, c, number);
    assert s'.tasks[item.parseTask] == ImportedParse(item, c);
    assert Parsed(s'.tasks, item.version, 1);
    hide Parsed;
  }

  lemma ImportVersionKeepsChecked(s: State, c: ImportCall, number: nat)
    requires Inv(s) && number < |c.plan| && Admits(s, c, number) && Checked(s)
    ensures Checked(ImportVersion(s, c, number))
  {
    hide Inv, Admits, Checked, ComesChecked, TasksKept, GensKept;
    ImportVersionBodies(s, c, number);
    ChunksHaveGens(s);
    hide ImportVersion;
    CheckedKept(s, ImportVersion(s, c, number));
  }

  lemma {:induction false} ImportVersionsBodies(s: State, c: ImportCall, n: nat)
    requires Inv(s) && n <= |c.plan| && PlanOk(c.plan) && (forall i :: 0 <= i < |c.plan| ==> Admits(s, c, i))
    requires Checked(s)
    ensures Checked(ImportVersions(s, c, n))
  {
    hide Inv, Monotone, Admits, Checked, PlanOk, ImportVersion;
    if n > 0 {
      ImportVersionsBodies(s, c, n - 1);
      ImportVersionsKeeps(s, c, n - 1);
      ImportVersionKeepsChecked(ImportVersions(s, c, n - 1), c, n - 1);
    }
  }

  lemma ChunksHaveGens(s: State)
    requires Inv(s)
    ensures s.chunks.Keys <= s.gens.Keys
  {
  }

  lemma CatalogIsUnchecked(s: State, catalog: CatalogHash, release: nat)
    requires Checked(s)
    ensures Checked(s.(catalog := Some(catalog), release := release))
  {
    hide BodiesParsed, RecordsValid;
  }

  lemma ImportBodies(s: State, c: ImportCall)
    requires Inv(s) && PlanOk(c.plan) && Checked(s)
    ensures Checked(Import(s, c).0)
  {
    hide Inv, Admits, Checked, PlanOk, ImportVersions, ItemFresh, ItemOk;
    if !ImportReplayed(s, c) && ImportRefusal(s, c).None? {
      hide ImportReplayed;
      forall i | 0 <= i < |c.plan|
        ensures Admits(s, c, i)
      {
        PlanItemOk(c.plan, i);
        FreshAdmits(s, c, i);
      }
      ImportVersionsBodies(s, c, |c.plan|);
      CatalogIsUnchecked(ImportVersions(s, c, |c.plan|), c.cmd.catalog, s.release + 1);
    }
  }

  // The remaining steps write no revision, and a save writes checked records.
  lemma BuildsWriteNone(s: State, t: TaskId, actor: Actor, scope: Scope, owner: Owner, index: Index, action: Action,
                        today: int, error: ErrorCode)
    ensures ClaimIndex(s, t, actor, scope, owner, index, action, today).0.revs == s.revs
    ensures FailIndex(s, t, actor, owner, error, action).0.revs == s.revs
    ensures ClaimIndex(s, t, actor, scope, owner, index, action, today).0.chunks == s.chunks
    ensures FailIndex(s, t, actor, owner, error, action).0.chunks == s.chunks
  {
    hide CheckInput, EndTasks, EndOps, EndGens;
  }

  lemma FinishIsChecked(s: State, claim: Claim, records: seq<Record>, scope: Scope, owner: Owner, action: Action,
                         today: int)
    ensures ComesChecked(s, FinishIndex(s, claim, records, scope, owner, action, today).0)
  {
    hide Evidence, AllValid, WellNumbered, CheckInput, ComesChecked, CompleteBuild, Terminate;
    var s' := FinishIndex(s, claim, records, scope, owner, action, today).0;
    NothingWritten(s, s);
    if claim.task in s.tasks && s.tasks[claim.task].gen.Some? {
      forall error
        ensures ComesChecked(s, Terminate(s, claim.task, error))
      {
        TerminateWritesNone(s, claim.task, error);
        NothingWritten(s, Terminate(s, claim.task, error));
      }
      if s.tasks[claim.task].op in s.ops && s.tasks[claim.task].gen.value in s.gens && AllValid(records) {
        CompleteIsChecked(s, claim.task, records);
      }
    }
  }

  lemma TerminateWritesNone(s: State, t: TaskId, error: ErrorCode)
    requires t in s.tasks && s.tasks[t].gen.Some?
    ensures Terminate(s, t, error).revs == s.revs && Terminate(s, t, error).chunks == s.chunks
  {
  }

  lemma CompleteIsChecked(s: State, t: TaskId, records: seq<Record>)
    requires t in s.tasks && s.tasks[t].op in s.ops && s.tasks[t].gen.Some? && s.tasks[t].gen.value in s.gens
    requires AllValid(records)
    ensures ComesChecked(s, CompleteBuild(s, t, records))
  {
    hide AllValid, Parsed;
  }

  lemma PublishWritesNone(s: State, p: PublishCall)
    ensures AcceptPublication(s, p).0.revs == s.revs && AcceptPublication(s, p).0.chunks == s.chunks
  {
    hide PublicationResult, FirstReusable;
  }

  lemma RetryWritesNone(s: State, r: RetryCall)
    ensures AcceptRetry(s, r).0.revs == s.revs && AcceptRetry(s, r).0.chunks == s.chunks
  {
    hide RetryResult, RetrySource;
  }

  lemma CommitWritesNone(s: State, op: OpId, fingerprint: Fingerprint, actor: Actor, scope: Scope, today: int)
    ensures CommitFinalization(s, op, fingerprint, actor, scope, today).0.revs == s.revs
            && CommitFinalization(s, op, fingerprint, actor, scope, today).0.chunks == s.chunks
  {
    hide Prepared, FinalReceiptOf, PublishedOf;
  }

  lemma DisableWritesNone(s: State, cmd: DisableCommand, actor: Actor, scope: Scope, op: OpId)
    ensures Disable(s, cmd, actor, scope, op).0.revs == s.revs && Disable(s, cmd, actor, scope, op).0.chunks == s.chunks
  {
    hide DisableSnapshot, DisableReceiptOf, PendingOps, PendingTasks, PendingGens, EndTasks, EndOps, EndGens;
  }

  lemma StepBodies(w: World, e: Event, w': World)
    requires WellFormed(e) && w' == Next(w, e) && !e.ImportEvent?
    ensures ComesChecked(w.s, w'.s)
  {
    hide ComesChecked, PlanMatches, PlanOk, AfterPrepare, Owes, AcceptUpload, FinishParse, AcceptPublication,
      ClaimIndex, FailIndex, FinishIndex, CommitFinalization, Disable, AcceptRetry, Import;
    match e
    case UploadEvent(u) => UploadBodies(w.s, u);
    case FinishParseEvent(t, owner, outcome) => ParseBodies(w.s, t, owner, outcome);
    case PublishEvent(p) => PublishWritesNone(w.s, p); NothingWritten(w.s, w'.s);
    case RetryEvent(r) => RetryWritesNone(w.s, r); NothingWritten(w.s, w'.s);
    case ClaimIndexEvent(t, actor, scope, owner, index, action, today) =>
      BuildsWriteNone(w.s, t, actor, scope, owner, index, action, today, ToolTimeout); NothingWritten(w.s, w'.s);
    case FailIndexEvent(t, actor, owner, error, action) =>
      BuildsWriteNone(w.s, t, actor, 0, owner, Index(0, 0, 0, 0), action, 0, error); NothingWritten(w.s, w'.s);
    case FinishIndexEvent(claim, records, scope, owner, action, today) =>
      FinishIsChecked(w.s, claim, records, scope, owner, action, today);
    case CommitEvent(op, fingerprint, actor, scope, today) =>
      CommitWritesNone(w.s, op, fingerprint, actor, scope, today); NothingWritten(w.s, w'.s);
    case DisableEvent(cmd, actor, scope, op) => DisableWritesNone(w.s, cmd, actor, scope, op);
      NothingWritten(w.s, w'.s);
    case _ => NothingWritten(w.s, w'.s);
  }

  lemma StepKeepsBodies(w: World, e: Event)
    requires Safe(w) && WellFormed(e) && Checked(w.s)
    ensures Checked(Next(w, e).s)
  {
    hide Inv, WorkOver, Checked, ComesChecked, Import, PlanOk, PlanMatches, TasksKept, GensKept, Monotone, AcceptUpload,
      ClaimParse, FinishParse, AcceptPublication, ClaimIndex, FailIndex, FinishIndex, CommitFinalization,
      RejectFinalization, Disable, AcceptRetry, RecoverInterrupted, AfterPrepare, Owes;
    if e.ImportEvent? {
      ImportBodies(w.s, e.c);
    } else {
      StepIsSafe(w, e);
      var w' := Next(w, e);
      StepBodies(w, e, w');
      RowsAreKept(w.s, w'.s);
      ChunksHaveGens(w.s);
      CheckedKept(w.s, w'.s);
    }
  }

  lemma RowsAreKept(s: State, s': State)
    requires Monotone(s, s')
    ensures TasksKept(s.tasks, s'.tasks) && GensKept(s.gens, s'.gens)
  {
  }

  lemma {:induction false} RunKeepsBodies(es: seq<Event>)
    requires AllWellFormed(es)
    ensures Checked(Run(START, es).s)
    decreases |es|
  {
    hide Next, Safe, WellFormed, Inv;
    if es != [] {
      RunKeepsBodies(es[..|es| - 1]);
      var w1 := Run(START, es[..|es| - 1]);
      assert Reachable(w1);
      ReachableIsSafe(w1);
      hide Checked;
      StepKeepsBodies(w1, es[|es| - 1]);
    }
  }

  lemma ReachableIsChecked(w: World)
    requires Reachable(w)
    ensures Checked(w.s)
  {
    hide Next, Checked;
    var es :| AllWellFormed(es) && w == Run(START, es);
    RunKeepsBodies(es);
  }

  /** In every reachable state, a revision that has a body has a parse task that SUCCEEDED. */
  lemma BodiesAreParsed(w: World)
    requires Reachable(w)
    ensures BodiesParsed(w.s.revs, w.s.tasks)
  {
    hide Next, BodiesParsed, RecordsValid;
    ReachableIsChecked(w);
  }

  /** In every reachable state, the stored records of a generation that was built here meet the record schema. */
  lemma RecordsAreValid(w: World)
    requires Reachable(w)
    ensures RecordsValid(w.s.gens, w.s.chunks)
  {
    hide Next, BodiesParsed, RecordsValid;
    ReachableIsChecked(w);
  }
}
