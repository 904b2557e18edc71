/**
  * A publication becomes SUCCEEDED by its own commit alone. Every other step leaves it as it is, ends it, or moves it
  * from CONFIRMED to EXECUTING: accepting and importing insert other operations, saving a build completes an operation
  * only for a retry, and recovery, disabling and rejections only end what they touch.
  */
module KnowledgeUnfinished {
  import opened Wrappers
  import opened KnowledgeTypes
  import opened KnowledgeSteps
  import opened KnowledgeInvariant
  import opened KnowledgeRuns
  import opened KnowledgePointers

  ghost predicate Unfinished(s: State, o: OpId) {
    o in s.ops && s.ops[o].state != OpSucceeded
  }

  lemma PublicationLeavesOpen(s: State, o: OpId, p: PublishCall)
    requires Unfinished(s, o)
    ensures Unfinished(AcceptPublication(s, p).0, o)
  {
    hide PublicationResult, PublishCheck, FirstReusable;
  }

  lemma RetryLeavesOpen(s: State, o: OpId, r: RetryCall)
    requires Unfinished(s, o)
    ensures Unfinished(AcceptRetry(s, r).0, o)
  {
    hide RetryResult, RetrySource;
  }

  lemma UploadLeavesOpen(s: State, o: OpId, u: UploadCall)
    requires Unfinished(s, o) && ValidCommand(u.cmd) && PlanMatches(u.cmd, u.plan)
    ensures Unfinished(AcceptUpload(s, u).0, o)
  {
    hide UploadResult, ActiveTasksOn, ActiveOpsOn, BuildingOn;
  }

  lemma DisableLeavesOpen(s: State, o: OpId, cmd: DisableCommand, actor: Actor, scope: Scope, opId: OpId)
    requires Unfinished(s, o)
    ensures Unfinished(Disable(s, cmd, actor, scope, opId).0, o)
  {
    hide DisableReceiptOf, DisableSnapshot, PendingOps, PendingTasks, PendingGens;
  }

  lemma RecoverLeavesOpen(s: State, o: OpId, owner: Owner)
    requires Unfinished(s, o)
    ensures Unfinished(RecoverInterrupted(s, owner), o)
  {
    hide OrphanTasks, OrphanOps, OrphanGens;
  }

  lemma RejectLeavesOpen(s: State, o: OpId, r: Rejection)
    requires Unfinished(s, o)
    ensures Unfinished(RejectFinalization(s, r.op, r.actor, r.scope, r.stale), o)
  {
  }

  lemma TerminateLeavesOpen(s: State, o: OpId, t: TaskId, error: ErrorCode)
    requires Unfinished(s, o) && t in s.tasks && s.tasks[t].gen.Some?
    ensures Unfinished(Terminate(s, t, error), o)
  {
  }

  lemma ClaimLeavesOpen(s: State, o: OpId, t: TaskId, actor: Actor, scope: Scope, owner: Owner, index: Index,
                        action: Action, today: int, error: ErrorCode)
    requires Unfinished(s, o)
    ensures Unfinished(ClaimIndex(s, t, actor, scope, owner, index, action, today).0, o)
    ensures Unfinished(FailIndex(s, t, actor, owner, error, action).0, o)
  {
    hide CheckInput, EndTasks, EndGens;
  }

  lemma CompleteLeavesOpen(s: State, o: OpId, t: TaskId, records: seq<Record>)
    requires Unfinished(s, o) && s.ops[o].action == PUBLISH && TasksOk(s.ops, s.gens, s.tasks)
    requires t in s.tasks && s.tasks[t].op in s.ops && s.tasks[t].gen.Some? && s.tasks[t].gen.value in s.gens
    ensures Unfinished(CompleteBuild(s, t, records), o)
  {
    assert TaskOk(s.ops, s.gens, s.tasks[t]);
    hide TasksOk;
  }

  lemma SaveLeavesOpen(s: State, o: OpId, claim: Claim, records: seq<Record>, scope: Scope, owner: Owner,
                       action: Action, today: int)
    requires Unfinished(s, o) && s.ops[o].action == PUBLISH && TasksOk(s.ops, s.gens, s.tasks)
    ensures Unfinished(FinishIndex(s, claim, records, scope, owner, action, today).0, o)
  {
    hide ValidRecords, WellNumbered, CheckInput, TasksOk, Terminate, CompleteBuild, Unfinished;
    var t := claim.task;
    if t in s.tasks && s.tasks[t].gen.Some? {
      forall error
        ensures Unfinished(Terminate(s, t, error), o)
      {
        TerminateLeavesOpen(s, o, t, error);
      }
      if s.tasks[t].op in s.ops && s.tasks[t].gen.value in s.gens {
        CompleteLeavesOpen(s, o, t, records);
      }
    }
  }

  lemma {:induction false} ImportVersionsLeaveOpen(s: State, o: OpId, c: ImportCall, n: nat)
    requires Unfinished(s, o) && n <= |c.plan|
    requires forall i :: 0 <= i < |c.plan| ==> c.plan[i].uploadOp !in s.ops && c.plan[i].publishOp !in s.ops
    ensures Unfinished(ImportVersions(s, c, n), o)
  {
    if n > 0 {
      ImportVersionsLeaveOpen(s, o, c, n - 1);
    }
  }

  lemma ImportLeavesOpen(s: State, o: OpId, c: ImportCall)
    requires Unfinished(s, o) && PlanOk(c.plan)
    ensures Unfinished(Import(s, c).0, o)
  {
    hide PlanOk, ImportReplayed, ImportVersions;
    if !ImportReplayed(s, c) && ImportRefusal(s, c).None? {
      ImportVersionsLeaveOpen(s, o, c, |c.plan|);
    }
  }

  // A commit that finishes the operation found it prepared and the counters with room.
  ghost predicate CommitsNow(s: State, o: OpId, e: Event) {
    && e.CommitEvent? && e.op == o && FinalRows(s, o, e.actor, e.scope) && Prepared(s, o, e.scope, e.today).Ok?
    && s.release < MAX_COUNTER && s.docs[s.vers[s.ops[o].version].doc].rowVersion < MAX_COUNTER
  }

  lemma CommitLeavesOpen(s: State, o: OpId, e: Event)
    requires Unfinished(s, o) && e.CommitEvent? && !CommitsNow(s, o, e)
    ensures Unfinished(CommitFinalization(s, e.op, e.fingerprint, e.actor, e.scope, e.today).0, o)
  {
    hide Prepared, PublishedOf, FinalReceiptOf;
  }

  lemma ParseLeavesOpen(s: State, o: OpId, t: TaskId, owner: Owner, outcome: ParseOutcome)
    requires Unfinished(s, o)
    ensures Unfinished(ClaimParse(s, t, owner).0, o) && Unfinished(FinishParse(s, t, owner, outcome).0, o)
  {
    ParseMovesNoDocs(s, t, owner, outcome);
    hide ClaimParse, FinishParse;
  }

  /** No other step makes a publication SUCCEEDED. */
  lemma StepLeavesOpen(w: World, o: OpId, e: Event)
    requires TasksOk(w.s.ops, w.s.gens, w.s.tasks) && WellFormed(e) && Unfinished(w.s, o)
             && w.s.ops[o].action == PUBLISH
    requires !CommitsNow(w.s, o, e)
    ensures Unfinished(Next(w, e).s, o)
  {
    hide Unfinished, TasksOk, CommitsNow, PlanMatches, PlanOk, AfterPrepare, Owes, AcceptUpload, ClaimParse,
      FinishParse, AcceptPublication, ClaimIndex, FailIndex, FinishIndex, CommitFinalization, RejectFinalization,
      Disable, AcceptRetry, RecoverInterrupted, Import;
    match e
    case UploadEvent(u) => UploadLeavesOpen(w.s, o, u);
    case ClaimParseEvent(t, owner) => ParseLeavesOpen(w.s, o, t, owner, ParseOutcome(None, None, None));
    case FinishParseEvent(t, owner, outcome) => ParseLeavesOpen(w.s, o, t, owner, outcome);
    case PublishEvent(p) => PublicationLeavesOpen(w.s, o, p);
    case RetryEvent(r) => RetryLeavesOpen(w.s, o, r);
    case ClaimIndexEvent(t, actor, scope, owner, index, action, today) =>
      ClaimLeavesOpen(w.s, o, t, actor, scope, owner, index, action, today, ToolTimeout);
    case FailIndexEvent(t, actor, owner, error, action) =>
      ClaimLeavesOpen(w.s, o, t, actor, 0, owner, Index(0, 0, 0, 0), action, 0, error);
    case FinishIndexEvent(claim, records, scope, owner, action, today) =>
      SaveLeavesOpen(w.s, o, claim, records, scope, owner, action, today);
    case PrepareEvent(op, actor, scope, today, configured) =>
    case CommitEvent(op, fingerprint, actor, scope, today) => CommitLeavesOpen(w.s, o, e);
    case RejectEvent(r) => if r in w.owed { RejectLeavesOpen(w.s, o, r); }
    case DisableEvent(cmd, actor, scope, op) => DisableLeavesOpen(w.s, o, cmd, actor, scope, op);
    case RecoverEvent(owner) => RecoverLeavesOpen(w.s, o, owner);
    case ImportEvent(c) => ImportLeavesOpen(w.s, o, c);
  }
}
