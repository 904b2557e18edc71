/** What an accepted request is answered with. */
module KnowledgeAnswers {
  import opened Wrappers
  import opened KnowledgeTypes
  import opened KnowledgeSteps
  import opened KnowledgeInvariant
  import opened KnowledgeUpload
  import opened KnowledgeAccepting
  import opened KnowledgeOutcomes
  import opened KnowledgeRuns
  import opened KnowledgeReplays
  import opened KnowledgeGuards
  import opened KnowledgeCommitting

  // --- What changes nothing is answered with an error or with an earlier receipt ---

  lemma UnchangedUpload(s: State, u: UploadCall)
    requires ValidCommand(u.cmd) && PlanMatches(u.cmd, u.plan) && AcceptUpload(s, u).0 == s
    ensures AcceptUpload(s, u).1.Ok? ==> AcceptUpload(s, u).1.value.replayed
  {
    hide EndVersion;
  }

  lemma UnchangedPublication(s: State, p: PublishCall)
    requires AcceptPublication(s, p).0 == s
    ensures AcceptPublication(s, p).1.Ok? ==> AcceptPublication(s, p).1.value.replayed
  {
    hide PublicationCandidate, PublicationConfirmation, PendingOn, FirstReusable;
  }

  lemma UnchangedRetry(s: State, r: RetryCall)
    requires AcceptRetry(s, r).0 == s
    ensures AcceptRetry(s, r).1.Ok? ==> AcceptRetry(s, r).1.value.replayed
  {
    if r.index.Some? {
      RetrySourceHasDoc(s, r);
    }
    hide RetrySource;
  }

  lemma RetrySourceHasDoc(s: State, r: RetryCall)
    requires r.index.Some?
    ensures var conf := RetrySource(s, r.cmd.target, r.cmd.task, r.actor, r.scope, r.index.value, r.today);
            conf.Ok? ==> r.cmd.target.doc in s.docs && conf.value.doc == r.cmd.target.doc
  {
    hide PendingOn, HasRetry, Parsed;
  }

  lemma UnchangedDisable(s: State, cmd: DisableCommand, actor: Actor, scope: Scope, opId: OpId)
    requires Disable(s, cmd, actor, scope, opId).0 == s
    ensures Disable(s, cmd, actor, scope, opId).1.Ok? ==> Disable(s, cmd, actor, scope, opId).1.value.replayed
  {
    hide InvalidatePending;
  }

  lemma UnchangedCommit(s: State, o: OpId, fingerprint: Fingerprint, actor: Actor, scope: Scope, today: int)
    requires CommitFinalization(s, o, fingerprint, actor, scope, today).0 == s
    ensures var r := CommitFinalization(s, o, fingerprint, actor, scope, today).1;
            r.Ok? ==> r.value.replayed
  {
    hide Prepared, PublishedOf;
  }

  // --- The receipts of accepted requests ---

  lemma TaskIs(s: State, t: TaskId, o: OpId, kind: TaskType)
    requires TasksUnique(s.tasks) && IsTaskOf(s.tasks, t, o, kind)
    ensures TaskOf(s.tasks, o, kind) == Some(t)
  {
    TasksApart(s.tasks);
    hide TasksUnique;
    var u := TaskOf(s.tasks, o, kind).value;
    assert SameWork(s.tasks[t], s.tasks[u]);
  }

  lemma NoTaskYet(s: State, o: OpId)
    requires TasksOk(s.ops, s.gens, s.tasks) && o !in s.ops
    ensures TaskOf(s.tasks, o, INDEX).None?
  {
    EachTask(s.ops, s.gens, s.tasks);
    hide TasksOk;
  }

  lemma UniqueTasks(s: State)
    requires Inv(s)
    ensures TasksUnique(s.tasks) && TasksOk(s.ops, s.gens, s.tasks)
  {
  }

  // The receipt of a new upload: its queued parse task, on the revision that is now the current one.
  predicate NewUpload(s: State, u: UploadCall, r: UploadReceipt) {
    r == UploadReceipt(u.plan.doc, u.plan.version, u.plan.rev, u.op, u.task,
                       if u.plan.doc in s.docs then s.docs[u.plan.doc].rowVersion + 1 else 1, Queued, true, false)
  }

  lemma UploadReceiptIs(s: State, u: UploadCall, s': State)
    requires UploadGuards(s, u) && UploadRows(s, u, s') && TasksUnique(s'.tasks)
    ensures var r := UploadResult(s', u.op, false);
            r.Ok? && NewUpload(s, u, r.value)
  {
    TaskIs(s', u.task, u.op, PARSE);
    hide NewKey, EndsWork, TasksUnique, TaskOf;
  }

  // The receipt of a new publication: the READY generation that it reuses, or a queued build of its own.
  ghost predicate NewPublication(s: State, p: PublishCall, r: PublishReceipt)
    requires PublicationGuards(s, p)
  {
    var t := p.cmd.target;
    && r.doc == t.doc && r.version == t.version && r.rev == t.rev && r.op == p.op && r.opState == OpConfirmed
    && r.reservedRow == t.row + 1 && !r.replayed
    && if exists g: GenId :: Reuses(s, p, g) then Reuses(s, p, r.gen) && r.genState == Ready && r.task.None?
       else r.gen == p.gen && r.genState == Building && r.task == Some(p.task)
  }

  lemma PublicationReceiptIs(s: State, p: PublishCall, s': State)
    requires PublicationGuards(s, p) && PublicationRows(s, p, s') && TasksUnique(s'.tasks)
    requires TasksOk(s.ops, s.gens, s.tasks) && PublicationResult(s', p.op, p.scope, false).Ok?
    ensures NewPublication(s, p, PublicationResult(s', p.op, p.scope, false).value)
  {
    if exists g: GenId :: Reuses(s, p, g) {
      NoTaskYet(s, p.op);
      var g: GenId :| Reuses(s, p, g) && s'.ops[p.op].conf.gen == Some(g);
      assert SameInput(s, p, g);
    } else {
      TaskIs(s', p.task, p.op, INDEX);
    }
    hide NewKey, Idle, Publishable, Reuses, TasksUnique, TasksOk, TaskOf;
  }

  // The receipt of a new retry: one more attempt, queued on a generation of its own.
  ghost predicate NewRetry(s: State, r: RetryCall, receipt: RetryReceipt)
    requires RetryGuards(s, r)
  {
    var t := r.cmd.target;
    receipt == RetryReceipt(t.doc, t.version, t.rev, r.op, OpConfirmed, r.gen, Building, r.task, Queued, t.row + 1,
                            Some(r.cmd.task), s.tasks[r.cmd.task].attempt + 1, false)
  }

  lemma RetryReceiptIs(s: State, r: RetryCall, s': State)
    requires RetryGuards(s, r) && RetryRows(s, r, s') && TasksUnique(s'.tasks)
    requires RetryResult(s', r.op, r.scope, false).Ok?
    ensures NewRetry(s, r, RetryResult(s', r.op, r.scope, false).value)
  {
    TaskIs(s', r.task, r.op, INDEX);
    hide NewKey, Idle, FailedBuild, SameConfirmation, TasksUnique, TaskOf;
  }

  // --- What is accepted is answered with its own receipt ---

  /** An upload is answered with a new receipt exactly under its guards. */
  lemma UploadAnswers(w: World, u: UploadCall)
    requires Reachable(w) && ValidCommand(u.cmd) && PlanMatches(u.cmd, u.plan)
    ensures var r := AcceptUpload(w.s, u).1;
            && (r.Ok? && !r.value.replayed <==> UploadGuards(w.s, u))
            && (UploadGuards(w.s, u) ==> NewUpload(w.s, u, r.value))
  {
    hide Next, AcceptUpload, EndsWork, PlanMatches, UploadResult;
    UploadAccepted(w.s, u);
    var s' := AcceptUpload(w.s, u).0;
    if s' == w.s {
      UnchangedUpload(w.s, u);
    } else {
      ReachableInv(w);
      AcceptUploadKeeps(w.s, u);
      UniqueTasks(s');
      hide Inv, TasksUnique, TasksOk;
      InsertedUpload(w.s, u);
      UploadReceiptIs(w.s, u, s');
    }
    hide Reachable, Goes;
  }

  /** A publication is answered with a new receipt exactly under its guards. */
  lemma PublicationAnswers(w: World, p: PublishCall)
    requires Reachable(w)
    ensures var r := AcceptPublication(w.s, p).1;
            && (r.Ok? && !r.value.replayed <==> PublicationGuards(w.s, p))
            && (PublicationGuards(w.s, p) ==> NewPublication(w.s, p, r.value))
  {
    hide Next, AcceptPublication, Publishable, Reuses, NewBuild, Idle, PublicationResult, NewPublication;
    PublicationAccepted(w.s, p);
    var s' := AcceptPublication(w.s, p).0;
    if s' == w.s {
      UnchangedPublication(w.s, p);
    } else {
      PublicationIsAtomic(w, p);
      ReachableInv(w);
      AcceptPublicationKeeps(w.s, p);
      InsertedPublication(w.s, p);
      UniqueTasks(w.s);
      UniqueTasks(s');
      hide Inv, TasksUnique, TasksOk;
      PublicationReceiptIs(w.s, p, s');
    }
    hide Reachable;
  }

  /** A retry is answered with a new receipt exactly under its guards. */
  lemma RetryAnswers(w: World, r: RetryCall)
    requires Reachable(w)
    ensures var result := AcceptRetry(w.s, r).1;
            && (result.Ok? && !result.value.replayed <==> RetryGuards(w.s, r))
            && (RetryGuards(w.s, r) ==> NewRetry(w.s, r, result.value))
  {
    hide Next, AcceptRetry, Publishable, Retriable, Idle, RetryResult, NewRetry;
    RetryAccepted(w.s, r);
    var s' := AcceptRetry(w.s, r).0;
    if s' == w.s {
      UnchangedRetry(w.s, r);
    } else {
      RetryIsAtomic(w, r);
      ReachableInv(w);
      AcceptRetryKeeps(w.s, r);
      InsertedRetry(w.s, r);
      UniqueTasks(s');
      hide Inv, TasksUnique, TasksOk;
      RetryReceiptIs(w.s, r, s');
    }
    hide Reachable;
  }

  /** A disable is answered with a new receipt exactly under its guards: no version is current any more. */
  lemma DisableAnswers(w: World, cmd: DisableCommand, actor: Actor, scope: Scope, opId: OpId)
    requires Reachable(w)
    ensures var (t, r) := (cmd.target, Disable(w.s, cmd, actor, scope, opId).1);
            && (r.Ok? && !r.value.replayed <==> DisableGuards(w.s, cmd, actor, scope, opId))
            && (DisableGuards(w.s, cmd, actor, scope, opId) ==>
                  r.value == DisableReceipt(opId, t.doc, t.version, t.rev, w.s.vers[t.version].publishedGen, None,
                                            t.row + 1, w.s.release + 1, false))
  {
    hide Next, Disable, PendingOp, BuiltByPending;
    DisableAccepted(w.s, cmd, actor, scope, opId);
    var s' := Disable(w.s, cmd, actor, scope, opId).0;
    if s' == w.s {
      UnchangedDisable(w.s, cmd, actor, scope, opId);
    } else {
      DisableIsAtomic(w, cmd, actor, scope, opId);
      InsertedDisable(w.s, cmd, actor, scope, opId);
    }
    hide Reachable;
  }

  /** A commit is answered with a new receipt exactly under its guards: the version is current. */
  lemma CommitAnswers(w: World, o: OpId, fingerprint: Fingerprint, actor: Actor, scope: Scope, today: int)
    requires Reachable(w)
    ensures var r := CommitFinalization(w.s, o, fingerprint, actor, scope, today).1;
            && (r.Ok? && !r.value.replayed <==> CommitGuards(w.s, o, fingerprint, actor, scope, today))
            && (CommitGuards(w.s, o, fingerprint, actor, scope, today) ==>
                  && o in w.s.ops && w.s.ops[o].version in w.s.vers
                  && var (row, d) := (w.s.ops[o], w.s.vers[w.s.ops[o].version].doc);
                     d in w.s.docs && row.conf.gen.Some?
                     && r.value == FinalReceipt(o, d, row.version, row.conf.rev, row.conf.gen.value, row.conf.previous,
                                                Published, true, w.s.docs[d].rowVersion + 1, w.s.release + 1, false))
  {
    hide Next, CommitFinalization, CommitGuards;
    PublicationIsCommitted(w, o, fingerprint, actor, scope, today);
    var s' := CommitFinalization(w.s, o, fingerprint, actor, scope, today).0;
    if s' == w.s {
      UnchangedCommit(w.s, o, fingerprint, actor, scope, today);
    } else {
      FinalizationIsAtomic(w, o, fingerprint, actor, scope, today);
      SwitchedOp(w.s, o, fingerprint, actor, scope, today);
    }
    hide Reachable;
  }
}
