/**
  * Claiming and failing an index build keep the invariant. A claim moves one task and its operation together and
  * touches nothing else; a failure ends the task, its operation and its generation together, and no other row of any
  * table.
  */
module KnowledgeProgress {
  import opened Wrappers
  import opened KnowledgeTypes
  import opened KnowledgeSteps
  import opened KnowledgeInvariant
  import opened KnowledgeMonotone
  import opened KnowledgeWork

  // One index task and its operation change state together; nothing else about them does.
  ghost predicate PairMoves(ops: Ops, tasks: Tasks, t: TaskId, ops': Ops, tasks': Tasks) {
    && t in tasks && tasks[t].kind == INDEX && tasks[t].op in ops && ActiveTask(tasks[t]) && ActiveOp(ops[tasks[t].op])
    && t in tasks' && tasks' == tasks[t := tasks[t].(state := tasks'[t].state)]
    && tasks[t].op in ops'
    && ops' == ops[tasks[t].op :=
                   ops[tasks[t].op].(state := ops'[tasks[t].op].state, result := ops'[tasks[t].op].result)]
  }

  lemma OtherTasksOtherOps(ops: Ops, gens: Gens, tasks: Tasks, t: TaskId, u: TaskId)
    requires TasksOk(ops, gens, tasks) && TasksUnique(tasks) && t in tasks && u in tasks && t != u
             && tasks[t].kind == INDEX
    ensures tasks[u].op != tasks[t].op && (tasks[u].gen.Some? ==> tasks[u].gen != tasks[t].gen)
  {
    TasksApart(tasks);
    assert TaskOk(ops, gens, tasks[t]) && TaskOk(ops, gens, tasks[u]);
  }

  lemma PairTasksOk(ops: Ops, gens: Gens, tasks: Tasks, t: TaskId, ops': Ops, gens': Gens, tasks': Tasks)
    requires PairMoves(ops, tasks, t, ops', tasks') && TasksOk(ops, gens, tasks) && TasksUnique(tasks)
    requires GensKept(gens, gens') && forall g :: g in gens && tasks[t].gen != Some(g) ==> gens'[g] == gens[g]
    requires TaskOk(ops', gens', tasks'[t])
    ensures TasksOk(ops', gens', tasks')
  {
    forall u | u in tasks'
      ensures TaskOk(ops', gens', tasks'[u])
    {
      if u != t {
        OtherTasksOtherOps(ops, gens, tasks, t, u);
        assert TaskOk(ops, gens, tasks[u]);
      }
    }
  }

  lemma PairTablesOk(revs: Revs, ops: Ops, tasks: Tasks, t: TaskId, ops': Ops, tasks': Tasks)
    requires PairMoves(ops, tasks, t, ops', tasks')
    requires TasksUnique(tasks) && ParsesUnique(revs, tasks) && RetriesUnique(tasks) && KeysUnique(ops)
    ensures TasksUnique(tasks') && ParsesUnique(revs, tasks') && RetriesUnique(tasks') && KeysUnique(ops')
  {
    TasksApart(tasks);
    ParsesApart(revs, tasks);
    RetriesApart(tasks);
    KeysApart(ops);
  }

  lemma PairRetriesOk(ops: Ops, tasks: Tasks, t: TaskId, ops': Ops, tasks': Tasks)
    requires PairMoves(ops, tasks, t, ops', tasks') && RetriesOk(ops, tasks)
    ensures RetriesOk(ops', tasks')
  {
    forall u | u in tasks'
      ensures RetryOk(ops', tasks', tasks'[u])
    {
      assert RetryOk(ops, tasks, tasks[u]);
    }
  }

  lemma PairHasTasks(ops: Ops, gens: Gens, tasks: Tasks, t: TaskId, ops': Ops, gens': Gens, tasks': Tasks)
    requires PairMoves(ops, tasks, t, ops', tasks') && GensKept(gens, gens') && OpsHaveTasks(ops, gens, tasks)
    ensures OpsHaveTasks(ops', gens', tasks')
  {
    EachWork(ops, gens, tasks);
    forall o, kind | HasTask(tasks, o, kind)
      ensures HasTask(tasks', o, kind)
    {
      var u :| IsTaskOf(tasks, u, o, kind);
      assert IsTaskOf(tasks', u, o, kind);
    }
    assert IsTaskOf(tasks', t, tasks[t].op, INDEX);
    assert forall g :: g in gens && gens[g].state == Ready ==> GenKept(gens[g], gens'[g]);
  }

  lemma PairIntents(vers: Vers, ops: Ops, tasks: Tasks, t: TaskId, ops': Ops, tasks': Tasks)
    requires PairMoves(ops, tasks, t, ops', tasks') && ops'[tasks[t].op].state != OpConfirmed
    requires ops'[tasks[t].op].state == OpSucceeded ==> ops[tasks[t].op].action == RETRY_INDEX
    requires ActiveOk(vers, ops) && OneActive(vers, ops) && FinishedOnce(ops) && SealedByOps(vers, ops)
    ensures ActiveOk(vers, ops') && OneActive(vers, ops') && FinishedOnce(ops') && SealedByOps(vers, ops')
  {
    EachSealed(vers, ops);
    assert forall o :: o in ops' && ActiveOp(ops'[o]) ==>
      ActiveOp(ops[o]) && ops'[o].version == ops[o].version && ops'[o].rev == ops[o].rev;
    forall v, action | (action == PUBLISH || action == DISABLE) && HasFinished(ops, v, action)
      ensures HasFinished(ops', v, action)
    {
      var o :| o in ops && Finished(ops[o], action) && ops[o].version == v;
      assert o in ops' && Finished(ops'[o], action);
    }
    forall o, p | o in ops' && p in ops' && FinishedAlike(ops'[o], ops'[p])
      ensures o == p
    {
      assert FinishedAlike(ops[o], ops[p]);
    }
  }

  // Operations that count the same.
  ghost predicate CountAlike(ops: Ops, ops': Ops) {
    ops'.Keys == ops.Keys
    && forall o :: o in ops ==> ops'[o].version == ops[o].version && ops'[o].action == ops[o].action
                                && (Finished(ops'[o], PUBLISH) <==> Finished(ops[o], PUBLISH))
  }

  lemma CountAlikeSets(vers: Vers, ops: Ops, ops': Ops, d: DocId)
    requires CountAlike(ops, ops')
    ensures Intents(vers, ops', d) == Intents(vers, ops, d) && Finalized(vers, ops', d) == Finalized(vers, ops, d)
  {
  }

  lemma CountAlikeRows(docs: Docs, vers: Vers, ops: Ops, ops': Ops)
    requires CountAlike(ops, ops') && RowsCounted(docs, vers, ops)
    ensures RowsCounted(docs, vers, ops')
  {
    hide CountAlike, Intents, Finalized;
    forall d | d in docs
      ensures Intents(vers, ops', d) == Intents(vers, ops, d) && Finalized(vers, ops', d) == Finalized(vers, ops, d)
    {
      CountAlikeSets(vers, ops, ops', d);
    }
  }

  lemma PairCounts(ops: Ops, tasks: Tasks, t: TaskId, ops': Ops, tasks': Tasks)
    requires PairMoves(ops, tasks, t, ops', tasks')
    requires ops'[tasks[t].op].state == OpSucceeded ==> ops[tasks[t].op].action == RETRY_INDEX
    ensures CountAlike(ops, ops')
  {
  }

  lemma StartedOps(s: State, t: TaskId, ops': Ops, tasks': Tasks)
    requires PairMoves(s.ops, s.tasks, t, ops', tasks') && ops'[s.tasks[t].op].state == OpExecuting
    requires ops'[s.tasks[t].op].result == s.ops[s.tasks[t].op].result
    requires OpsOk(s.vers, s.revs, s.gens, s.ops)
    ensures OpsOk(s.vers, s.revs, s.gens, ops')
  {
    forall o | o in ops'
      ensures OpOk(s.vers, s.revs, s.gens, ops'[o])
    {
      assert OpOk(s.vers, s.revs, s.gens, s.ops[o]);
    }
  }

  lemma StartedBuilding(s: State, t: TaskId, ops': Ops, tasks': Tasks)
    requires PairMoves(s.ops, s.tasks, t, ops', tasks') && tasks'[t].state == Running && BuildingOk(s.gens, s.tasks)
    ensures BuildingOk(s.gens, tasks')
  {
    forall g | g in s.gens && s.gens[g].state == Building
      ensures exists u :: Builds(tasks', u, g)
    {
      var u :| Builds(s.tasks, u, g);
      assert Builds(tasks', u, g);
    }
  }

  lemma StartIsPair(s: State, t: TaskId, s': State)
    requires TasksOk(s.ops, s.gens, s.tasks) && t in s.tasks && s.tasks[t].kind == INDEX && s.tasks[t].state == Queued
    requires s.tasks[t].op in s.ops && s' == StartBuild(s, t)
    ensures PairMoves(s.ops, s.tasks, t, s'.ops, s'.tasks) && TaskOk(s'.ops, s'.gens, s'.tasks[t])
    ensures s'.ops[s.tasks[t].op].state == OpExecuting && s'.ops[s.tasks[t].op].result == s.ops[s.tasks[t].op].result
    ensures s'.tasks[t].state == Running && Monotone(s, s')
  {
    assert TaskOk(s.ops, s.gens, s.tasks[t]);
    hide TasksOk;
  }

  /** A claim makes the queued task RUNNING and its operation EXECUTING. */
  lemma StartBuildKeeps(s: State, t: TaskId, s': State)
    requires Inv(s) && t in s.tasks && s.tasks[t].kind == INDEX && s.tasks[t].state == Queued && s.tasks[t].op in s.ops
    requires s' == StartBuild(s, t)
    ensures Inv(s') && Monotone(s, s')
  {
    hide DocsOk, PointersOk, VersOk, RevsOk, SpecsUnique, GensOk, EvidenceOk, OpsOk, ActiveOk, OneActive, KeysUnique,
      FinishedOnce, SealedByOps, TasksOk, TasksUnique, ParsesUnique, BuildingOk, OpsHaveTasks, RetriesOk, RetriesUnique,
      RowsCounted, ReleaseCounted, TaskOk, Monotone;
    StartIsPair(s, t, s');
    hide PairMoves, CountAlike;
    PairTasksOk(s.ops, s.gens, s.tasks, t, s'.ops, s.gens, s'.tasks);
    PairTablesOk(s.revs, s.ops, s.tasks, t, s'.ops, s'.tasks);
    PairRetriesOk(s.ops, s.tasks, t, s'.ops, s'.tasks);
    PairHasTasks(s.ops, s.gens, s.tasks, t, s'.ops, s.gens, s'.tasks);
    PairIntents(s.vers, s.ops, s.tasks, t, s'.ops, s'.tasks);
    PairCounts(s.ops, s.tasks, t, s'.ops, s'.tasks);
    CountAlikeRows(s.docs, s.vers, s.ops, s'.ops);
    StartedOps(s, t, s'.ops, s'.tasks);
    StartedBuilding(s, t, s'.ops, s'.tasks);
  }

  lemma ClaimIndexKeeps(s: State, t: TaskId, actor: Actor, scope: Scope, owner: Owner, index: Index, action: Action,
                        today: int)
    requires Inv(s)
    ensures Inv(ClaimIndex(s, t, actor, scope, owner, index, action, today).0)
    ensures Monotone(s, ClaimIndex(s, t, actor, scope, owner, index, action, today).0)
  {
    hide Inv, Monotone, CheckInput, Terminate, StartBuild;
    MonotoneSame(s);
    if IndexRows(s, t, actor, action) && Claimable(s, t, owner, Queued, OpConfirmed) {
      var record := CheckInput(s, t, actor, scope, index, action, today);
      if record.Err? {
        TerminateKeeps(s, t, InputError(record.error));
      } else {
        StartBuildKeeps(s, t, StartBuild(s, t));
      }
    }
  }

  lemma FailIndexKeeps(s: State, t: TaskId, actor: Actor, owner: Owner, error: ErrorCode, action: Action)
    requires Inv(s)
    ensures Inv(FailIndex(s, t, actor, owner, error, action).0)
            && Monotone(s, FailIndex(s, t, actor, owner, error, action).0)
  {
    hide Inv, Monotone, Terminate;
    MonotoneSame(s);
    if IndexRows(s, t, actor, action) && Claimable(s, t, owner, Running, OpExecuting) {
      TerminateKeeps(s, t, error);
    }
  }
}
