/**
  * Ending work keeps the invariant: tasks, operations and generations that fail together. Any three sets of unfinished
  * rows may be ended at once provided that they name the same pieces of work, so that every task that remains still has
  * its operation and its generation in lockstep.
  */
module KnowledgeEnding {
  import opened KnowledgeTypes
  import opened KnowledgeSteps
  import opened KnowledgeInvariant
  import opened KnowledgeMonotone
  import opened KnowledgeKept

  predicate EndingOk(e: Ending) {
    && (e.task == TaskFailed || e.task == Interrupted || e.task == TaskStale)
    && e.op == if e.task == TaskStale then OpStale else OpFailed
  }

  // The task belongs to one of the operations or builds one of the generations.
  predicate Concerns(t: Task, os: set<OpId>, gs: set<GenId>) {
    t.kind == INDEX && (t.op in os || (t.gen.Some? && t.gen.value in gs))
  }

  /** The three sets name exactly the same pieces of unfinished work. */
  ghost predicate Together(s: State, ts: set<TaskId>, os: set<OpId>, gs: set<GenId>) {
    && (forall t :: t in ts ==> t in s.tasks && ActiveTask(s.tasks[t]))
    && (forall t :: t in ts && s.tasks[t].kind == INDEX ==>
        s.tasks[t].op in os && s.tasks[t].gen.Some? && s.tasks[t].gen.value in gs)
    && (forall o :: o in os ==> o in s.ops && ActiveOp(s.ops[o]))
    && (forall g :: g in gs ==> g in s.gens && s.gens[g].state == Building)
    && (forall t :: t in s.tasks && Concerns(s.tasks[t], os, gs) && ActiveTask(s.tasks[t]) ==> t in ts)
  }

  lemma EndKeepsRows(s: State, ts: set<TaskId>, os: set<OpId>, gs: set<GenId>, e: Ending)
    requires EndingOk(e) && Together(s, ts, os, gs)
    ensures var s' := EndAll(s, ts, os, gs, e);
            OpsKept(s.ops, s'.ops) && TasksKept(s.tasks, s'.tasks) && GensKept(s.gens, s'.gens)
  {
  }

  lemma EndIsMonotone(s: State, ts: set<TaskId>, os: set<OpId>, gs: set<GenId>, e: Ending)
    requires EndingOk(e) && Together(s, ts, os, gs)
    ensures Monotone(s, EndAll(s, ts, os, gs, e))
  {
    hide OpsKept, TasksKept, GensKept, Together;
    EndKeepsRows(s, ts, os, gs, e);
  }

  lemma EndGensOk(s: State, ts: set<TaskId>, os: set<OpId>, gs: set<GenId>, e: Ending)
    requires GensOk(s.vers, s.revs, s.gens, s.chunks) && Together(s, ts, os, gs)
    ensures GensOk(s.vers, s.revs, EndGens(s.gens, gs, e), s.chunks)
  {
    var gens := EndGens(s.gens, gs, e);
    forall g | g in gens
      ensures GenOk(s.vers, s.revs, s.chunks, g, gens[g])
    {
      assert GenOk(s.vers, s.revs, s.chunks, g, s.gens[g]);
    }
  }

  lemma EndEvidenceOk(s: State, gs: set<GenId>, e: Ending)
    requires EvidenceOk(s.vers, s.revs, s.gens, s.chunks)
    ensures EvidenceOk(s.vers, s.revs, EndGens(s.gens, gs, e), s.chunks)
  {
    hide Evidence;
    var gens := EndGens(s.gens, gs, e);
    assert forall g :: g in gens && gens[g].state == Ready ==> gens[g] == s.gens[g];
  }

  lemma EndOpsOk(s: State, ts: set<TaskId>, os: set<OpId>, gs: set<GenId>, e: Ending)
    requires OpsOk(s.vers, s.revs, s.gens, s.ops) && EndingOk(e) && Together(s, ts, os, gs)
    ensures OpsOk(s.vers, s.revs, EndGens(s.gens, gs, e), EndOps(s.ops, os, e))
  {
    var s' := EndAll(s, ts, os, gs, e);
    EndKeepsRows(s, ts, os, gs, e);
    forall o | o in s'.ops
      ensures OpOk(s.vers, s.revs, s'.gens, s'.ops[o])
    {
      EndOpOk(s.vers, s.revs, s.gens, s'.gens, s.ops[o], s'.ops[o]);
    }
  }

  lemma EndOpOk(vers: Vers, revs: Revs, gens: Gens, gens': Gens, o: Operation, o': Operation)
    requires OpOk(vers, revs, gens, o) && GensKept(gens, gens')
    requires o == o' || (ActiveOp(o) && o' == o.(state := o'.state, error := o'.error)
                         && o'.state in {OpFailed, OpStale})
    ensures OpOk(vers, revs, gens', o')
  {
    OpOkKept(vers, revs, gens, vers, revs, gens', o);
  }

  lemma EndActive(s: State, os: set<OpId>, e: Ending)
    requires EndingOk(e) && ActiveOk(s.vers, s.ops) && OneActive(s.vers, s.ops) && KeysUnique(s.ops)
    ensures var ops := EndOps(s.ops, os, e);
            ActiveOk(s.vers, ops) && OneActive(s.vers, ops) && KeysUnique(ops)
  {
    KeysApart(s.ops);
    var ops := EndOps(s.ops, os, e);
    assert forall o :: o in ops && ActiveOp(ops[o]) ==> ops[o] == s.ops[o];
  }

  lemma EndFinished(s: State, ts: set<TaskId>, os: set<OpId>, gs: set<GenId>, e: Ending)
    requires EndingOk(e) && FinishedOnce(s.ops) && SealedByOps(s.vers, s.ops) && Together(s, ts, os, gs)
    ensures var ops := EndOps(s.ops, os, e);
            FinishedOnce(ops) && SealedByOps(s.vers, ops)
  {
    EachSealed(s.vers, s.ops);
    var ops := EndOps(s.ops, os, e);
    assert forall o :: o in ops && ops[o].state == OpSucceeded ==> ops[o] == s.ops[o];
    assert forall o :: o in s.ops && s.ops[o].state == OpSucceeded ==> ops[o] == s.ops[o];
    forall v: VerId, action: Action | HasFinished(s.ops, v, action)
      ensures HasFinished(ops, v, action)
    {
      var o :| o in s.ops && Finished(s.ops[o], action) && s.ops[o].version == v;
      assert Finished(ops[o], action);
    }
  }

  lemma EndTaskOk(s: State, ts: set<TaskId>, os: set<OpId>, gs: set<GenId>, e: Ending, t: TaskId)
    requires Together(s, ts, os, gs) && EndingOk(e) && t in s.tasks && TaskOk(s.ops, s.gens, s.tasks[t])
    requires s.tasks[t].gen.Some? && s.tasks[t].gen.value in s.gens ==>
               (s.gens[s.tasks[t].gen.value].built == CopiedLegacy ==> s.gens[s.tasks[t].gen.value].state == Ready)
    ensures var s' := EndAll(s, ts, os, gs, e);
            TaskOk(s'.ops, s'.gens, s'.tasks[t])
  {
    var task := s.tasks[t];
    if task.kind == INDEX && t !in ts {
      assert task.gen.value in gs ==> !ActiveTask(task);
      assert ActiveTask(task) ==> task.op !in os;
      assert task.gen.value !in gs;
    }
  }

  lemma EndTasksOk(s: State, ts: set<TaskId>, os: set<OpId>, gs: set<GenId>, e: Ending)
    requires Together(s, ts, os, gs) && EndingOk(e) && TasksOk(s.ops, s.gens, s.tasks)
             && GensOk(s.vers, s.revs, s.gens, s.chunks)
    ensures TasksOk(EndOps(s.ops, os, e), EndGens(s.gens, gs, e), EndTasks(s.tasks, ts, e))
  {
    EachTask(s.ops, s.gens, s.tasks);
    EachGen(s.vers, s.revs, s.gens, s.chunks);
    forall t | t in s.tasks
      ensures TaskOk(EndOps(s.ops, os, e), EndGens(s.gens, gs, e), EndTasks(s.tasks, ts, e)[t])
    {
      EndTaskOk(s, ts, os, gs, e, t);
    }
  }

  lemma EndTaskTables(s: State, ts: set<TaskId>, e: Ending)
    requires TasksUnique(s.tasks) && ParsesUnique(s.revs, s.tasks) && RetriesUnique(s.tasks)
    ensures var tasks := EndTasks(s.tasks, ts, e);
            TasksUnique(tasks) && ParsesUnique(s.revs, tasks) && RetriesUnique(tasks)
  {
    TasksApart(s.tasks);
    ParsesApart(s.revs, s.tasks);
    RetriesApart(s.tasks);
  }

  lemma EndBuildingOk(s: State, ts: set<TaskId>, os: set<OpId>, gs: set<GenId>, e: Ending)
    requires Together(s, ts, os, gs) && BuildingOk(s.gens, s.tasks)
    ensures BuildingOk(EndGens(s.gens, gs, e), EndTasks(s.tasks, ts, e))
  {
    var gens := EndGens(s.gens, gs, e);
    var tasks := EndTasks(s.tasks, ts, e);
    forall g | g in gens && gens[g].state == Building
      ensures exists t :: Builds(tasks, t, g)
    {
      var t :| Builds(s.tasks, t, g);
      assert t !in ts;
      assert Builds(tasks, t, g);
    }
  }

  lemma EndOpsHaveTasks(s: State, ts: set<TaskId>, os: set<OpId>, gs: set<GenId>, e: Ending)
    requires Together(s, ts, os, gs) && EndingOk(e) && OpsHaveTasks(s.ops, s.gens, s.tasks)
    ensures OpsHaveTasks(EndOps(s.ops, os, e), EndGens(s.gens, gs, e), EndTasks(s.tasks, ts, e))
  {
    EachWork(s.ops, s.gens, s.tasks);
    var tasks := EndTasks(s.tasks, ts, e);
    forall o, kind | HasTask(s.tasks, o, kind)
      ensures HasTask(tasks, o, kind)
    {
      var t :| IsTaskOf(s.tasks, t, o, kind);
      assert IsTaskOf(tasks, t, o, kind);
    }
  }

  lemma EndRetriesOk(s: State, ts: set<TaskId>, os: set<OpId>, gs: set<GenId>, e: Ending)
    requires Together(s, ts, os, gs) && RetriesOk(s.ops, s.tasks)
    ensures RetriesOk(EndOps(s.ops, os, e), EndTasks(s.tasks, ts, e))
  {
    var tasks := EndTasks(s.tasks, ts, e);
    var ops := EndOps(s.ops, os, e);
    forall t | t in tasks
      ensures RetryOk(ops, tasks, tasks[t])
    {
      assert RetryOk(s.ops, s.tasks, s.tasks[t]);
    }
  }

  lemma EndCounts(s: State, ts: set<TaskId>, os: set<OpId>, gs: set<GenId>, e: Ending, d: DocId)
    requires EndingOk(e) && Together(s, ts, os, gs)
    ensures Intents(s.vers, EndOps(s.ops, os, e), d) == Intents(s.vers, s.ops, d)
    ensures Finalized(s.vers, EndOps(s.ops, os, e), d) == Finalized(s.vers, s.ops, d)
  {
  }

  /** Ending work keeps the invariant. */
  lemma EndKeepsInv(s: State, ts: set<TaskId>, os: set<OpId>, gs: set<GenId>, e: Ending)
    requires Inv(s) && Together(s, ts, os, gs) && EndingOk(e)
    ensures Inv(EndAll(s, ts, os, gs, e))
  {
    hide DocsOk, PointersOk, VersOk, RevsOk, SpecsUnique, GensOk, EvidenceOk, OpsOk, ActiveOk, OneActive, KeysUnique,
      FinishedOnce, SealedByOps, TasksOk, TasksUnique, ParsesUnique, BuildingOk, OpsHaveTasks, RetriesOk, RetriesUnique,
      ReleaseCounted, Intents, Finalized, Together, EndTasks, EndOps, EndGens;
    EndGensOk(s, ts, os, gs, e);
    EndEvidenceOk(s, gs, e);
    EndOpsOk(s, ts, os, gs, e);
    EndActive(s, os, e);
    EndFinished(s, ts, os, gs, e);
    EndTasksOk(s, ts, os, gs, e);
    EndTaskTables(s, ts, e);
    EndBuildingOk(s, ts, os, gs, e);
    EndOpsHaveTasks(s, ts, os, gs, e);
    EndRetriesOk(s, ts, os, gs, e);
    EndKeepsRows(s, ts, os, gs, e);
    VersOkKept(s.vers, s.revs, s.gens, s.revs, EndGens(s.gens, gs, e));
    forall d | d in s.docs
      ensures Intents(s.vers, EndOps(s.ops, os, e), d) == Intents(s.vers, s.ops, d)
      ensures Finalized(s.vers, EndOps(s.ops, os, e), d) == Finalized(s.vers, s.ops, d)
    {
      EndCounts(s, ts, os, gs, e, d);
    }
  }
}
