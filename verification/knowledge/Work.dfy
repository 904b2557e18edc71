/**
  * The four places where work ends: each ends whole triples of task, operation and generation, so that nothing is
  * left half finished.
  */
module KnowledgeWork {
  import opened KnowledgeTypes
  import opened KnowledgeSteps
  import opened KnowledgeInvariant
  import opened KnowledgeMonotone
  import opened KnowledgeEnding

  lemma VersionTogether(s: State, v: VerId)
    requires TasksOk(s.ops, s.gens, s.tasks)
    ensures Together(s, ActiveTasksOn(s, v), ActiveOpsOn(s, v), BuildingOn(s, v))
  {
    EachTask(s.ops, s.gens, s.tasks);
  }

  lemma EndVersionKeeps(s: State, v: VerId)
    requires Inv(s)
    ensures Inv(EndVersion(s, v)) && Monotone(s, EndVersion(s, v))
  {
    hide DocsOk, PointersOk, VersOk, RevsOk, SpecsUnique, GensOk, EvidenceOk, OpsOk, ActiveOk, OneActive, KeysUnique,
      FinishedOnce, SealedByOps, TasksOk, TasksUnique, ParsesUnique, BuildingOk, OpsHaveTasks, RetriesOk, RetriesUnique,
      RowsCounted, ReleaseCounted;
    hide Monotone, Together;
    VersionTogether(s, v);
    EndKeepsInv(s, ActiveTasksOn(s, v), ActiveOpsOn(s, v), BuildingOn(s, v), STALE_ENDING);
    EndIsMonotone(s, ActiveTasksOn(s, v), ActiveOpsOn(s, v), BuildingOn(s, v), STALE_ENDING);
  }

  lemma PendingTogether(s: State, d: DocId)
    requires TasksOk(s.ops, s.gens, s.tasks) && TasksUnique(s.tasks)
    ensures Together(s, PendingTasks(s, PendingOps(s, d)), PendingOps(s, d), PendingGens(s, PendingOps(s, d)))
  {
    EachTask(s.ops, s.gens, s.tasks);
    TasksApart(s.tasks);
    var os := PendingOps(s, d);
    forall t | t in s.tasks && Concerns(s.tasks[t], os, PendingGens(s, os)) && ActiveTask(s.tasks[t])
      ensures t in PendingTasks(s, os)
    {
      assert forall u :: u in s.tasks && s.tasks[u].gen == s.tasks[t].gen && s.tasks[u].gen.Some? ==> t == u;
    }
  }

  lemma InvalidateKeeps(s: State, d: DocId)
    requires Inv(s)
    ensures Inv(InvalidatePending(s, d)) && Monotone(s, InvalidatePending(s, d))
  {
    hide DocsOk, PointersOk, VersOk, RevsOk, SpecsUnique, GensOk, EvidenceOk, OpsOk, ActiveOk, OneActive, KeysUnique,
      FinishedOnce, SealedByOps, TasksOk, TasksUnique, ParsesUnique, BuildingOk, OpsHaveTasks, RetriesOk, RetriesUnique,
      RowsCounted, ReleaseCounted;
    hide Monotone, Together;
    var os := PendingOps(s, d);
    PendingTogether(s, d);
    EndKeepsInv(s, PendingTasks(s, os), os, PendingGens(s, os), STALE_ENDING);
    EndIsMonotone(s, PendingTasks(s, os), os, PendingGens(s, os), STALE_ENDING);
  }

  lemma OrphansTogether(s: State, owner: Owner)
    requires TasksOk(s.ops, s.gens, s.tasks) && TasksUnique(s.tasks)
    ensures Together(s, OrphanTasks(s, owner), OrphanOps(s, owner), OrphanGens(s, owner))
  {
    EachTask(s.ops, s.gens, s.tasks);
    forall t | t in s.tasks && Concerns(s.tasks[t], OrphanOps(s, owner), OrphanGens(s, owner)) && ActiveTask(s.tasks[t])
      ensures t in OrphanTasks(s, owner)
    {
      OrphanConcerned(s, owner, t);
    }
  }

  lemma OrphanConcerned(s: State, owner: Owner, t: TaskId)
    requires TasksOk(s.ops, s.gens, s.tasks) && TasksUnique(s.tasks)
    requires t in s.tasks && Concerns(s.tasks[t], OrphanOps(s, owner), OrphanGens(s, owner))
    ensures t in OrphanTasks(s, owner)
  {
    TasksApart(s.tasks);
    if s.tasks[t].op in OrphanOps(s, owner) {
      var u :| u in OrphanTasks(s, owner) && s.tasks[u].op == s.tasks[t].op;
      assert TaskOk(s.ops, s.gens, s.tasks[u]);
      assert u == t;
    } else {
      var u :| u in OrphanTasks(s, owner) && s.tasks[u].gen == s.tasks[t].gen;
      assert u == t;
    }
  }

  /** Recovery after a restart keeps the invariant. */
  lemma RecoverKeeps(s: State, owner: Owner)
    requires Inv(s)
    ensures Inv(RecoverInterrupted(s, owner)) && Monotone(s, RecoverInterrupted(s, owner))
  {
    hide DocsOk, PointersOk, VersOk, RevsOk, SpecsUnique, GensOk, EvidenceOk, OpsOk, ActiveOk, OneActive, KeysUnique,
      FinishedOnce, SealedByOps, TasksOk, TasksUnique, ParsesUnique, BuildingOk, OpsHaveTasks, RetriesOk, RetriesUnique,
      RowsCounted, ReleaseCounted;
    hide Monotone, Together;
    OrphansTogether(s, owner);
    EndKeepsInv(s, OrphanTasks(s, owner), OrphanOps(s, owner), OrphanGens(s, owner), INTERRUPTED_ENDING);
    EndIsMonotone(s, OrphanTasks(s, owner), OrphanOps(s, owner), OrphanGens(s, owner), INTERRUPTED_ENDING);
  }

  lemma TerminateTogether(s: State, t: TaskId)
    requires TasksOk(s.ops, s.gens, s.tasks) && TasksUnique(s.tasks)
    requires t in s.tasks && s.tasks[t].kind == INDEX && ActiveTask(s.tasks[t]) && s.tasks[t].gen.Some?
    ensures Together(s, {t}, {s.tasks[t].op}, {s.tasks[t].gen.value})
  {
    EachTask(s.ops, s.gens, s.tasks);
    TasksApart(s.tasks);
    assert TaskOk(s.ops, s.gens, s.tasks[t]);
  }

  lemma TerminateKeeps(s: State, t: TaskId, error: ErrorCode)
    requires Inv(s) && t in s.tasks && s.tasks[t].kind == INDEX && ActiveTask(s.tasks[t]) && s.tasks[t].gen.Some?
    ensures Inv(Terminate(s, t, error)) && Monotone(s, Terminate(s, t, error))
  {
    hide DocsOk, PointersOk, VersOk, RevsOk, SpecsUnique, GensOk, EvidenceOk, OpsOk, ActiveOk, OneActive, KeysUnique,
      FinishedOnce, SealedByOps, TasksOk, TasksUnique, ParsesUnique, BuildingOk, OpsHaveTasks, RetriesOk, RetriesUnique,
      RowsCounted, ReleaseCounted;
    hide Monotone, Together;
    TerminateTogether(s, t);
    EndKeepsInv(s, {t}, {s.tasks[t].op}, {s.tasks[t].gen.value}, EndingFor(error));
    EndIsMonotone(s, {t}, {s.tasks[t].op}, {s.tasks[t].gen.value}, EndingFor(error));
  }
}
