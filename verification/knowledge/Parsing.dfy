/**
  * Claiming and finishing a parse keeps the invariant. A body is written once: a result that comes back late, twice or
  * from another owner changes neither the text nor what was built from it.
  */
module KnowledgeParsing {
  import opened Wrappers
  import opened KnowledgeTypes
  import opened KnowledgeSteps
  import opened KnowledgeInvariant
  import opened KnowledgeMonotone
  import opened KnowledgeKept
  import Chunker

  predicate LaterTaskState(a: TaskState, b: TaskState) {
    (a == Queued && b != Queued) || (a == Running && b != Queued)
  }

  // Only the state of one unfinished parse task changes.
  ghost predicate ParseTaskMoves(tasks: Tasks, t: TaskId, tasks': Tasks) {
    && t in tasks && tasks[t].kind == PARSE && ActiveTask(tasks[t])
    && t in tasks' && LaterTaskState(tasks[t].state, tasks'[t].state)
    && tasks' == tasks[t := tasks[t].(state := tasks'[t].state, error := tasks'[t].error)]
  }

  lemma ParseTasksOk(revs: Revs, ops: Ops, gens: Gens, tasks: Tasks, t: TaskId, tasks': Tasks)
    requires ParseTaskMoves(tasks, t, tasks')
    requires TasksOk(ops, gens, tasks) && TasksUnique(tasks) && ParsesUnique(revs, tasks) && RetriesUnique(tasks)
    ensures TasksOk(ops, gens, tasks') && TasksUnique(tasks') && ParsesUnique(revs, tasks') && RetriesUnique(tasks')
    ensures TasksKept(tasks, tasks')
  {
    EachTask(ops, gens, tasks);
    TasksApart(tasks);
    ParsesApart(revs, tasks);
    RetriesApart(tasks);
    assert TaskOk(ops, gens, tasks[t]);
  }

  lemma ParseLinksOk(ops: Ops, gens: Gens, tasks: Tasks, t: TaskId, tasks': Tasks)
    requires ParseTaskMoves(tasks, t, tasks')
    requires BuildingOk(gens, tasks) && OpsHaveTasks(ops, gens, tasks) && RetriesOk(ops, tasks)
    ensures BuildingOk(gens, tasks') && OpsHaveTasks(ops, gens, tasks') && RetriesOk(ops, tasks')
  {
    EachWork(ops, gens, tasks);
    forall g | g in gens && gens[g].state == Building
      ensures exists u :: Builds(tasks', u, g)
    {
      var u :| Builds(tasks, u, g);
      assert Builds(tasks', u, g);
    }
    forall o, kind | HasTask(tasks, o, kind)
      ensures HasTask(tasks', o, kind)
    {
      var u :| IsTaskOf(tasks, u, o, kind);
      assert IsTaskOf(tasks', u, o, kind);
    }
    forall u | u in tasks'
      ensures RetryOk(ops, tasks', tasks'[u])
    {
      assert RetryOk(ops, tasks, tasks[u]);
    }
  }

  lemma ParseMoveKeeps(s: State, t: TaskId, s': State)
    requires Inv(s) && ParseTaskMoves(s.tasks, t, s'.tasks) && s' == s.(tasks := s'.tasks)
    ensures Inv(s') && Monotone(s, s')
  {
    hide DocsOk, PointersOk, VersOk, RevsOk, SpecsUnique, GensOk, EvidenceOk, OpsOk, ActiveOk, OneActive, KeysUnique,
      FinishedOnce, SealedByOps, TasksOk, TasksUnique, ParsesUnique, BuildingOk, OpsHaveTasks, RetriesOk, RetriesUnique,
      RowsCounted, ReleaseCounted, ParseTaskMoves, TasksKept;
    ParseTasksOk(s.revs, s.ops, s.gens, s.tasks, t, s'.tasks);
    ParseLinksOk(s.ops, s.gens, s.tasks, t, s'.tasks);
  }

  // The body of one revision is written for the first time.
  ghost predicate BodyWritten(revs: Revs, k: RevKey, body: string, revs': Revs) {
    k in revs && revs[k].body.None? && revs' == revs[k := revs[k].(body := Some(body))]
  }

  lemma BodyRevisions(vers: Vers, revs: Revs, tasks: Tasks, k: RevKey, body: string, revs': Revs)
    requires BodyWritten(revs, k, body, revs') && RevsOk(vers, revs) && ParsesUnique(revs, tasks)
    ensures RevsOk(vers, revs') && ParsesUnique(revs', tasks) && RevsKept(revs, revs')
  {
  }

  lemma BodyKeeps(s: State, k: RevKey, body: string, s': State)
    requires Inv(s) && BodyWritten(s.revs, k, body, s'.revs) && s' == s.(revs := s'.revs)
    ensures Inv(s') && Monotone(s, s')
  {
    hide DocsOk, PointersOk, VersOk, RevsOk, SpecsUnique, GensOk, EvidenceOk, OpsOk, ActiveOk, OneActive, KeysUnique,
      FinishedOnce, SealedByOps, TasksOk, TasksUnique, ParsesUnique, BuildingOk, OpsHaveTasks, RetriesOk, RetriesUnique,
      RowsCounted, ReleaseCounted, BodyWritten, RevsKept;
    BodyRevisions(s.vers, s.revs, s.tasks, k, body, s'.revs);
    VersOkKept(s.vers, s.revs, s.gens, s'.revs, s.gens);
    GensOkKept(s.vers, s.revs, s.vers, s'.revs, s.gens, s.chunks);
    EvidenceOkKept(s.vers, s.revs, s.vers, s'.revs, s.gens, s.chunks);
    OpsOkKept(s.vers, s.revs, s.gens, s.vers, s'.revs, s.gens, s.ops);
  }

  lemma ClaimParseKeeps(s: State, t: TaskId, owner: Owner)
    requires Inv(s)
    ensures Inv(ClaimParse(s, t, owner).0) && Monotone(s, ClaimParse(s, t, owner).0)
  {
    hide Inv;
    var s' := ClaimParse(s, t, owner).0;
    MonotoneSame(s);
    if s' != s {
      assert ParseTaskMoves(s.tasks, t, s'.tasks);
      ParseMoveKeeps(s, t, s');
    }
  }

  lemma SetTaskMoves(s: State, t: TaskId, state: TaskState, error: Option<ErrorCode>)
    requires t in s.tasks && s.tasks[t].kind == PARSE && s.tasks[t].state == Running && state != Queued
             && state != Running
    ensures ParseTaskMoves(s.tasks, t, SetTask(s, t, state, error).tasks)
  {
  }

  /** A late, repeated or foreign parse result changes nothing but, at most, its own task's state. */
  lemma FinishParseKeeps(s: State, t: TaskId, owner: Owner, outcome: ParseOutcome)
    requires Inv(s)
    ensures Inv(FinishParse(s, t, owner, outcome).0) && Monotone(s, FinishParse(s, t, owner, outcome).0)
  {
    hide Inv, Monotone, ParseTaskMoves, Chunker.IsNormalized;
    var s' := FinishParse(s, t, owner, outcome).0;
    MonotoneSame(s);
    if ParseRows(s, t) && s.tasks[t].owner == owner && s.tasks[t].state == Running {
      if !Parseable(s, s.tasks[t]) {
        SetTaskMoves(s, t, TaskStale, Some(StaleInput));
        ParseMoveKeeps(s, t, s');
      } else if outcome.error.Some? {
        SetTaskMoves(s, t, TaskFailed, outcome.error);
        ParseMoveKeeps(s, t, SetTask(s, t, TaskFailed, outcome.error));
      } else if StorableBody(outcome) {
        var k := RevKey(s.tasks[t].version, s.tasks[t].rev);
        var s1 := s.(revs := s.revs[k := s.revs[k].(body := outcome.body)]);
        BodyKeeps(s, k, outcome.body.value, s1);
        SetTaskMoves(s1, t, TaskSucceeded, None);
        ParseMoveKeeps(s1, t, s');
        MonotoneTrans(s, s1, s');
      }
    }
  }
}
