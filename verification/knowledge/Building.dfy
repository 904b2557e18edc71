/**
  * Inserting build operations: a publication or a retry reserves the next value of its document's counter and, unless
  * it reuses a READY generation, queues one task on one new generation. All parts of the invariant are kept.
  */
module KnowledgeBuilding {
  import opened Wrappers
  import opened KnowledgeTypes
  import opened KnowledgeSteps
  import opened KnowledgeInvariant
  import opened KnowledgeMonotone
  import opened KnowledgeKept
  import opened KnowledgeCounting
  import opened KnowledgeInserting

  // What the checks establish for a new build operation.
  ghost predicate OpInsertable(s: State, opId: OpId, row: Operation, gens': Gens) {
    && opId !in s.ops && row.conf.doc in s.docs && s.docs[row.conf.doc].rowVersion < MAX_COUNTER
    && row.state == OpConfirmed && IsBuildAction(row.action) && OpOk(s.vers, s.revs, gens', row)
    && s.vers[row.version].state == Draft && s.vers[row.version].currentRev == row.rev
    && (forall o :: o in s.ops && ActiveOp(s.ops[o]) ==> !SameDoc(s.vers, s.ops[o].version, row.version))
    && forall o :: !HasKey(s.ops, o, row.actor, row.action, row.key)
  }

  lemma BumpKeepsDocs(docs: Docs, vers: Vers, d: DocId)
    requires d in docs && docs[d].rowVersion < MAX_COUNTER && DocsOk(docs, vers) && PointersOk(docs, vers)
    ensures DocsOk(Bump(docs, d), vers) && PointersOk(Bump(docs, d), vers) && DocsKept(docs, Bump(docs, d))
  {
  }

  lemma OpsAfterInsert(s: State, opId: OpId, row: Operation, gens': Gens)
    requires OpInsertable(s, opId, row, gens') && GensKept(s.gens, gens')
    requires OpsOk(s.vers, s.revs, s.gens, s.ops) && ActiveOk(s.vers, s.ops) && OneActive(s.vers, s.ops)
    ensures var ops' := s.ops[opId := row];
            OpsOk(s.vers, s.revs, gens', ops') && ActiveOk(s.vers, ops') && OneActive(s.vers, ops')
  {
    OpsOkKept(s.vers, s.revs, s.gens, s.vers, s.revs, gens', s.ops);
    ActiveInsert(s.vers, s.ops, s.vers, opId, row);
  }

  lemma IntentsAfterInsert(s: State, opId: OpId, row: Operation, gens': Gens)
    requires OpInsertable(s, opId, row, gens')
    requires KeysUnique(s.ops) && FinishedOnce(s.ops) && SealedByOps(s.vers, s.ops)
    ensures var ops' := s.ops[opId := row];
            KeysUnique(ops') && FinishedOnce(ops') && SealedByOps(s.vers, ops')
  {
    KeysInsert(s.ops, opId, row);
    FinishedInsert(s.ops, opId, row);
    SealedByOpsExtends(s.vers, s.ops, s.vers, s.ops[opId := row]);
  }

  lemma CountsAfterInsert(s: State, opId: OpId, row: Operation, gens': Gens)
    requires OpInsertable(s, opId, row, gens') && OpsOk(s.vers, s.revs, s.gens, s.ops) && VersOk(s.vers, s.revs, s.gens)
    requires RowsCounted(s.docs, s.vers, s.ops)
    ensures RowsCounted(Bump(s.docs, row.conf.doc), s.vers, s.ops[opId := row])
  {
    EachOp(s.vers, s.revs, s.gens, s.ops);
    assert VersionsKnown(s.vers, s.ops);
    assert Sealed(row.version, s.vers[row.version], s.gens);
    hide OpsOk, VersOk, RowsCounted, VersionsKnown;
    IntentCounted(s.docs, s.vers, s.ops, Bump(s.docs, row.conf.doc), s.vers, opId, row, row.conf.doc);
  }

  lemma TasksAfterInsert(s: State, opId: OpId, row: Operation)
    requires opId !in s.ops && TasksOk(s.ops, s.gens, s.tasks) && RetriesOk(s.ops, s.tasks)
    ensures TasksOk(s.ops[opId := row], s.gens, s.tasks) && RetriesOk(s.ops[opId := row], s.tasks)
  {
    forall t | t in s.tasks
      ensures TaskOk(s.ops[opId := row], s.gens, s.tasks[t]) && RetryOk(s.ops[opId := row], s.tasks, s.tasks[t])
    {
      assert TaskOk(s.ops, s.gens, s.tasks[t]) && RetryOk(s.ops, s.tasks, s.tasks[t]);
    }
  }

  /** A publication that reuses a READY generation inserts its operation only. */
  lemma InsertOpKeeps(s: State, opId: OpId, row: Operation, s': State)
    requires Inv(s) && OpInsertable(s, opId, row, s.gens) && s' == InsertOp(s, opId, row)
    requires row.action == PUBLISH && s.gens[row.conf.gen.value].state == Ready
    ensures Inv(s') && Monotone(s, s')
  {
    hide DocsOk, PointersOk, VersOk, RevsOk, SpecsUnique, GensOk, EvidenceOk, OpsOk, ActiveOk, OneActive, KeysUnique,
      FinishedOnce, SealedByOps, TasksOk, TasksUnique, ParsesUnique, BuildingOk, OpsHaveTasks, RetriesOk, RetriesUnique,
      RowsCounted, ReleaseCounted, DocsKept;
    BumpKeepsDocs(s.docs, s.vers, row.conf.doc);
    OpsAfterInsert(s, opId, row, s.gens);
    IntentsAfterInsert(s, opId, row, s.gens);
    CountsAfterInsert(s, opId, row, s.gens);
    TasksAfterInsert(s, opId, row);
    OpsHaveTasksInsert(s.ops, s.gens, s.tasks, opId, row, s.gens, s.tasks);
  }

  // What the checks establish for a new generation and its task.
  ghost predicate BuildInsertable(s: State, opId: OpId, row: Operation, genId: GenId, gen: Generation, taskId: TaskId,
                                  task: Task)
  {
    && OpInsertable(s, opId, row, s.gens[genId := gen]) && genId !in s.gens && taskId !in s.tasks
    && GenOk(s.vers, s.revs, s.chunks, genId, gen) && gen.state == Building && gen.built == Generated
    && TaskOk(s.ops[opId := row], s.gens[genId := gen], task) && task.op == opId && task.kind == INDEX
       && task.state == Queued && task.gen == Some(genId)
    && RetryOk(s.ops[opId := row], s.tasks, task)
    && (task.retryOf.Some? ==> !HasRetry(s.tasks, task.retryOf.value))
  }

  lemma GensAfterBuild(s: State, genId: GenId, gen: Generation)
    requires genId !in s.gens && GenOk(s.vers, s.revs, s.chunks, genId, gen) && gen.state == Building
    requires GensOk(s.vers, s.revs, s.gens, s.chunks) && EvidenceOk(s.vers, s.revs, s.gens, s.chunks)
             && VersOk(s.vers, s.revs, s.gens)
    ensures var gens' := s.gens[genId := gen];
            GensOk(s.vers, s.revs, gens', s.chunks) && EvidenceOk(s.vers, s.revs, gens', s.chunks)
              && VersOk(s.vers, s.revs, gens')
            && GensKept(s.gens, gens')
  {
    hide Evidence, GenOk;
    var gens' := s.gens[genId := gen];
    assert GensKept(s.gens, gens');
    VersOkKept(s.vers, s.revs, s.gens, s.revs, gens');
  }

  lemma TasksAfterBuild(s: State, opId: OpId, row: Operation, genId: GenId, gen: Generation, taskId: TaskId, task: Task)
    requires BuildInsertable(s, opId, row, genId, gen, taskId, task)
    requires TasksOk(s.ops, s.gens, s.tasks) && TasksUnique(s.tasks) && ParsesUnique(s.revs, s.tasks)
             && BuildingOk(s.gens, s.tasks)
    ensures var gens', tasks' := s.gens[genId := gen], s.tasks[taskId := task];
            TasksOk(s.ops[opId := row], gens', tasks') && TasksUnique(tasks') && ParsesUnique(s.revs, tasks')
              && BuildingOk(gens', tasks')
  {
    EachTask(s.ops, s.gens, s.tasks);
    var ops', gens', tasks' := s.ops[opId := row], s.gens[genId := gen], s.tasks[taskId := task];
    assert forall t :: t in s.tasks ==>
      s.tasks[t].op in s.ops && (s.tasks[t].gen.Some? ==> s.tasks[t].gen.value in s.gens);
    hide TasksOk, TasksUnique, ParsesUnique, BuildingOk, OpInsertable, RetryOk;
    TasksInsert(s.ops, s.gens, s.tasks, ops', gens', taskId, task);
    TasksUniqueInsert(s.tasks, taskId, task);
    ParsesInsert(s.revs, s.tasks, s.revs, taskId, task);
    assert Builds(tasks', taskId, genId);
    BuildingInsert(s.gens, s.tasks, gens', tasks');
  }

  lemma LinksAfterBuild(s: State, opId: OpId, row: Operation, genId: GenId, gen: Generation, taskId: TaskId, task: Task)
    requires BuildInsertable(s, opId, row, genId, gen, taskId, task)
    requires OpsHaveTasks(s.ops, s.gens, s.tasks) && RetriesOk(s.ops, s.tasks) && RetriesUnique(s.tasks)
    ensures var gens', tasks' := s.gens[genId := gen], s.tasks[taskId := task];
            OpsHaveTasks(s.ops[opId := row], gens', tasks') && RetriesOk(s.ops[opId := row], tasks')
              && RetriesUnique(tasks')
  {
    var ops', gens', tasks' := s.ops[opId := row], s.gens[genId := gen], s.tasks[taskId := task];
    assert task.retryOf.Some? ==> forall u :: u in s.tasks ==> s.tasks[u].retryOf != task.retryOf;
    hide OpsHaveTasks, RetriesOk, RetriesUnique, OpInsertable, TaskOk, GenOk;
    assert IsTaskOf(tasks', taskId, opId, INDEX);
    OpsHaveTasksInsert(s.ops, s.gens, s.tasks, opId, row, gens', tasks');
    RetriesInsert(s.ops, s.tasks, ops', taskId, task);
    RetriesUniqueInsert(s.tasks, taskId, task);
  }

  /** Accepting a publication or a retry reserves one generation and queues one task for it. */
  lemma InsertBuildKeeps(s: State, opId: OpId, row: Operation, genId: GenId, gen: Generation, taskId: TaskId,
                         task: Task, s': State)
    requires Inv(s) && BuildInsertable(s, opId, row, genId, gen, taskId, task)
    requires s' == InsertBuild(InsertOp(s, opId, row), genId, gen, taskId, task)
    ensures Inv(s') && Monotone(s, s')
  {
    hide DocsOk, PointersOk, VersOk, RevsOk, SpecsUnique, GensOk, EvidenceOk, OpsOk, ActiveOk, OneActive, KeysUnique,
      FinishedOnce, SealedByOps, TasksOk, TasksUnique, ParsesUnique, BuildingOk, OpsHaveTasks, RetriesOk, RetriesUnique,
      RowsCounted, ReleaseCounted, DocsKept, GensKept, TaskOk, RetryOk, GenOk, HasRetry;
    var gens' := s.gens[genId := gen];
    GensAfterBuild(s, genId, gen);
    BumpKeepsDocs(s.docs, s.vers, row.conf.doc);
    OpsAfterInsert(s, opId, row, gens');
    IntentsAfterInsert(s, opId, row, gens');
    CountsAfterInsert(s, opId, row, gens');
    TasksAfterBuild(s, opId, row, genId, gen, taskId, task);
    LinksAfterBuild(s, opId, row, genId, gen, taskId, task);
  }
}
