/**
  * Completing a build stores the chunks of the claimed body, makes the generation READY and ends the task; for a retry
  * it ends the operation as well. The invariant is kept whatever claim is presented.
  */
module KnowledgeCompleting {
  import opened Wrappers
  import opened KnowledgeTypes
  import opened KnowledgeSteps
  import opened KnowledgeInvariant
  import opened KnowledgeMonotone
  import opened KnowledgeKept
  import opened KnowledgeWork
  import opened KnowledgeProgress

  // The generation becomes READY with its records.
  ghost predicate GenCompletes(gens: Gens, chunks: Chunks, g: GenId, records: seq<Record>, gens': Gens, chunks': Chunks)
  {
    && g in gens && gens[g].state == Building && gens[g].built == Generated && records != []
    && gens' == gens[g := gens[g].(state := Ready, chunkCount := |records|)] && chunks' == chunks[g := records]
  }

  lemma GensAfterComplete(vers: Vers, revs: Revs, gens: Gens, chunks: Chunks, g: GenId, records: seq<Record>,
                          gens': Gens, chunks': Chunks)
    requires GenCompletes(gens, chunks, g, records, gens', chunks') && GensOk(vers, revs, gens, chunks)
    ensures GensOk(vers, revs, gens', chunks') && GensKept(gens, gens') && ChunksKept(chunks, chunks')
  {
    assert GenOk(vers, revs, chunks, g, gens[g]);
    forall h | h in gens'
      ensures GenOk(vers, revs, chunks', h, gens'[h])
    {
      assert GenOk(vers, revs, chunks, h, gens[h]);
    }
  }

  lemma EvidenceAfterComplete(vers: Vers, revs: Revs, gens: Gens, chunks: Chunks, g: GenId, records: seq<Record>,
                              gens': Gens, chunks': Chunks)
    requires GenCompletes(gens, chunks, g, records, gens', chunks') && EvidenceOk(vers, revs, gens, chunks)
    requires gens[g].version in vers && RevKey(gens[g].version, gens[g].rev) in revs
    requires Evidence(Citation(gens[g].version, vers[gens[g].version]), revs[RevKey(gens[g].version, gens[g].rev)], g,
                      records)
    ensures EvidenceOk(vers, revs, gens', chunks')
  {
    hide Evidence;
  }

  lemma CompleteIsPair(s: State, t: TaskId, records: seq<Record>, s': State)
    requires TasksOk(s.ops, s.gens, s.tasks) && t in s.tasks && s.tasks[t].kind == INDEX && s.tasks[t].state == Running
             && records != []
    requires s.tasks[t].op in s.ops && s.tasks[t].gen.Some? && s.tasks[t].gen.value in s.gens
             && s.gens[s.tasks[t].gen.value].built == Generated
    requires s' == CompleteBuild(s, t, records)
    ensures PairMoves(s.ops, s.tasks, t, s'.ops, s'.tasks)
    ensures GenCompletes(s.gens, s.chunks, s.tasks[t].gen.value, records, s'.gens, s'.chunks)
    ensures s'.tasks[t].state == TaskSucceeded && s.ops[s.tasks[t].op].state == OpExecuting
    ensures s'.ops[s.tasks[t].op].state == if s.tasks[t].action == RETRY_INDEX then OpSucceeded else OpExecuting
    ensures s'.ops[s.tasks[t].op].result == if s.tasks[t].action == RETRY_INDEX then s.tasks[t].gen
            else s.ops[s.tasks[t].op].result
    ensures s.ops[s.tasks[t].op].action == s.tasks[t].action && s.ops[s.tasks[t].op].conf.gen == s.tasks[t].gen
  {
    assert TaskOk(s.ops, s.gens, s.tasks[t]);
    hide TasksOk;
  }

  lemma CompleteKeepsRows(s: State, t: TaskId, records: seq<Record>, s': State)
    requires t in s.tasks && s.tasks[t].kind == INDEX && s.tasks[t].state == Running && TasksOk(s.ops, s.gens, s.tasks)
    requires s.tasks[t].op in s.ops && s.tasks[t].gen.Some? && s.tasks[t].gen.value in s.gens
             && s' == CompleteBuild(s, t, records)
    ensures OpsKept(s.ops, s'.ops) && TasksKept(s.tasks, s'.tasks)
  {
    assert TaskOk(s.ops, s.gens, s.tasks[t]);
    hide TasksOk;
  }

  lemma CompletedTask(s: State, t: TaskId, records: seq<Record>, s': State)
    requires t in s.tasks && TaskOk(s.ops, s.gens, s.tasks[t]) && s.tasks[t].kind == INDEX
             && s.tasks[t].state == Running
    requires s.tasks[t].op in s.ops && s.tasks[t].gen.Some? && s.tasks[t].gen.value in s.gens
    requires s' == CompleteBuild(s, t, records)
    ensures TaskOk(s'.ops, s'.gens, s'.tasks[t])
  {
  }

  lemma CompletedOps(s: State, t: TaskId, ops': Ops, tasks': Tasks, gens': Gens)
    requires PairMoves(s.ops, s.tasks, t, ops', tasks') && OpsOk(s.vers, s.revs, s.gens, s.ops)
             && GensKept(s.gens, gens')
    requires var o, o' := s.ops[s.tasks[t].op], ops'[s.tasks[t].op];
             && s.tasks[t].gen.Some? && o.conf.gen == s.tasks[t].gen && s.tasks[t].gen.value in gens'
                && gens'[s.tasks[t].gen.value].state == Ready
             && if o.action == RETRY_INDEX then o'.state == OpSucceeded && o'.result == o.conf.gen else o' == o
    ensures OpsOk(s.vers, s.revs, gens', ops')
  {
    OpsOkKept(s.vers, s.revs, s.gens, s.vers, s.revs, gens', s.ops);
    hide GensKept;
    forall o | o in ops'
      ensures OpOk(s.vers, s.revs, gens', ops'[o])
    {
      assert OpOk(s.vers, s.revs, gens', s.ops[o]);
    }
  }

  lemma CompletedBuilding(gens: Gens, tasks: Tasks, t: TaskId, gens': Gens, tasks': Tasks)
    requires BuildingOk(gens, tasks) && t in tasks && tasks[t].gen.Some?
    requires tasks' == tasks[t := tasks[t].(state := TaskSucceeded)]
    requires forall h :: h in gens' && gens'[h].state == Building ==>
             h in gens && gens[h].state == Building && tasks[t].gen != Some(h)
    ensures BuildingOk(gens', tasks')
  {
    forall h | h in gens' && gens'[h].state == Building
      ensures exists u :: Builds(tasks', u, h)
    {
      var u :| Builds(tasks, u, h);
      assert Builds(tasks', u, h);
    }
  }

  lemma CompleteWork(s: State, t: TaskId, records: seq<Record>, s': State)
    requires TasksOk(s.ops, s.gens, s.tasks) && TasksUnique(s.tasks) && ParsesUnique(s.revs, s.tasks)
             && RetriesUnique(s.tasks)
    requires KeysUnique(s.ops) && RetriesOk(s.ops, s.tasks) && OpsHaveTasks(s.ops, s.gens, s.tasks)
             && BuildingOk(s.gens, s.tasks)
    requires t in s.tasks && s.tasks[t].kind == INDEX && s.tasks[t].state == Running && records != []
    requires s.tasks[t].op in s.ops && s.tasks[t].gen.Some? && s.tasks[t].gen.value in s.gens
             && s.gens[s.tasks[t].gen.value].built == Generated
    requires s' == CompleteBuild(s, t, records) && GensKept(s.gens, s'.gens)
    ensures TasksOk(s'.ops, s'.gens, s'.tasks) && TasksUnique(s'.tasks) && ParsesUnique(s'.revs, s'.tasks)
            && RetriesUnique(s'.tasks)
    ensures KeysUnique(s'.ops) && RetriesOk(s'.ops, s'.tasks) && OpsHaveTasks(s'.ops, s'.gens, s'.tasks)
            && BuildingOk(s'.gens, s'.tasks)
  {
    hide OpsHaveTasks, RetriesOk, KeysUnique, BuildingOk, RetriesUnique, ParsesUnique, TasksUnique, TaskOk, GensKept;
    CompleteIsPair(s, t, records, s');
    CompletedTask(s, t, records, s');
    hide TasksOk;
    assert forall g :: g in s.gens && s.tasks[t].gen != Some(g) ==> s'.gens[g] == s.gens[g];
    CompletedBuilding(s.gens, s.tasks, t, s'.gens, s'.tasks);
    hide PairMoves, GenCompletes;
    PairTasksOk(s.ops, s.gens, s.tasks, t, s'.ops, s'.gens, s'.tasks);
    PairTablesOk(s.revs, s.ops, s.tasks, t, s'.ops, s'.tasks);
    PairRetriesOk(s.ops, s.tasks, t, s'.ops, s'.tasks);
    PairHasTasks(s.ops, s.gens, s.tasks, t, s'.ops, s'.gens, s'.tasks);
  }

  lemma CompleteIntents(s: State, t: TaskId, records: seq<Record>, s': State)
    requires TasksOk(s.ops, s.gens, s.tasks) && OpsOk(s.vers, s.revs, s.gens, s.ops) && GensKept(s.gens, s'.gens)
    requires ActiveOk(s.vers, s.ops) && OneActive(s.vers, s.ops) && FinishedOnce(s.ops) && SealedByOps(s.vers, s.ops)
    requires RowsCounted(s.docs, s.vers, s.ops)
    requires t in s.tasks && s.tasks[t].kind == INDEX && s.tasks[t].state == Running && records != []
    requires s.tasks[t].op in s.ops && s.tasks[t].gen.Some? && s.tasks[t].gen.value in s.gens
             && s.gens[s.tasks[t].gen.value].built == Generated
    requires s' == CompleteBuild(s, t, records)
    ensures OpsOk(s'.vers, s'.revs, s'.gens, s'.ops) && RowsCounted(s'.docs, s'.vers, s'.ops)
    ensures ActiveOk(s'.vers, s'.ops) && OneActive(s'.vers, s'.ops) && FinishedOnce(s'.ops)
            && SealedByOps(s'.vers, s'.ops)
    ensures OpsKept(s.ops, s'.ops) && TasksKept(s.tasks, s'.tasks)
  {
    CompleteKeepsRows(s, t, records, s');
    hide OpsOk, GensKept, OpsKept, TasksKept, ActiveOk, OneActive, FinishedOnce, SealedByOps, RowsCounted;
    CompleteIsPair(s, t, records, s');
    hide TasksOk;
    PairIntents(s.vers, s.ops, s.tasks, t, s'.ops, s'.tasks);
    PairCounts(s.ops, s.tasks, t, s'.ops, s'.tasks);
    CountAlikeRows(s.docs, s.vers, s.ops, s'.ops);
    CompletedOps(s, t, s'.ops, s'.tasks, s'.gens);
  }

  /** A completed build stores the chunking of the body and is READY for ever. */
  lemma CompleteBuildKeeps(s: State, t: TaskId, records: seq<Record>, s': State)
    requires Inv(s) && t in s.tasks && s.tasks[t].kind == INDEX && s.tasks[t].state == Running && records != []
    requires s.tasks[t].op in s.ops && s.tasks[t].gen.Some? && s.tasks[t].gen.value in s.gens
    requires var gen := s.gens[s.tasks[t].gen.value];
             && gen.state == Building && gen.built == Generated && gen.version in s.vers
                && RevKey(gen.version, gen.rev) in s.revs
             && Evidence(Citation(gen.version, s.vers[gen.version]), s.revs[RevKey(gen.version, gen.rev)],
                         s.tasks[t].gen.value, records)
    requires s' == CompleteBuild(s, t, records)
    ensures Inv(s') && Monotone(s, s')
  {
    hide DocsOk, PointersOk, VersOk, RevsOk, SpecsUnique, GensOk, EvidenceOk, OpsOk, ActiveOk, OneActive, KeysUnique,
      FinishedOnce, SealedByOps, TasksOk, TasksUnique, ParsesUnique, BuildingOk, OpsHaveTasks, RetriesOk, RetriesUnique,
      RowsCounted, ReleaseCounted, Evidence, GensKept, ChunksKept, OpsKept, TasksKept;
    var g := s.tasks[t].gen.value;
    GensAfterComplete(s.vers, s.revs, s.gens, s.chunks, g, records, s'.gens, s'.chunks);
    EvidenceAfterComplete(s.vers, s.revs, s.gens, s.chunks, g, records, s'.gens, s'.chunks);
    VersOkKept(s.vers, s.revs, s.gens, s.revs, s'.gens);
    CompleteWork(s, t, records, s');
    CompleteIntents(s, t, records, s');
  }

  lemma CheckedContent(s: State, t: TaskId, actor: Actor, scope: Scope, index: Index, action: Action, today: int)
    requires IndexRows(s, t, actor, action) && CheckInput(s, t, actor, scope, index, action, today).Ok?
    ensures var read := CheckInput(s, t, actor, scope, index, action, today).value.revision;
            var gen := s.gens[s.tasks[t].gen.value];
            && gen.version == s.tasks[t].version && gen.rev == s.tasks[t].rev && gen.version in s.vers
               && RevKey(gen.version, gen.rev) in s.revs
            && read.citation == Citation(gen.version, s.vers[gen.version])
               && read.content == s.revs[RevKey(gen.version, gen.rev)]
            && gen.built == Generated
  {
    hide PublicationConfirmation, ParentOk;
  }

  /** A save keeps the invariant whatever claim is presented: only the chunking of the stored body can become READY. */
  lemma FinishIndexKeeps(s: State, claim: Claim, records: seq<Record>, scope: Scope, owner: Owner, action: Action,
                         today: int)
    requires Inv(s)
    ensures Inv(FinishIndex(s, claim, records, scope, owner, action, today).0)
    ensures Monotone(s, FinishIndex(s, claim, records, scope, owner, action, today).0)
  {
    hide Inv, Monotone, CheckInput, Terminate, CompleteBuild, ValidRecord, FailIndex;
    MonotoneSame(s);
    var t := claim.task;
    if !ValidRecords(claim, records) {
      FailIndexKeeps(s, t, claim.actor, owner, IndexValidationFailed, action);
    } else if IndexRows(s, t, claim.actor, action) && Claimable(s, t, owner, Running, OpExecuting)
      && s.tasks[t].gen.value == claim.gen {
      var record := CheckInput(s, t, claim.actor, scope, claim.index, action, today);
      if record.Err? {
        TerminateKeeps(s, t, InputError(record.error));
      } else if record.value.revision != claim.record.revision || record.value.previous != claim.record.previous {
        TerminateKeeps(s, t, StaleInput);
      } else if !WellNumbered(records, claim.gen) {
        TerminateKeeps(s, t, IndexValidationFailed);
      } else {
        CheckedContent(s, t, claim.actor, scope, claim.index, action, today);
        hide Evidence;
        CompleteBuildKeeps(s, t, records, CompleteBuild(s, t, records));
      }
    }
  }
}
