/** When builds are claimed and saved. */
module KnowledgeClaiming {
  import opened Wrappers
  import opened KnowledgeTypes
  import opened KnowledgeSteps
  import opened KnowledgeInvariant
  import opened KnowledgeRuns
  import opened KnowledgeOutcomes
  import opened KnowledgePointers
  import opened KnowledgeDraining
  import opened KnowledgeSucceeding
  import opened KnowledgeGuards
  import opened KnowledgeWorking

  // An unfinished index task of an operation in flight.
  ghost predicate Bound(s: State, t: TaskId, o: OpId) {
    && Intact(s, o) && LiveTask(s, o, t) && TaskOk(s.ops, s.gens, s.tasks[t]) && RetryOk(s.ops, s.tasks, s.tasks[t])
  }

  lemma EachRetry(ops: Ops, tasks: Tasks)
    requires RetriesOk(ops, tasks)
    ensures forall t :: t in tasks ==> RetryOk(ops, tasks, tasks[t])
  {
  }

  lemma OwnIsBound(w: World, t: TaskId, actor: Actor, owner: Owner, action: Action, state: TaskState, op: OpState)
    requires Reachable(w) && OwnBuild(w.s, t, actor, owner, action, state, op)
    requires (state == Queued && op == OpConfirmed) || (state == Running && op == OpExecuting)
    ensures Bound(w.s, t, w.s.tasks[t].op)
  {
    hide Next, Intact;
    ReachableInv(w);
    InvParts(w.s);
    assert RetriesOk(w.s.ops, w.s.tasks);
    hide Inv, OpsOk, RetriesOk, TasksOk;
    assert TaskOk(w.s.ops, w.s.gens, w.s.tasks[t]) by {
      EachTask(w.s.ops, w.s.gens, w.s.tasks);
    }
    EachRetry(w.s.ops, w.s.tasks);
    hide ParentOk;
    StaysIntact(w, w.s.tasks[t].op);
  }

  // What a claim hands out: the rows as they are now.
  ghost predicate Reads(s: State, o: OpId, record: PublicationRead)
    requires Intact(s, o)
  {
    && Unmoved(s, o, record) && record.spec == s.vers[s.ops[o].version].spec && record.parsed
  }

  // The rows that a claim read are unchanged, and so is the pointer of the document.
  ghost predicate Unmoved(s: State, o: OpId, record: PublicationRead)
    requires Intact(s, o)
  {
    var row := s.ops[o];
    var (v, d) := (s.vers[row.version], s.vers[row.version].doc);
    && record.revision == RevisionRead(d, Citation(row.version, v), s.docs[d].rowVersion, v.currentRev, v.state,
                                       RevKey(row.version, row.rev), s.revs[RevKey(row.version, row.rev)])
    && record.previous == s.docs[d].current
  }

  lemma CandidateReads(s: State, o: OpId, scope: Scope, today: int)
    requires Intact(s, o)
    ensures var row := s.ops[o];
            var record := PublicationCandidate(s, row.conf.doc, row.version, row.rev, scope, today);
            && (record.Ok? <==> scope == ScopeOf(s, o)) && (record.Err? ==> record.error == NotFound)
            && (record.Ok? ==> Reads(s, o, record.value))
  {
    hide Parsed;
  }

  // The input of a build is accepted in the scope of its text, while due, and for the index it was reserved for.
  lemma InputDecides(s: State, t: TaskId, o: OpId, scope: Scope, index: Index, today: int)
    requires Bound(s, t, o)
    ensures IndexRows(s, t, s.ops[o].actor, s.tasks[t].action)
    ensures var record := CheckInput(s, t, s.ops[o].actor, scope, index, s.tasks[t].action, today);
            && (record.Ok? <==>
                scope == ScopeOf(s, o) && Due(s, o, today) && index == s.gens[s.tasks[t].gen.value].index)
            && (record.Err? ==> (record.error == DataInvalid <==> scope == ScopeOf(s, o) && Due(s, o, today)))
            && (record.Ok? ==> Reads(s, o, record.value))
  {
    RecheckDecides(s, o, today);
    CandidateReads(s, o, scope, today);
    hide PublicationCandidate, PublicationConfirmation, Due, Parsed, PointedAt, Reads;
  }

  // --- Claims ---

  // Only the states of a task and of its operation differ.
  ghost predicate Starts(s: State, s': State, t: TaskId, o: OpId)
    requires t in s.tasks && o in s.ops
  {
    && OnlyRow(s.tasks, s'.tasks, t) && s'.tasks[t] == s.tasks[t].(state := Running)
    && OnlyRow(s.ops, s'.ops, o) && s'.ops[o] == s.ops[o].(state := OpExecuting)
    && s' == s.(tasks := s'.tasks, ops := s'.ops)
  }

  lemma StartIs(s: State, t: TaskId)
    requires t in s.tasks && s.tasks[t].op in s.ops
    ensures Starts(s, StartBuild(s, t), t, s.tasks[t].op)
  {
  }

  // How a claim of a queued build ends.
  ghost predicate Claims(s: State, s': State, claim: Option<Claim>, t: TaskId, o: OpId, scope: Scope, index: Index,
                         today: int)
    requires Bound(s, t, o)
  {
    var g := s.tasks[t].gen.value;
    if scope == ScopeOf(s, o) && Due(s, o, today) then
      if index == s.gens[g].index then
        && Starts(s, s', t, o) && claim.Some? && Reads(s, o, claim.value.record)
        && claim.value == Claim(t, g, s.ops[o].actor, claim.value.record, index)
      else claim.None? && EndsTogether(s, s', t, TaskFailed, OpFailed, IndexValidationFailed)
    else claim.None? && EndsTogether(s, s', t, TaskStale, OpStale, StaleInput)
  }

  lemma BoundRows(s: State, t: TaskId, o: OpId)
    requires Bound(s, t, o)
    ensures t in s.tasks && s.tasks[t].op == o && o in s.ops && s.tasks[t].gen.Some? && s.tasks[t].gen.value in s.gens
    ensures IndexRows(s, t, s.ops[o].actor, s.tasks[t].action)
    ensures s.tasks[t].state == Queued ==> Claimable(s, t, s.tasks[t].owner, Queued, OpConfirmed)
    ensures s.tasks[t].state == Running ==> Claimable(s, t, s.tasks[t].owner, Running, OpExecuting)
  {
    hide Intact, RetryOk;
  }

  lemma ClaimIs(s: State, t: TaskId, o: OpId, scope: Scope, index: Index, today: int)
    requires Bound(s, t, o) && s.tasks[t].state == Queued
    ensures IndexRows(s, t, s.ops[o].actor, s.tasks[t].action)
    ensures var (s', claim) := ClaimIndex(s, t, s.ops[o].actor, scope, s.tasks[t].owner, index, s.tasks[t].action,
                                          today);
            Claims(s, s', claim, t, o, scope, index, today)
  {
    BoundRows(s, t, o);
    hide Bound, IndexRows, Claimable;
    InputDecides(s, t, o, scope, index, today);
    TerminateEnds(s, t, StaleInput);
    TerminateEnds(s, t, IndexValidationFailed);
    StartIs(s, t);
    hide CheckInput, Terminate, StartBuild, EndsTogether, Starts, Due, Reads, ScopeOf;
  }

  /**
    * In every reachable state a build is handed out exactly when it is queued for this owner, in the scope of its text,
    * still due, and for the configured index. Otherwise it ends: as invalid when only the index differs, else as stale.
    */
  lemma BuildIsClaimed(w: World, t: TaskId, actor: Actor, scope: Scope, owner: Owner, index: Index, action: Action,
                       today: int)
    requires Reachable(w)
    ensures var (s', claim) := ClaimIndex(w.s, t, actor, scope, owner, index, action, today);
            if OwnBuild(w.s, t, actor, owner, action, Queued, OpConfirmed)
            then Bound(w.s, t, w.s.tasks[t].op) && Claims(w.s, s', claim, t, w.s.tasks[t].op, scope, index, today)
            else s' == w.s && claim.None?
  {
    hide Next, Reachable, Bound, Claims;
    if OwnBuild(w.s, t, actor, owner, action, Queued, OpConfirmed) {
      OwnIsBound(w, t, actor, owner, action, Queued, OpConfirmed);
      ClaimIs(w.s, t, w.s.tasks[t].op, scope, index, today);
      hide ClaimIndex;
    }
    hide CheckInput, StartBuild, Terminate;
  }

  // --- Saves ---

  // The build is saved with its records, and a retry is over with it.
  ghost predicate Saves(s: State, s': State, t: TaskId, o: OpId, g: GenId, records: seq<Record>)
    requires t in s.tasks && o in s.ops && g in s.gens
  {
    && OnlyRow(s.chunks, s'.chunks, g) && s'.chunks[g] == records
    && OnlyRow(s.gens, s'.gens, g) && s'.gens[g] == s.gens[g].(state := Ready, chunkCount := |records|)
    && OnlyRow(s.tasks, s'.tasks, t) && s'.tasks[t] == s.tasks[t].(state := TaskSucceeded)
    && (if s.tasks[t].action == RETRY_INDEX
        then OnlyRow(s.ops, s'.ops, o) && s'.ops[o] == s.ops[o].(state := OpSucceeded, result := Some(g))
        else s'.ops == s.ops)
    && s' == s.(chunks := s'.chunks, gens := s'.gens, tasks := s'.tasks, ops := s'.ops)
  }

  lemma CompleteIs(s: State, t: TaskId, records: seq<Record>)
    requires t in s.tasks && s.tasks[t].op in s.ops && s.tasks[t].gen.Some? && s.tasks[t].gen.value in s.gens
    ensures Saves(s, CompleteBuild(s, t, records), t, s.tasks[t].op, s.tasks[t].gen.value, records)
  {
  }

  // How the save of a running build ends, when the records are evidence of the text that was claimed.
  ghost predicate SavesOrEnds(s: State, s': State, done: bool, claim: Claim, o: OpId, records: seq<Record>,
                              scope: Scope, today: int)
    requires Bound(s, claim.task, o) && s.tasks[claim.task].gen == Some(claim.gen)
  {
    if scope == ScopeOf(s, o) && Due(s, o, today) && claim.index != s.gens[claim.gen].index
    then !done && EndsTogether(s, s', claim.task, TaskFailed, OpFailed, IndexValidationFailed)
    else if scope == ScopeOf(s, o) && Due(s, o, today) && Unmoved(s, o, claim.record)
    then done && Saves(s, s', claim.task, o, claim.gen, records)
    else !done && EndsTogether(s, s', claim.task, TaskStale, OpStale, StaleInput)
  }

  lemma ReadsUnmoved(s: State, o: OpId, a: PublicationRead, b: PublicationRead)
    requires Intact(s, o) && Reads(s, o, a)
    ensures Unmoved(s, o, b) <==> b.revision == a.revision && b.previous == a.previous
  {
    hide Intact;
  }

  lemma SaveSplits(s: State, claim: Claim, records: seq<Record>, scope: Scope, owner: Owner, action: Action,
                   today: int)
    requires IndexRows(s, claim.task, claim.actor, action) && Claimable(s, claim.task, owner, Running, OpExecuting)
    requires s.tasks[claim.task].gen == Some(claim.gen) && ValidRecords(claim, records)
             && WellNumbered(records, claim.gen)
    ensures var record := CheckInput(s, claim.task, claim.actor, scope, claim.index, action, today);
            FinishIndex(s, claim, records, scope, owner, action, today)
            == if record.Err? then (Terminate(s, claim.task, InputError(record.error)), false)
               else if record.value.revision != claim.record.revision || record.value.previous != claim.record.previous
               then (Terminate(s, claim.task, StaleInput), false)
               else (CompleteBuild(s, claim.task, records), true)
  {
    hide CheckInput, Terminate, CompleteBuild, ValidRecords, WellNumbered, FailIndex;
  }

  lemma SaveIs(s: State, claim: Claim, o: OpId, records: seq<Record>, scope: Scope, today: int)
    requires Bound(s, claim.task, o) && s.tasks[claim.task].state == Running
    requires s.tasks[claim.task].gen == Some(claim.gen) && claim.actor == s.ops[o].actor && ValidRecords(claim, records)
    ensures IndexRows(s, claim.task, s.ops[o].actor, s.tasks[claim.task].action)
    ensures var task := s.tasks[claim.task];
            var (s', done) := FinishIndex(s, claim, records, scope, task.owner, task.action, today);
            SavesOrEnds(s, s', done, claim, o, records, scope, today)
  {
    var t := claim.task;
    BoundRows(s, t, o);
    EvidenceNumbered(claim.record.revision.citation, claim.record.revision.content, claim.gen, records);
    SaveSplits(s, claim, records, scope, s.tasks[t].owner, s.tasks[t].action, today);
    InputDecides(s, t, o, scope, claim.index, today);
    hide Intact, Bound, IndexRows, Claimable, CheckInput, Terminate, CompleteBuild, EndsTogether, Saves, Due, Reads,
      Unmoved, ScopeOf, ValidEvidence, WellNumbered, FinishIndex;
    var record := CheckInput(s, t, s.ops[o].actor, scope, claim.index, s.tasks[t].action, today);
    if record.Ok? {
      ReadsUnmoved(s, o, record.value, claim.record);
    }
    TerminateEnds(s, t, StaleInput);
    TerminateEnds(s, t, IndexValidationFailed);
    CompleteIs(s, t, records);
  }

  /**
    * In every reachable state the records of a running build are saved exactly when they are evidence of the text that
    * was claimed, the claim is of the generation of the task, nothing that it read has changed, and the build is still
    * due in its scope and for its index. Records that are no such evidence fail the build.
    */
  lemma BuildIsSaved(w: World, claim: Claim, records: seq<Record>, scope: Scope, owner: Owner, action: Action,
                     today: int)
    requires Reachable(w)
    ensures var (s', done) := FinishIndex(w.s, claim, records, scope, owner, action, today);
            if !OwnBuild(w.s, claim.task, claim.actor, owner, action, Running, OpExecuting) then s' == w.s && !done
            else if !ValidRecords(claim, records)
            then !done && EndsTogether(w.s, s', claim.task, TaskFailed, OpFailed, IndexValidationFailed)
            else if w.s.tasks[claim.task].gen != Some(claim.gen) then s' == w.s && !done
            else
              && Bound(w.s, claim.task, w.s.tasks[claim.task].op)
              && SavesOrEnds(w.s, s', done, claim, w.s.tasks[claim.task].op, records, scope, today)
  {
    hide Next, Reachable, Bound, SavesOrEnds, ValidRecords;
    BuildIsFailed(w.s, claim.task, claim.actor, owner, IndexValidationFailed, action);
    if OwnBuild(w.s, claim.task, claim.actor, owner, action, Running, OpExecuting) {
      OwnIsBound(w, claim.task, claim.actor, owner, action, Running, OpExecuting);
      if ValidRecords(claim, records) && w.s.tasks[claim.task].gen == Some(claim.gen) {
        SaveIs(w.s, claim, w.s.tasks[claim.task].op, records, scope, today);
        hide FinishIndex;
      }
    }
    hide CheckInput, FailIndex, CompleteBuild, Terminate, EndsTogether, WellNumbered;
  }
}
