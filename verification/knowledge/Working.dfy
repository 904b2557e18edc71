/** What work leaves behind. */
module KnowledgeWorking {
  import opened Wrappers
  import opened Text
  import opened KnowledgeTypes
  import opened KnowledgeSteps
  import opened KnowledgeGuards

  // --- Parsing ---

  // A parse task of this owner in this state, with its rows.
  predicate OwnParse(s: State, t: TaskId, owner: Owner, state: TaskState) {
    && t in s.tasks && s.tasks[t].kind == PARSE && s.tasks[t].owner == owner && s.tasks[t].state == state
    && s.tasks[t].version in s.vers && s.vers[s.tasks[t].version].doc in s.docs
    && RevKey(s.tasks[t].version, s.tasks[t].rev) in s.revs
  }

  // Its revision is still the current one of a draft, and its body is unwritten.
  predicate StillOpen(s: State, t: TaskId)
    requires t in s.tasks && s.tasks[t].version in s.vers && RevKey(s.tasks[t].version, s.tasks[t].rev) in s.revs
  {
    && s.vers[s.tasks[t].version].state == Draft && s.vers[s.tasks[t].version].currentRev == s.tasks[t].rev
    && s.revs[RevKey(s.tasks[t].version, s.tasks[t].rev)].body.None?
  }

  // A visible text without byte order mark and carriage returns, together with its own hash.
  predicate GoodBody(outcome: ParseOutcome) {
    && outcome.error.None? && outcome.body.Some? && outcome.hash == outcome.body
    && (exists i :: 0 <= i < |outcome.body.value| && !IsSpace(outcome.body.value[i]))
    && outcome.body.value[0] != '\U{feff}' && '\r' !in outcome.body.value
  }

  lemma {:induction false} VisibleIff(s: string)
    ensures Strip(s) != [] <==> exists i :: 0 <= i < |s| && !IsSpace(s[i])
  {
    StripSqueeze(s);
    if i :| 0 <= i < |s| && !IsSpace(s[i]) {
      SqueezeVisible(s, i);
    } else {
      SqueezeSpaces(s);
    }
    hide Strip, Squeeze;
  }

  // Only the state and the error of one task differ.
  ghost predicate OnlyTask(s: State, s': State, t: TaskId, state: TaskState, error: Option<ErrorCode>)
    requires t in s.tasks
  {
    && OnlyRow(s.tasks, s'.tasks, t) && s'.tasks[t] == s.tasks[t].(state := state, error := error)
    && s' == s.(tasks := s'.tasks)
  }

  // The text is stored, and the task has succeeded.
  ghost predicate StoresText(s: State, s': State, t: TaskId, text: string)
    requires t in s.tasks && RevKey(s.tasks[t].version, s.tasks[t].rev) in s.revs
  {
    var k := RevKey(s.tasks[t].version, s.tasks[t].rev);
    && OnlyRow(s.revs, s'.revs, k) && s'.revs[k] == s.revs[k].(body := Some(text))
    && OnlyRow(s.tasks, s'.tasks, t) && s'.tasks[t] == s.tasks[t].(state := TaskSucceeded, error := None)
    && s' == s.(tasks := s'.tasks, revs := s'.revs)
  }

  /**
    * A parse result is stored exactly when its task is running for this owner, its revision is still open, and the body
    * is good. A result for a revision that is no longer open makes the task stale, a reported failure fails it, and
    * anything else changes nothing.
    */
  lemma ParseIsStored(s: State, t: TaskId, owner: Owner, outcome: ParseOutcome)
    ensures var (s', r) := FinishParse(s, t, owner, outcome);
            && (r == Ok(true) <==> OwnParse(s, t, owner, Running) && StillOpen(s, t) && GoodBody(outcome))
            && if !OwnParse(s, t, owner, Running) then s' == s && r == Ok(false)
               else if !StillOpen(s, t) then OnlyTask(s, s', t, TaskStale, Some(StaleInput)) && r == Ok(false)
               else if outcome.error == Some(ParseFailed) || outcome.error == Some(StorageError)
               then OnlyTask(s, s', t, TaskFailed, outcome.error) && r == Ok(false)
               else if GoodBody(outcome) then StoresText(s, s', t, outcome.body.value)
               else s' == s && r.Err?
  {
    if outcome.body.Some? {
      VisibleIff(outcome.body.value);
    }
    hide Strip;
  }

  /** A parse task is handed out exactly when it is queued for this owner and its revision is still open. */
  lemma ParseIsClaimed(s: State, t: TaskId, owner: Owner)
    ensures var (s', read) := ClaimParse(s, t, owner);
            && (read.Some? <==> OwnParse(s, t, owner, Queued) && StillOpen(s, t))
            && if !OwnParse(s, t, owner, Queued) then s' == s
               else if StillOpen(s, t) then
                 && OnlyTask(s, s', t, Running, None)
                 && read.value.content == s.revs[RevKey(s.tasks[t].version, s.tasks[t].rev)]
                 && read.value.citation == Citation(s.tasks[t].version, s.vers[s.tasks[t].version])
               else OnlyTask(s, s', t, TaskStale, Some(StaleInput))
  {
  }

  // --- Index work ---

  // An index task of this owner in this state, with its operation and the generation it is to build.
  predicate OwnBuild(s: State, t: TaskId, actor: Actor, owner: Owner, action: Action, state: TaskState, op: OpState) {
    && t in s.tasks && s.tasks[t].kind == INDEX && s.tasks[t].action == action && s.tasks[t].owner == owner
    && s.tasks[t].state == state && s.tasks[t].gen.Some? && s.tasks[t].gen.value in s.gens
    && s.tasks[t].op in s.ops && s.ops[s.tasks[t].op].actor == actor && s.ops[s.tasks[t].op].state == op
    && s.gens[s.tasks[t].gen.value].state == GenState.Building
  }

  // Task, operation and generation end together, and nothing else changes.
  ghost predicate EndsTogether(s: State, s': State, t: TaskId, task: TaskState, op: OpState, error: ErrorCode)
    requires t in s.tasks && s.tasks[t].gen.Some?
  {
    var (o, g) := (s.tasks[t].op, s.tasks[t].gen.value);
    && o in s.ops && g in s.gens
    && OnlyRow(s.tasks, s'.tasks, t) && s'.tasks[t] == s.tasks[t].(state := task, error := Some(error))
    && OnlyRow(s.ops, s'.ops, o) && s'.ops[o] == s.ops[o].(state := op, error := Some(error))
    && OnlyRow(s.gens, s'.gens, g) && s'.gens[g] == s.gens[g].(state := GenFailed, error := Some(error))
    && s' == s.(tasks := s'.tasks, ops := s'.ops, gens := s'.gens)
  }

  lemma OneTaskEnds(tasks: map<TaskId, Task>, t: TaskId, e: Ending)
    requires t in tasks
    ensures OnlyRow(tasks, EndTasks(tasks, {t}, e), t)
    ensures EndTasks(tasks, {t}, e)[t] == tasks[t].(state := e.task, error := Some(e.error))
  {
  }

  lemma OneOpEnds(ops: map<OpId, Operation>, o: OpId, e: Ending)
    requires o in ops
    ensures OnlyRow(ops, EndOps(ops, {o}, e), o)
    ensures EndOps(ops, {o}, e)[o] == ops[o].(state := e.op, error := Some(e.error))
  {
  }

  lemma OneGenEnds(gens: map<GenId, Generation>, g: GenId, e: Ending)
    requires g in gens
    ensures OnlyRow(gens, EndGens(gens, {g}, e), g)
    ensures EndGens(gens, {g}, e)[g] == gens[g].(state := GenFailed, error := Some(e.error))
  {
  }

  lemma TerminateEnds(s: State, t: TaskId, error: ErrorCode)
    requires t in s.tasks && s.tasks[t].gen.Some? && s.tasks[t].op in s.ops && s.tasks[t].gen.value in s.gens
    ensures var s' := Terminate(s, t, error);
            if error == StaleInput then EndsTogether(s, s', t, TaskStale, OpStale, error)
            else if error == ProcessingInterrupted then EndsTogether(s, s', t, Interrupted, OpFailed, error)
            else EndsTogether(s, s', t, TaskFailed, OpFailed, error)
  {
    var e := EndingFor(error);
    OneTaskEnds(s.tasks, t, e);
    OneOpEnds(s.ops, s.tasks[t].op, e);
    OneGenEnds(s.gens, s.tasks[t].gen.value, e);
    hide EndTasks, EndOps, EndGens, OnlyRow;
  }

  /** A build is failed exactly when it is running for this owner: task, operation and generation end together. */
  lemma BuildIsFailed(s: State, t: TaskId, actor: Actor, owner: Owner, error: ErrorCode, action: Action)
    ensures var (s', done) := FailIndex(s, t, actor, owner, error, action);
            && (done <==> OwnBuild(s, t, actor, owner, action, Running, OpExecuting))
            && if !done then s' == s
               else if error == StaleInput then EndsTogether(s, s', t, TaskStale, OpStale, error)
               else if error == ProcessingInterrupted then EndsTogether(s, s', t, Interrupted, OpFailed, error)
               else EndsTogether(s, s', t, TaskFailed, OpFailed, error)
  {
    if OwnBuild(s, t, actor, owner, action, Running, OpExecuting) {
      TerminateEnds(s, t, error);
    }
    hide Terminate, EndsTogether;
  }

  // --- Recovery and rejection ---

  // An unfinished task that another process holds.
  predicate HeldByOther(s: State, t: TaskId, owner: Owner) {
    t in s.tasks && s.tasks[t].owner != owner && (s.tasks[t].state == Queued || s.tasks[t].state == Running)
  }

  // The unfinished tasks of other owners are interrupted, with the operations and generations that they work on.
  ghost predicate Interrupts(s: State, s': State, owner: Owner) {
    && s' == s.(tasks := s'.tasks, ops := s'.ops, gens := s'.gens)
    && s'.tasks.Keys == s.tasks.Keys && s'.ops.Keys == s.ops.Keys && s'.gens.Keys == s.gens.Keys
    && (forall t :: t in s.tasks ==>
          s'.tasks[t] == if HeldByOther(s, t, owner)
                         then s.tasks[t].(state := Interrupted, error := Some(ProcessingInterrupted)) else s.tasks[t])
    && (forall o :: o in s.ops ==>
          s'.ops[o] == if ActiveOp(s.ops[o]) && exists t :: HeldByOther(s, t, owner) && s.tasks[t].op == o
                       then s.ops[o].(state := OpFailed, error := Some(ProcessingInterrupted)) else s.ops[o])
    && (forall g :: g in s.gens ==>
          s'.gens[g] == if s.gens[g].state == GenState.Building
                           && exists t :: HeldByOther(s, t, owner) && s.tasks[t].gen == Some(g)
                        then s.gens[g].(state := GenFailed, error := Some(ProcessingInterrupted)) else s.gens[g])
  }

  lemma OrphansAre(s: State, owner: Owner)
    ensures forall t :: t in OrphanTasks(s, owner) <==> HeldByOther(s, t, owner)
    ensures forall o :: o in OrphanOps(s, owner) <==>
                        o in s.ops && ActiveOp(s.ops[o]) && exists t :: HeldByOther(s, t, owner) && s.tasks[t].op == o
    ensures forall g :: g in OrphanGens(s, owner) <==>
                        && g in s.gens && s.gens[g].state == GenState.Building
                        && exists t :: HeldByOther(s, t, owner) && s.tasks[t].gen == Some(g)
  {
    assert forall t :: t in OrphanTasks(s, owner) <==> HeldByOther(s, t, owner);
    hide OrphanTasks, HeldByOther;
  }

  /** Recovery interrupts exactly the unfinished tasks of other owners, and what they work on. */
  lemma RecoveryInterrupts(s: State, owner: Owner)
    ensures Interrupts(s, RecoverInterrupted(s, owner), owner)
  {
    OrphansAre(s, owner);
    hide OrphanTasks, OrphanOps, OrphanGens, HeldByOther;
  }

  /** A rejection ends an unfinished publication of its actor in its scope, and changes nothing else. */
  lemma RejectionEnds(s: State, o: OpId, actor: Actor, scope: Scope, stale: bool)
    ensures var s' := RejectFinalization(s, o, actor, scope, stale);
            if && o in s.ops && s.ops[o].actor == actor && s.ops[o].action == PUBLISH
               && (s.ops[o].state == OpConfirmed || s.ops[o].state == OpExecuting)
               && s.ops[o].version in s.vers && s.vers[s.ops[o].version].doc in s.docs
               && RevKey(s.ops[o].version, s.ops[o].rev) in s.revs
               && s.revs[RevKey(s.ops[o].version, s.ops[o].rev)].meta.scope == scope
            then
              && OnlyRow(s.ops, s'.ops, o) && s' == s.(ops := s'.ops)
              && s'.ops[o] == (if stale then s.ops[o].(state := OpStale, error := Some(StaleInput))
                               else s.ops[o].(state := OpFailed, error := Some(IndexValidationFailed)))
            else s' == s
  {
  }
}
