/** Work in flight can always be ended. */
module KnowledgeDraining {
  import opened Wrappers
  import opened KnowledgeTypes
  import opened KnowledgeSteps
  import opened KnowledgeInvariant
  import opened KnowledgeRuns
  import opened KnowledgeOutcomes
  import opened KnowledgeBodies
  import opened KnowledgePointers

  // An unfinished index task of the operation.
  ghost predicate LiveTask(s: State, o: OpId, t: TaskId) {
    IsTaskOf(s.tasks, t, o, INDEX) && ActiveTask(s.tasks[t])
  }

  ghost predicate HasLiveTask(s: State, o: OpId) {
    exists t :: LiveTask(s, o, t)
  }

  ghost predicate InFlight(s: State, o: OpId) {
    o in s.ops && ActiveOp(s.ops[o])
  }

  /** The operation is over after one more step. */
  ghost predicate EndsBy(w: World, o: OpId, e: Event) {
    WellFormed(e) && o in Next(w, e).s.ops && !ActiveOp(Next(w, e).s.ops[o])
  }

  // --- Recovery ---

  lemma OrphanIsLive(s: State, o: OpId, owner: Owner, t: TaskId)
    requires TasksOk(s.ops, s.gens, s.tasks) && InFlight(s, o)
    ensures t in OrphanTasks(s, owner) && s.tasks[t].op == o <==> LiveTask(s, o, t) && s.tasks[t].owner != owner
  {
    if t in s.tasks {
      assert TaskOk(s.ops, s.gens, s.tasks[t]);
    }
  }

  lemma RecoveredOp(s: State, o: OpId, owner: Owner)
    requires TasksOk(s.ops, s.gens, s.tasks) && InFlight(s, o)
    ensures o in OrphanOps(s, owner) <==> exists t :: LiveTask(s, o, t) && s.tasks[t].owner != owner
  {
    forall t
      ensures t in OrphanTasks(s, owner) && s.tasks[t].op == o <==> LiveTask(s, o, t) && s.tasks[t].owner != owner
    {
      OrphanIsLive(s, o, owner, t);
    }
    hide TasksOk, OrphanTasks, LiveTask;
  }

  /**
    * Recovery after a restart ends an operation in flight exactly when another owner holds an unfinished index task of
    * it. A CONFIRMED publication that reuses a READY generation has no task, and an EXECUTING one whose build is done
    * has no unfinished task: recovery never ends these.
    */
  lemma RecoveryEndsIff(w: World, o: OpId, owner: Owner)
    requires Reachable(w) && InFlight(w.s, o)
    ensures var s' := RecoverInterrupted(w.s, owner);
            && o in s'.ops
            && (if exists t :: LiveTask(w.s, o, t) && w.s.tasks[t].owner != owner then s'.ops[o].state == OpFailed
                else s'.ops[o] == w.s.ops[o])
  {
    hide Next;
    ReachableInv(w);
    InvParts(w.s);
    hide Inv, Reachable, TasksOk, OpsOk;
    RecoveredOp(w.s, o, owner);
    hide OrphanTasks, OrphanOps, OrphanGens, LiveTask, EndTasks, EndGens;
  }

  // --- What stays intact about an operation in flight ---

  // Its confirmation still binds the current revision of a draft, and its generation the content of that revision.
  ghost predicate Intact(s: State, o: OpId) {
    && InFlight(s, o)
    && var row := s.ops[o];
       && row.version in s.vers && RevKey(row.version, row.rev) in s.revs && s.vers[row.version].doc in s.docs
       && OpOk(s.vers, s.revs, s.gens, row) && PointedAt(s.docs, row)
       && s.vers[row.version].state == Draft && s.vers[row.version].currentRev == row.rev
       && s.docs[s.vers[row.version].doc].current != Some(row.version)
       && s.vers[row.version].spec == s.revs[RevKey(row.version, row.rev)].meta.spec
       && Parsed(s.tasks, row.version, row.rev)
       && GenOk(s.vers, s.revs, s.chunks, row.conf.gen.value, s.gens[row.conf.gen.value])
       && s.gens[row.conf.gen.value].built == Generated
  }

  lemma TablesIntact(s: State, o: OpId)
    requires InFlight(s, o) && DocsOk(s.docs, s.vers) && PointersOk(s.docs, s.vers) && VersOk(s.vers, s.revs, s.gens)
    requires RevsOk(s.vers, s.revs) && GensOk(s.vers, s.revs, s.gens, s.chunks) && OpsOk(s.vers, s.revs, s.gens, s.ops)
    requires ActiveOk(s.vers, s.ops) && BodiesParsed(s.revs, s.tasks) && PointedAt(s.docs, s.ops[o])
    ensures Intact(s, o)
  {
    var row := s.ops[o];
    assert OpOk(s.vers, s.revs, s.gens, row);
    assert Sealed(row.version, s.vers[row.version], s.gens);
    assert GenOk(s.vers, s.revs, s.chunks, row.conf.gen.value, s.gens[row.conf.gen.value]);
    var k := RevKey(row.version, row.rev);
    assert k in s.revs && s.revs[k].body.Some?;
    assert Parsed(s.tasks, k.version, k.rev);
    hide Parsed;
  }

  lemma StaysIntact(w: World, o: OpId)
    requires Reachable(w) && InFlight(w.s, o)
    ensures Intact(w.s, o)
  {
    hide Next, PointedAt, Intact;
    ReachableInv(w);
    BodiesAreParsed(w);
    PreviousIsCurrent(w, o);
    var s := w.s;
    assert DocsOk(s.docs, s.vers) && PointersOk(s.docs, s.vers) && VersOk(s.vers, s.revs, s.gens);
    assert RevsOk(s.vers, s.revs) && GensOk(s.vers, s.revs, s.gens, s.chunks);
    assert OpsOk(s.vers, s.revs, s.gens, s.ops) && ActiveOk(s.vers, s.ops);
    hide Inv, DocsOk, PointersOk, VersOk, RevsOk, GensOk, OpsOk, ActiveOk, BodiesParsed, Reachable;
    TablesIntact(s, o);
  }

  function ScopeOf(s: State, o: OpId): Scope
    requires o in s.ops && RevKey(s.ops[o].version, s.ops[o].rev) in s.revs
  {
    s.revs[RevKey(s.ops[o].version, s.ops[o].rev)].meta.scope
  }

  predicate ValidOn(meta: Metadata, today: int) {
    meta.effective <= today && (meta.expiry.Some? ==> today <= meta.expiry.value)
  }

  // Nothing was accepted on the document after the operation.
  predicate Latest(s: State, o: OpId) {
    && o in s.ops && s.ops[o].conf.doc in s.docs
    && s.docs[s.ops[o].conf.doc].rowVersion == s.ops[o].conf.expectedRow + 1
  }

  /** The operation can go on: it is the last one accepted on its document, and its content is valid on the day. */
  predicate Due(s: State, o: OpId, today: int) {
    Latest(s, o) && ValidOn(s.ops[o].conf.meta, today)
  }

  predicate Room(s: State, o: OpId) {
    && o in s.ops && s.ops[o].conf.doc in s.docs
    && s.release < MAX_COUNTER && s.docs[s.ops[o].conf.doc].rowVersion < MAX_COUNTER
  }

  // The re-check of candidate and confirmation, which claims, saves and finalizations share.
  ghost predicate Rechecks(s: State, o: OpId, today: int, record: PublicationRead, rebuilt: Result<Confirmation, Error>)
    requires Intact(s, o)
  {
    var row := s.ops[o];
    && record.revision.citation == Citation(row.version, s.vers[row.version])
    && record.revision.content == s.revs[RevKey(row.version, row.rev)]
    && (rebuilt.Ok? <==> Due(s, o, today))
    && (rebuilt.Err? ==> IsStaleCode(rebuilt.error))
    && (rebuilt.Ok? ==>
          rebuilt.value == row.conf.(action := PUBLISH, expectedRow := row.conf.expectedRow + 1, task := None, gen :=
                                     None))
  }

  lemma RecheckDecides(s: State, o: OpId, today: int)
    requires Intact(s, o)
    ensures var row := s.ops[o];
            var d := s.vers[row.version].doc;
            var record := PublicationCandidate(s, d, row.version, row.rev, ScopeOf(s, o), today);
            && row.conf.doc == d && record.Ok?
            && Rechecks(s, o, today, record.value,
                        PublicationConfirmation(record.value, Target(d, row.version, row.rev, row.conf.expectedRow + 1),
                                                row.actor))
  {
    hide Parsed;
  }

  // --- Finalization ---

  // A publication whose index work is done.
  ghost predicate Done(s: State, o: OpId) {
    && Intact(s, o) && s.ops[o].action == PUBLISH && s.gens[s.ops[o].conf.gen.value].state == Ready
    && var t := TaskOf(s.tasks, o, INDEX);
       if t.Some? then
         && TaskOk(s.ops, s.gens, s.tasks[t.value]) && s.tasks[t.value].state == TaskSucceeded
         && s.ops[o].state == OpExecuting
       else s.ops[o].state == OpConfirmed
  }

  lemma WorkIsDone(s: State, o: OpId)
    requires Intact(s, o) && TasksOk(s.ops, s.gens, s.tasks) && OpsHaveTasks(s.ops, s.gens, s.tasks)
    requires !HasLiveTask(s, o)
    ensures Done(s, o)
  {
    assert HasWork(s.gens, s.tasks, o, s.ops[o]);
    forall t | IsTaskOf(s.tasks, t, o, INDEX)
      ensures TaskOk(s.ops, s.gens, s.tasks[t]) && !ActiveTask(s.tasks[t])
    {
      assert !LiveTask(s, o, t);
    }
    hide TasksOk, OpsHaveTasks;
  }

  lemma DoneIs(w: World, o: OpId)
    requires Reachable(w) && InFlight(w.s, o) && !HasLiveTask(w.s, o)
    ensures Done(w.s, o)
  {
    hide Next, Intact, Done, HasLiveTask;
    StaysIntact(w, o);
    ReachableInv(w);
    var s := w.s;
    assert TasksOk(s.ops, s.gens, s.tasks) && OpsHaveTasks(s.ops, s.gens, s.tasks);
    hide Inv, TasksOk, OpsHaveTasks;
    WorkIsDone(s, o);
  }

  /** The stored evidence of the generation of an operation in flight, when the generation is READY. */
  ghost predicate Backed(s: State, o: OpId) {
    && Intact(s, o)
    && var row := s.ops[o];
       row.conf.gen.value in s.chunks
       && ValidEvidence(Citation(row.version, s.vers[row.version]), s.revs[RevKey(row.version, row.rev)],
                        row.conf.gen.value, s.chunks[row.conf.gen.value])
  }

  lemma ReadyIsBacked(w: World, o: OpId)
    requires Reachable(w) && InFlight(w.s, o) && Intact(w.s, o) && w.s.gens[w.s.ops[o].conf.gen.value].state == Ready
    ensures Backed(w.s, o)
  {
    hide Next, Evidence, AllValid, Parsed, PointedAt;
    RecordsAreValid(w);
    ReadyOf(w, w.s.ops[o].conf.gen.value);
  }

  lemma PreparedIs(s: State, o: OpId, today: int)
    requires Done(s, o) && Backed(s, o)
    ensures FinalRows(s, o, s.ops[o].actor, ScopeOf(s, o))
    ensures var read := Prepared(s, o, ScopeOf(s, o), today);
            && (read.Ok? <==> Due(s, o, today)) && (read.Err? ==> IsStaleCode(read.error))
            && (read.Ok? ==> ReadOf(s, o, read.value))
  {
    RecheckDecides(s, o, today);
    hide PublicationCandidate, PublicationConfirmation, Evidence, AllValid, Due, Parsed, PointedAt;
  }

  // What a prepared publication holds.
  ghost predicate ReadOf(s: State, o: OpId, read: FinalizeRead)
    requires Intact(s, o)
  {
    var row := s.ops[o];
    && read.conf == row.conf && read.genId == row.conf.gen.value && read.gen == s.gens[read.genId]
    && read.genId in s.chunks && read.chunks == s.chunks[read.genId]
    && read.record.revision.citation == Citation(row.version, s.vers[row.version])
    && read.record.revision.content == s.revs[RevKey(row.version, row.rev)]
  }

  lemma PreparedRead(s: State, o: OpId, scope: Scope, today: int)
    requires Intact(s, o) && Prepared(s, o, scope, today).Ok?
    ensures s.gens[s.ops[o].conf.gen.value].state == Ready && ReadOf(s, o, Prepared(s, o, scope, today).value)
  {
    hide PublicationConfirmation, AllValid, Parsed, PointedAt;
  }

  lemma PreparedIsInFlight(s: State, o: OpId, scope: Scope, today: int)
    requires OpsOk(s.vers, s.revs, s.gens, s.ops)
    requires o in s.ops && s.ops[o].version in s.vers && s.vers[s.ops[o].version].doc in s.docs
    requires Prepared(s, o, scope, today).Ok?
    ensures InFlight(s, o)
  {
    assert OpOk(s.vers, s.revs, s.gens, s.ops[o]);
    hide OpsOk, PublicationCandidate, PublicationConfirmation, AllValid;
  }

  /**
    * In every reachable state the evidence check accepts a prepared publication exactly when the index is the
    * configured one.
    */
  lemma EvidenceCheckDecides(w: World, o: OpId, scope: Scope, today: int, configured: Index)
    requires Reachable(w) && o in w.s.ops && w.s.ops[o].version in w.s.vers
    requires w.s.vers[w.s.ops[o].version].doc in w.s.docs && Prepared(w.s, o, scope, today).Ok?
    ensures Accepts(configured, Prepared(w.s, o, scope, today).value)
            <==> Prepared(w.s, o, scope, today).value.gen.index == configured
  {
    hide Next, Prepared, Evidence, AllValid;
    ReachableInv(w);
    InvParts(w.s);
    hide Inv, OpsOk, TasksOk;
    PreparedIsInFlight(w.s, o, scope, today);
    StaysIntact(w, o);
    hide Intact;
    PreparedRead(w.s, o, scope, today);
    ReadyIsBacked(w, o);
  }

  lemma PrepareStep(w: World, e: Event)
    requires e.PrepareEvent?
    ensures WellFormed(e) && Next(w, e).s == w.s
    ensures Next(w, e).owed == w.owed + AfterPrepare(w.s, e.op, e.actor, e.scope, e.today, e.configured)
  {
    hide AfterPrepare;
  }

  lemma RejectStep(w: World, r: Rejection)
    requires r in w.owed && FinalRows(w.s, r.op, r.actor, r.scope)
    ensures EndsBy(w, r.op, RejectEvent(r))
  {
    var s' := RejectFinalization(w.s, r.op, r.actor, r.scope, r.stale);
    assert r.op in s'.ops && !ActiveOp(s'.ops[r.op]);
    hide RejectFinalization;
  }

  lemma CommitStep(w: World, e: Event)
    requires e.CommitEvent?
    ensures WellFormed(e) && Next(w, e).s == CommitFinalization(w.s, e.op, e.fingerprint, e.actor, e.scope, e.today).0
  {
    hide CommitFinalization, Owes;
  }

  /** The operation has published its version, and the document points at it. */
  predicate Released(s: State, o: OpId) {
    && o in s.ops && s.ops[o].state == OpSucceeded && s.ops[o].version in s.vers
    && s.vers[s.ops[o].version].state == Published && s.vers[s.ops[o].version].doc in s.docs
    && s.docs[s.vers[s.ops[o].version].doc].current == Some(s.ops[o].version)
  }

  lemma CommitTakes(s: State, o: OpId, actor: Actor, scope: Scope, today: int, read: FinalizeRead)
    requires FinalRows(s, o, actor, scope) && ActiveOp(s.ops[o]) && Prepared(s, o, scope, today) == Ok(read)
    requires s.ops[o].conf.doc == s.vers[s.ops[o].version].doc && Room(s, o) && read.conf == s.ops[o].conf
    requires var previous := s.ops[o].conf.previous;
             PublishedOf(s.vers, s.vers[s.ops[o].version].doc) == if previous.Some? then {previous.value} else {}
    ensures var s' := CommitFinalization(s, o, Fingerprint(read.conf, read.gen, read.chunks), actor, scope, today).0;
            Released(s', o)
  {
    hide Prepared, PublishedOf, FinalReceiptOf;
  }

  function PrepareOn(s: State, o: OpId, today: int, configured: Index): Event
    requires o in s.ops && RevKey(s.ops[o].version, s.ops[o].rev) in s.revs
  {
    PrepareEvent(o, s.ops[o].actor, ScopeOf(s, o), today, Some(configured))
  }

  lemma DueIsCommitted(w: World, o: OpId, today: int) returns (e: Event)
    requires Reachable(w) && Done(w.s, o) && Backed(w.s, o) && Due(w.s, o, today) && Room(w.s, o)
    ensures e.CommitEvent? && EndsBy(w, o, e) && Released(Next(w, e).s, o)
  {
    hide Next;
    PreparedIs(w.s, o, today);
    CommitReplacesCurrent(w, o, ScopeOf(w.s, o), today);
    RecheckDecides(w.s, o, today);
    hide Reachable, Prepared, Backed, PublicationCandidate, PublicationConfirmation, Rechecks;
    var actor, scope := w.s.ops[o].actor, ScopeOf(w.s, o);
    var read := Prepared(w.s, o, scope, today).value;
    e := CommitEvent(o, Fingerprint(read.conf, read.gen, read.chunks), actor, scope, today);
    CommitTakes(w.s, o, actor, scope, today, read);
    CommitStep(w, e);
  }

  lemma RefusedIsOwed(w: World, o: OpId, today: int, configured: Index)
    requires Done(w.s, o) && Backed(w.s, o)
    requires !Due(w.s, o, today) || w.s.gens[w.s.ops[o].conf.gen.value].index != configured
    ensures var e := PrepareOn(w.s, o, today, configured);
            && WellFormed(e) && Next(w, e).s == w.s && FinalRows(w.s, o, e.actor, e.scope)
            && Rejection(o, e.actor, e.scope, !Due(w.s, o, today)) in Next(w, e).owed
  {
    hide Next;
    PreparedIs(w.s, o, today);
    hide Prepared, Backed, Due, ValidEvidence;
    var e := PrepareOn(w.s, o, today, configured);
    PrepareStep(w, e);
    assert Rejection(o, e.actor, e.scope, !Due(w.s, o, today)) in AfterPrepare(w.s, o, e.actor, e.scope, today,
        e.configured);
  }

  /**
    * An operation in flight without an unfinished task is a publication that only waits for its finalization, and one
    * finalization ends it. It is rejected as stale exactly when it is no longer due, and for its evidence exactly when
    * it is due but the configured index is no longer the one that built it; otherwise it is committed, for which the
    * two counters need room.
    */
  lemma FinalizationEnds(w: World, o: OpId, today: int, configured: Index) returns (e: Event)
    requires Reachable(w) && InFlight(w.s, o) && !HasLiveTask(w.s, o)
    requires Due(w.s, o, today) && Intact(w.s, o) && w.s.gens[w.s.ops[o].conf.gen.value].index == configured ==>
               Room(w.s, o)
    ensures Intact(w.s, o) && w.s.ops[o].action == PUBLISH
    ensures var w1 := Next(w, PrepareOn(w.s, o, today, configured));
            && w1.s == w.s && Reachable(w1) && EndsBy(w1, o, e)
            && if Due(w.s, o, today) && w.s.gens[w.s.ops[o].conf.gen.value].index == configured
               then e.CommitEvent? && Released(Next(w1, e).s, o)
               else e.RejectEvent? && e.rejection.op == o && e.rejection.stale == !Due(w.s, o, today)
  {
    hide Next, HasLiveTask, EndsBy, Due, Room;
    StaysIntact(w, o);
    DoneIs(w, o);
    assert w.s.gens[w.s.ops[o].conf.gen.value].state == Ready;
    ReadyIsBacked(w, o);
    hide Intact, Backed, Done;
    var prepare := PrepareOn(w.s, o, today, configured);
    PrepareStep(w, prepare);
    StepReachable(w, prepare);
    var w1 := Next(w, prepare);
    hide Reachable;
    if Due(w.s, o, today) && w.s.gens[w.s.ops[o].conf.gen.value].index == configured {
      e := DueIsCommitted(w1, o, today);
    } else {
      RefusedIsOwed(w, o, today, configured);
      var r := Rejection(o, prepare.actor, prepare.scope, !Due(w.s, o, today));
      e := RejectEvent(r);
      RejectStep(w1, r);
    }
  }

  // --- Every operation in flight can be ended ---

  function AnotherIndex(index: Index): (other: Index)
    ensures other != index
  {
    index.(indexVersion := index.indexVersion + 1)
  }

  lemma RecoverStep(w: World, owner: Owner)
    ensures WellFormed(RecoverEvent(owner)) && Next(w, RecoverEvent(owner)).s == RecoverInterrupted(w.s, owner)
  {
    hide RecoverInterrupted;
  }

  lemma FollowsTrans(w: World, w1: World, w2: World)
    requires Follows(w, w1) && Follows(w1, w2)
    ensures Follows(w, w2)
  {
    hide Next;
    var a :| AllWellFormed(a) && w1 == Run(w, a);
    var b :| AllWellFormed(b) && w2 == Run(w1, b);
    RunsCompose(w, a, b);
  }

  /**
    * From every reachable state each operation in flight can be brought to an end: an unfinished task by recovery, and
    * everything else by its own finalization, which commits what is due on the day while the counters have room.
    */
  lemma WorkCanEnd(w: World, o: OpId, today: int) returns (w': World)
    requires Reachable(w) && InFlight(w.s, o)
    ensures Follows(w, w') && o in w'.s.ops && !ActiveOp(w'.s.ops[o])
    ensures !HasLiveTask(w.s, o) && Due(w.s, o, today) && Room(w.s, o) ==> Released(w'.s, o)
  {
    hide Next, RecoverInterrupted, Due, Room;
    if HasLiveTask(w.s, o) {
      var t :| LiveTask(w.s, o, t);
      var owner := w.s.tasks[t].owner + 1;
      RecoveryEndsIff(w, o, owner);
      RecoverStep(w, owner);
      StepReachable(w, RecoverEvent(owner));
      w' := Next(w, RecoverEvent(owner));
    } else {
      StaysIntact(w, o);
      hide HasLiveTask;
      var index := w.s.gens[w.s.ops[o].conf.gen.value].index;
      // Without room for a commit, only another index ends what is due.
      var configured := if Room(w.s, o) then index else AnotherIndex(index);
      var e := FinalizationEnds(w, o, today, configured);
      hide Intact;
      w' := EndByFinalization(w, o, PrepareOn(w.s, o, today, configured), e);
    }
  }

  lemma EndByFinalization(w: World, o: OpId, prepare: Event, e: Event) returns (w': World)
    requires Reachable(w) && prepare.PrepareEvent? && WellFormed(prepare) && EndsBy(Next(w, prepare), o, e)
    ensures Follows(w, w') && Reachable(w') && w' == Next(Next(w, prepare), e)
  {
    hide Next, WellFormed;
    StepReachable(w, prepare);
    var w1 := Next(w, prepare);
    StepReachable(w1, e);
    w' := Next(w1, e);
    hide Reachable, Follows;
    FollowsTrans(w, w1, w');
  }
}
