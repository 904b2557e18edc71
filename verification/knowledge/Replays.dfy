/** Replays change nothing and read back. */
module KnowledgeReplays {
  import opened Wrappers
  import opened KnowledgeTypes
  import opened KnowledgeSteps
  import opened KnowledgeInvariant
  import opened KnowledgeMonotone
  import opened KnowledgeUpload
  import opened KnowledgeAccepting
  import opened KnowledgeFinalizing
  import opened KnowledgeWithdrawing
  import opened KnowledgeRuns
  import opened KnowledgeOutcomes
  import Chunker
  import Markdown
  import Text

  /** An actor's key names at most one operation of an action. */
  lemma OneOperationPerKey(w: World, o: OpId, p: OpId, actor: Actor, action: Action, key: Key)
    requires Reachable(w) && HasKey(w.s.ops, o, actor, action, key) && HasKey(w.s.ops, p, actor, action, key)
    ensures o == p
  {
    hide Next;
    ReachableInv(w);
    assert SameKey(w.s.ops[o], w.s.ops[p]);
    hide Inv;
  }

  // --- Read-backs ---

  ghost predicate InScope(s: State, o: OpId, scope: Scope) {
    && o in s.ops && RevKey(s.ops[o].version, s.ops[o].rev) in s.revs
    && s.revs[RevKey(s.ops[o].version, s.ops[o].rev)].meta.scope == scope
  }

  // A read-back succeeds within the scope of the revision and reveals nothing outside it.
  ghost predicate ReadsBack<R>(s: State, o: OpId, scope: Scope, result: Result<R, Error>) {
    if InScope(s, o, scope) then result.Ok? else result == Err(NotFound)
  }

  ghost predicate Linked(s: State, o: OpId) {
    && o in s.ops && OpOk(s.vers, s.revs, s.gens, s.ops[o]) && s.vers[s.ops[o].version].doc in s.docs
    && forall t :: t in s.tasks && s.tasks[t].op == o ==>
       TaskOk(s.ops, s.gens, s.tasks[t]) && RetryOk(s.ops, s.tasks, s.tasks[t])
  }

  // --- What the receipts tell: the tables as they are now, by the row of the operation ---

  ghost predicate TellsUpload(s: State, o: OpId, r: UploadReceipt)
    requires Linked(s, o)
  {
    var (row, v) := (s.ops[o], s.vers[s.ops[o].version]);
    && r.doc == v.doc && r.version == row.version && r.rev == row.rev && r.op == o
    && r.row == s.docs[v.doc].rowVersion && (r.isCurrent <==> v.currentRev == row.rev)
    && IsTaskOf(s.tasks, r.task, o, PARSE) && r.taskState == s.tasks[r.task].state
  }

  ghost predicate TellsPublication(s: State, o: OpId, r: PublishReceipt)
    requires Linked(s, o)
  {
    var row := s.ops[o];
    && r.doc == s.vers[row.version].doc && r.version == row.version && r.rev == row.rev && r.op == o
    && r.opState == row.state && Some(r.gen) == row.conf.gen && r.gen in s.gens && r.genState == s.gens[r.gen].state
    && r.reservedRow == row.conf.expectedRow + 1
    && (r.task.Some? <==> HasTask(s.tasks, o, INDEX)) && (r.task.Some? ==> IsTaskOf(s.tasks, r.task.value, o, INDEX))
  }

  ghost predicate TellsRetry(s: State, o: OpId, r: RetryReceipt)
    requires Linked(s, o)
  {
    var row := s.ops[o];
    && r.doc == s.vers[row.version].doc && r.version == row.version && r.rev == row.rev && r.op == o
    && r.opState == row.state && Some(r.gen) == row.conf.gen && r.gen in s.gens && r.genState == s.gens[r.gen].state
    && r.reservedRow == row.conf.expectedRow + 1 && r.retryOf == row.conf.task
    && IsTaskOf(s.tasks, r.task, o, INDEX) && r.taskState == s.tasks[r.task].state
    && r.attempt == s.tasks[r.task].attempt
  }

  ghost predicate TellsDisable(s: State, o: OpId, r: DisableReceipt)
    requires Linked(s, o)
  {
    var (row, v) := (s.ops[o], s.vers[s.ops[o].version]);
    && r.op == o && r.doc == v.doc && r.version == row.version && r.rev == row.rev && r.gen == v.publishedGen
    && r.current == s.docs[v.doc].current && r.current != Some(r.version) && r.row == s.docs[v.doc].rowVersion
    && r.release == s.release
  }

  ghost predicate TellsFinal(s: State, o: OpId, r: FinalReceipt)
    requires Linked(s, o)
  {
    var (row, v) := (s.ops[o], s.vers[s.ops[o].version]);
    && r.op == o && r.doc == v.doc && r.version == row.version && r.rev == row.rev && Some(r.gen) == v.publishedGen
    && r.replaced == row.conf.previous && r.state == v.state
    && (r.isCurrent <==> s.docs[v.doc].current == Some(row.version)) && r.row == s.docs[v.doc].rowVersion
    && r.release == s.release
  }

  lemma OpsAreLinked(s: State, o: OpId)
    requires Inv(s) && o in s.ops
    ensures Linked(s, o)
  {
    assert OpsOk(s.vers, s.revs, s.gens, s.ops) && TasksOk(s.ops, s.gens, s.tasks) && RetriesOk(s.ops, s.tasks)
      && PointersOk(s.docs, s.vers);
    hide Inv;
  }

  lemma OpsHaveWork(s: State)
    requires Inv(s)
    ensures OpsHaveTasks(s.ops, s.gens, s.tasks)
  {
  }

  lemma UploadReadsBack(s: State, o: OpId, replayed: bool)
    requires Linked(s, o) && OpsHaveTasks(s.ops, s.gens, s.tasks) && s.ops[o].action == UPLOAD
    ensures UploadResult(s, o, replayed).Ok?
    ensures var r := UploadResult(s, o, replayed).value;
            TellsUpload(s, o, r) && r.replayed == replayed
  {
    EachWork(s.ops, s.gens, s.tasks);
    assert HasTask(s.tasks, o, PARSE);
  }

  lemma PublicationReadsBack(s: State, o: OpId, scope: Scope, replayed: bool)
    requires Linked(s, o) && OpsHaveTasks(s.ops, s.gens, s.tasks) && s.ops[o].action == PUBLISH
    ensures ReadsBack(s, o, scope, PublicationResult(s, o, scope, replayed))
    ensures InScope(s, o, scope) ==> var r := PublicationResult(s, o, scope, replayed).value;
                                     TellsPublication(s, o, r) && r.replayed == replayed
  {
    EachWork(s.ops, s.gens, s.tasks);
    assert !HasTask(s.tasks, o, INDEX) ==> s.gens[s.ops[o].conf.gen.value].state == Ready;
    assert TaskOf(s.tasks, o, INDEX).None? ==> !HasTask(s.tasks, o, INDEX);
  }

  lemma RetryReadsBack(s: State, o: OpId, scope: Scope, replayed: bool)
    requires Linked(s, o) && OpsHaveTasks(s.ops, s.gens, s.tasks) && s.ops[o].action == RETRY_INDEX
    ensures ReadsBack(s, o, scope, RetryResult(s, o, scope, replayed))
    ensures InScope(s, o, scope) ==> var r := RetryResult(s, o, scope, replayed).value;
                                     TellsRetry(s, o, r) && r.replayed == replayed
  {
    EachWork(s.ops, s.gens, s.tasks);
    assert HasTask(s.tasks, o, INDEX);
  }

  lemma DisableReadsBack(s: State, o: OpId, scope: Scope, replayed: bool)
    requires Linked(s, o) && PointersOk(s.docs, s.vers) && s.ops[o].action == DISABLE
    ensures ReadsBack(s, o, scope, DisableReceiptOf(s, o, scope, replayed))
    ensures InScope(s, o, scope) ==> var r := DisableReceiptOf(s, o, scope, replayed).value;
                                     TellsDisable(s, o, r) && r.replayed == replayed
  {
  }

  lemma PointersHold(s: State)
    requires Inv(s)
    ensures PointersOk(s.docs, s.vers)
  {
  }

  /** A finished publication reads back exactly when its version was not imported as HISTORICAL. */
  lemma FinalizationReadsBack(s: State, o: OpId, replayed: bool)
    requires Linked(s, o) && PointersOk(s.docs, s.vers) && s.ops[o].action == PUBLISH && s.ops[o].state == OpSucceeded
    ensures FinalReceiptOf(s, o, replayed).Ok? <==> s.vers[s.ops[o].version].state != Historical
    ensures FinalReceiptOf(s, o, replayed).Err? ==> FinalReceiptOf(s, o, replayed).error == DataInvalid
    ensures var r := FinalReceiptOf(s, o, replayed);
            r.Ok? ==> TellsFinal(s, o, r.value) && r.value.replayed == replayed
  {
  }

  // --- Replays ---

  lemma FindsKey(ops: Ops, o: OpId, actor: Actor, action: Action, key: Key)
    requires KeysUnique(ops) && HasKey(ops, o, actor, action, key)
    ensures FindOp(ops, actor, action, key) == Some(o)
  {
    KeysApart(ops);
  }

  lemma KeyFinds(w: World, o: OpId, actor: Actor, action: Action, key: Key)
    requires Reachable(w) && HasKey(w.s.ops, o, actor, action, key)
    ensures FindOp(w.s.ops, actor, action, key) == Some(o)
    ensures Linked(w.s, o) && OpsHaveTasks(w.s.ops, w.s.gens, w.s.tasks) && PointersOk(w.s.docs, w.s.vers)
  {
    hide Next, Linked, FindOp;
    ReachableInv(w);
    assert KeysUnique(w.s.ops);
    OpsAreLinked(w.s, o);
    OpsHaveWork(w.s);
    PointersHold(w.s);
    hide Inv, KeysUnique;
    FindsKey(w.s.ops, o, actor, action, key);
  }

  /** Replaying an upload changes nothing and names the same operation, unless the request differs. */
  lemma UploadReplays(w: World, u: UploadCall, o: OpId)
    requires Reachable(w) && HasKey(w.s.ops, o, u.actor, UPLOAD, u.cmd.key) && ValidCommand(u.cmd)
             && PlanMatches(u.cmd, u.plan)
    ensures var (s', r) := AcceptUpload(w.s, u);
            && s' == w.s
            && (if w.s.ops[o].input != UploadInput(u.cmd, u.raw) then r == Err(IdempotencyConflict)
                else r.Ok? && Linked(w.s, o) && TellsUpload(w.s, o, r.value) && r.value.replayed)
  {
    hide Next, FindOp, Linked, OpsHaveTasks, PointersOk, UploadResult, UploadRefusal, InsertUpload, EndVersion;
    KeyFinds(w, o, u.actor, UPLOAD, u.cmd.key);
    hide Reachable;
    UploadReadsBack(w.s, o, true);
  }

  // What a replay within an actor's scope returns.
  ghost predicate Replays<R>(s: State, o: OpId, scope: Scope, input: Input, result: Result<R, Error>) {
    if !InScope(s, o, scope) then result == Err(NotFound)
    else if s.ops[o].input != input then result == Err(IdempotencyConflict)
    else result.Ok?
  }

  /** Replaying a publication changes nothing, whatever has been published, disabled or retried since. */
  lemma PublicationReplays(w: World, p: PublishCall, o: OpId)
    requires Reachable(w) && HasKey(w.s.ops, o, p.actor, PUBLISH, p.cmd.key)
    ensures var (s', r) := AcceptPublication(w.s, p);
            && s' == w.s && Replays(w.s, o, p.scope, PublishInput(p.cmd), r)
            && (r.Ok? ==> Linked(w.s, o) && TellsPublication(w.s, o, r.value) && r.value.replayed)
  {
    hide Next, FindOp, Linked, OpsHaveTasks, PointersOk, PublicationResult, PublishCheck, InsertPublication;
    KeyFinds(w, o, p.actor, PUBLISH, p.cmd.key);
    hide Reachable;
    PublicationReadsBack(w.s, o, p.scope, true);
  }

  /** Replaying a retry changes nothing and reports the state of the original retry. */
  lemma RetryReplays(w: World, r: RetryCall, o: OpId)
    requires Reachable(w) && HasKey(w.s.ops, o, r.actor, RETRY_INDEX, r.cmd.key)
    ensures var (s', result) := AcceptRetry(w.s, r);
            && s' == w.s && Replays(w.s, o, r.scope, RetryInput(r.cmd), result)
            && (result.Ok? ==> Linked(w.s, o) && TellsRetry(w.s, o, result.value) && result.value.replayed)
  {
    hide Next, FindOp, Linked, OpsHaveTasks, PointersOk, RetryResult, RetrySource, InsertRetry;
    KeyFinds(w, o, r.actor, RETRY_INDEX, r.cmd.key);
    hide Reachable;
    RetryReadsBack(w.s, o, r.scope, true);
  }

  /** Replaying a disable changes nothing, even after another version has become current. */
  lemma DisableReplays(w: World, cmd: DisableCommand, actor: Actor, scope: Scope, opId: OpId, o: OpId)
    requires Reachable(w) && HasKey(w.s.ops, o, actor, DISABLE, cmd.key)
    ensures var (s', r) := Disable(w.s, cmd, actor, scope, opId);
            && s' == w.s && Replays(w.s, o, scope, DisableInput(cmd), r)
            && (r.Ok? ==> Linked(w.s, o) && TellsDisable(w.s, o, r.value) && r.value.replayed)
  {
    hide Next, FindOp, Linked, OpsHaveTasks, PointersOk, DisableReceiptOf, DisableSnapshot, InvalidatePending,
      WithdrawVersion;
    KeyFinds(w, o, actor, DISABLE, cmd.key);
    hide Reachable;
    DisableReadsBack(w.s, o, scope, true);
  }

  /**
    * Repeating the finalization of a finished publication changes nothing. It returns the receipt exactly when the
    * version was not imported as HISTORICAL; an imported HISTORICAL version is reported as damaged data.
    */
  lemma FinalizationReplays(w: World, o: OpId, fingerprint: Fingerprint, actor: Actor, scope: Scope, today: int)
    requires Reachable(w) && FinalRows(w.s, o, actor, scope) && w.s.ops[o].state == OpSucceeded
    ensures var (s', r) := CommitFinalization(w.s, o, fingerprint, actor, scope, today);
            && s' == w.s
            && (if w.s.vers[w.s.ops[o].version].state == Historical then r == Err(DataInvalid)
                else r.Ok? && Linked(w.s, o) && TellsFinal(w.s, o, r.value) && r.value.replayed)
    ensures PrepareFinalization(w.s, o, actor, scope, today).Ok? <==> w.s.vers[w.s.ops[o].version].state != Historical
  {
    hide Next, Prepared;
    ReachableInv(w);
    OpsAreLinked(w.s, o);
    PointersHold(w.s);
    hide Inv, Linked, PointersOk, Reachable;
    FinalizationReadsBack(w.s, o, true);
  }

  // --- Imported HISTORICAL versions ---

  // What the import leaves of an inactive catalog version.
  predicate InactiveRows(s: State, item: ImportItem, actor: Actor) {
    var k := RevKey(item.version, 1);
    && item.publishOp in s.ops && s.ops[item.publishOp].actor == actor && s.ops[item.publishOp].action == PUBLISH
    && s.ops[item.publishOp].version == item.version && s.ops[item.publishOp].rev == 1
    && s.ops[item.publishOp].state == OpSucceeded
    && item.version in s.vers && s.vers[item.version].state == Historical
    && k in s.revs && s.revs[k].meta == item.content.meta
  }

  lemma ImportedRows(s: State, c: ImportCall, i: nat)
    requires i < |c.plan| && ItemOk(c.plan[i]) && !c.plan[i].active
    ensures InactiveRows(ImportVersion(s, c, i), c.plan[i], c.actor)
  {
  }

  lemma OtherRows(s: State, c: ImportCall, i: nat, n: nat)
    requires i < n < |c.plan| && ItemsDiffer(c.plan[i], c.plan[n]) && InactiveRows(s, c.plan[i], c.actor)
    ensures InactiveRows(ImportVersion(s, c, n), c.plan[i], c.actor)
  {
  }

  lemma {:induction false} ImportLeavesRows(s: State, c: ImportCall, i: nat, n: nat)
    requires PlanOk(c.plan) && i < n <= |c.plan| && !c.plan[i].active
    ensures InactiveRows(ImportVersions(s, c, n), c.plan[i], c.actor)
  {
    hide InactiveRows, ImportVersion, ItemOk, ItemsDiffer;
    var before := ImportVersions(s, c, n - 1);
    if i == n - 1 {
      ImportedRows(before, c, i);
    } else {
      ImportLeavesRows(s, c, i, n - 1);
      OtherRows(before, c, i, n - 1);
    }
  }

  lemma RowsStay(s: State, s': State, item: ImportItem, actor: Actor)
    requires Monotone(s, s') && InactiveRows(s, item, actor) && PointersOk(s'.docs, s'.vers)
    ensures FinalRows(s', item.publishOp, actor, item.content.meta.scope)
    ensures var row := s'.ops[item.publishOp];
            row.state == OpSucceeded && s'.vers[row.version].state == Historical
  {
    var k := RevKey(item.version, 1);
    assert OpKept(s.ops[item.publishOp], s'.ops[item.publishOp]);
    assert VersionKept(s.vers[item.version], s'.vers[item.version]) && RevisionKept(s.revs[k], s'.revs[k]);
    hide Monotone, OpsKept, VersKept, RevsKept, DocsKept, TasksKept, GensKept, ChunksKept;
  }

  lemma ImportStep(w: World, c: ImportCall)
    requires PlanOk(c.plan)
    ensures Next(w, ImportEvent(c)).s == Import(w.s, c).0
  {
    hide Import, PlanOk;
  }

  lemma ImportCommits(w: World, c: ImportCall, i: nat)
    requires PlanOk(c.plan) && i < |c.plan| && !c.plan[i].active && Import(w.s, c).1 == Ok(false)
    ensures InactiveRows(Next(w, ImportEvent(c)).s, c.plan[i], c.actor)
  {
    ImportStep(w, c);
    hide Next, InactiveRows, ImportVersions, PlanOk, ImportReplayed, ImportRefusal;
    ImportLeavesRows(w.s, c, i, |c.plan|);
    var s1 := ImportVersions(w.s, c, |c.plan|);
    CatalogKeepsRows(s1, c.plan[i], c.actor, c.cmd.catalog);
  }

  lemma CatalogKeepsRows(s: State, item: ImportItem, actor: Actor, catalog: CatalogHash)
    requires InactiveRows(s, item, actor)
    ensures InactiveRows(s.(catalog := Some(catalog), release := s.release + 1), item, actor)
  {
  }

  /**
    * The finished publication of every inactive version of an imported catalog, of whatever size, is refused as damaged
    * data in every state after the import, however often it is read back.
    */
  lemma ImportedHistoricalNeverReadsBack(w: World, c: ImportCall, i: nat, w': World, fingerprint: Fingerprint,
                                         today: int)
    requires Reachable(w) && PlanOk(c.plan) && i < |c.plan| && !c.plan[i].active && Import(w.s, c).1 == Ok(false)
    requires Follows(Next(w, ImportEvent(c)), w')
    ensures var (o, scope) := (c.plan[i].publishOp, c.plan[i].content.meta.scope);
            && FinalRows(w'.s, o, c.actor, scope) && w'.s.ops[o].state == OpSucceeded
            && CommitFinalization(w'.s, o, fingerprint, c.actor, scope, today) == (w'.s, Err(DataInvalid))
            && PrepareFinalization(w'.s, o, c.actor, scope, today).Err?
  {
    hide Next, PlanOk, Import, InactiveRows, FinalRows, CommitFinalization, PrepareFinalization;
    var item := c.plan[i];
    var w1 := Next(w, ImportEvent(c));
    ImportCommits(w, c, i);
    StepReachable(w, ImportEvent(c));
    FollowsReachable(w1, w');
    LaterIsMonotone(w1, w');
    ReachableInv(w');
    PointersHold(w'.s);
    hide PointersOk, Inv, Monotone, Reachable, Follows;
    RowsStay(w1.s, w'.s, item, c.actor);
    FinalizationReplays(w', item.publishOp, fingerprint, c.actor, item.content.meta.scope, today);
  }

  // A catalog of one inactive version.
  function HistoricalItem(): ImportItem {
    var content := Revision(0, Chunker.MarkdownFormat, Metadata("t", 0, 0, None, 0, 0), Some("b"));
    var chunk := Chunker.Chunk(Chunker.ChunkId(0, Markdown.Section(["t"], "b"), 0), 0, ["t"], "b");
    ImportItem(0, 0, 0, 0, 0, 1, 0, 1, content, false, [Record(0, chunk, seq(1536, i => 1.0))])
  }

  function HistoricalImport(): ImportCall {
    ImportCall(ImportCommand(0, 0, 0), 0, [HistoricalItem()], Index(0, 0, 0, 0), 0, 0)
  }

  lemma HistoricalTables(today: int)
    requires PlanOk(HistoricalImport().plan)
    ensures var s := Import(EMPTY, HistoricalImport()).0;
            && FinalRows(s, 1, 0, 0) && s.ops[1].state == OpSucceeded
            && PrepareFinalization(s, 1, 0, 0, today) == Err(DataInvalid)
  {
    hide Prepared;
    var c := HistoricalImport();
    assert ImportVersions(EMPTY, c, 0) == EMPTY;
    assert ImportVersions(EMPTY, c, 1) == ImportVersion(EMPTY, c, 0);
  }

  // The stored record of the witness meets the record schema.
  lemma HistoricalRecordIsValid()
    ensures forall r :: r in HistoricalItem().records ==> ValidRecord(r)
  {
    var r := HistoricalItem().records[0];
    assert r.vector[0] == 1.0 && r.vector[0] in r.vector;
    assert r.chunk.path == ["t"] && r.chunk.content == "b";
    assert Text.Strip("b") == "b";
  }

  /** The exception is real: after importing one HISTORICAL version, its finished publication cannot be read back. */
  lemma HistoricalDoesNotReadBack(today: int) returns (w: World, o: OpId)
    ensures Reachable(w) && FinalRows(w.s, o, 0, 0) && w.s.ops[o].state == OpSucceeded
    ensures PrepareFinalization(w.s, o, 0, 0, today) == Err(DataInvalid)
  {
    hide Next, Import, PrepareFinalization, FinalRows;
    o := 1;
    HistoricalTables(today);
    assert AllWellFormed([]) && START == Run(START, []);
    w := Next(START, ImportEvent(HistoricalImport()));
    ImportStep(START, HistoricalImport());
    StepReachable(START, ImportEvent(HistoricalImport()));
  }

  // --- Accepted steps always read back, so a transaction that changed anything returns its receipt ---

  lemma InsertedPublication(s: State, p: PublishCall)
    requires Inv(s) && AcceptPublication(s, p).0 != s
    ensures var (s', r) := AcceptPublication(s, p);
            p.op in s'.ops && s'.ops[p.op].action == PUBLISH && r == PublicationResult(s', p.op, p.scope, false)
              && InScope(s', p.op, p.scope)
  {
    hide Inv, PublicationResult, FirstReusable, PendingOn;
  }

  /** A publication either is accepted with its receipt or changes nothing. */
  lemma PublicationIsAtomic(w: World, p: PublishCall)
    requires Reachable(w)
    ensures var (s', r) := AcceptPublication(w.s, p);
            s' != w.s ==> r.Ok? && r.value.op == p.op && !r.value.replayed
  {
    hide Next, AcceptPublication;
    ReachableInv(w);
    hide Inv, PublicationResult;
    var s' := AcceptPublication(w.s, p).0;
    if s' != w.s {
      InsertedPublication(w.s, p);
      AcceptPublicationKeeps(w.s, p);
      OpsAreLinked(s', p.op);
      OpsHaveWork(s');
      hide Linked, OpsHaveTasks, InScope;
      PublicationReadsBack(s', p.op, p.scope, false);
    }
  }

  lemma InsertedRetry(s: State, r: RetryCall)
    requires AcceptRetry(s, r).0 != s
    ensures var (s', result) := AcceptRetry(s, r);
            r.op in s'.ops && s'.ops[r.op].action == RETRY_INDEX && result == RetryResult(s', r.op, r.scope, false)
              && InScope(s', r.op, r.scope)
  {
    hide RetryResult, RetrySource, PublicationConfirmation, ParentOk, HasRetry, PendingOn, Acceptable;
    RetrySourceAccepts(s, r);
  }

  /** A retry either is accepted with its receipt or changes nothing. */
  lemma RetryIsAtomic(w: World, r: RetryCall)
    requires Reachable(w)
    ensures var (s', result) := AcceptRetry(w.s, r);
            s' != w.s ==> result.Ok? && result.value.op == r.op && !result.value.replayed
  {
    hide Next, AcceptRetry;
    ReachableInv(w);
    hide Inv, RetryResult;
    var s' := AcceptRetry(w.s, r).0;
    if s' != w.s {
      InsertedRetry(w.s, r);
      AcceptRetryKeeps(w.s, r);
      OpsAreLinked(s', r.op);
      OpsHaveWork(s');
      hide Linked, OpsHaveTasks, InScope;
      RetryReadsBack(s', r.op, r.scope, false);
    }
  }

  lemma InsertedDisable(s: State, cmd: DisableCommand, actor: Actor, scope: Scope, opId: OpId)
    requires Disable(s, cmd, actor, scope, opId).0 != s
    ensures var (s', r) := Disable(s, cmd, actor, scope, opId);
            opId in s'.ops && s'.ops[opId].action == DISABLE && r == DisableReceiptOf(s', opId, scope, false)
              && InScope(s', opId, scope)
  {
    hide DisableReceiptOf, PendingOps, PendingTasks, PendingGens, EndTasks, EndOps, EndGens;
  }

  /** A disable either takes effect with its receipt or changes nothing. */
  lemma DisableIsAtomic(w: World, cmd: DisableCommand, actor: Actor, scope: Scope, opId: OpId)
    requires Reachable(w)
    ensures var (s', r) := Disable(w.s, cmd, actor, scope, opId);
            s' != w.s ==> r.Ok? && r.value.op == opId && !r.value.replayed
  {
    hide Next, Disable;
    ReachableInv(w);
    hide Inv, DisableReceiptOf;
    var s' := Disable(w.s, cmd, actor, scope, opId).0;
    if s' != w.s {
      InsertedDisable(w.s, cmd, actor, scope, opId);
      DisableKeeps(w.s, cmd, actor, scope, opId);
      OpsAreLinked(s', opId);
      PointersHold(s');
      hide Linked, PointersOk, InScope;
      DisableReadsBack(s', opId, scope, false);
    }
  }

  lemma InsertedUpload(s: State, u: UploadCall)
    requires ValidCommand(u.cmd) && PlanMatches(u.cmd, u.plan) && AcceptUpload(s, u).0 != s
    ensures var (s', r) := AcceptUpload(s, u);
            u.op in s'.ops && s'.ops[u.op].action == UPLOAD && r == UploadResult(s', u.op, false)
  {
    hide UploadResult, EndVersion;
  }

  /** An upload either is accepted with its receipt or changes nothing. */
  lemma UploadIsAtomic(w: World, u: UploadCall)
    requires Reachable(w) && ValidCommand(u.cmd) && PlanMatches(u.cmd, u.plan)
    ensures var (s', r) := AcceptUpload(w.s, u);
            s' != w.s ==> r.Ok? && r.value.op == u.op && !r.value.replayed
  {
    hide Next, AcceptUpload, PlanMatches;
    ReachableInv(w);
    hide Inv, UploadResult;
    var s' := AcceptUpload(w.s, u).0;
    if s' != w.s {
      InsertedUpload(w.s, u);
      AcceptUploadKeeps(w.s, u);
      OpsAreLinked(s', u.op);
      OpsHaveWork(s');
      hide Linked, OpsHaveTasks;
      UploadReadsBack(s', u.op, false);
    }
  }

  lemma SwitchedOp(s: State, o: OpId, fingerprint: Fingerprint, actor: Actor, scope: Scope, today: int)
    requires CommitFinalization(s, o, fingerprint, actor, scope, today).0 != s
    ensures var (s', r) := CommitFinalization(s, o, fingerprint, actor, scope, today);
            && o in s'.ops && s'.ops[o].action == PUBLISH && s'.ops[o].state == OpSucceeded
            && s'.ops[o].version in s'.vers && s'.vers[s'.ops[o].version].doc in s'.docs
               && s'.vers[s'.ops[o].version].state == Published
            && r == FinalReceiptOf(s', o, false)
  {
    hide Prepared, FinalReceiptOf, PublishedOf;
  }

  /** A finalization either switches the version and returns its receipt or changes nothing. */
  lemma FinalizationIsAtomic(w: World, o: OpId, fingerprint: Fingerprint, actor: Actor, scope: Scope, today: int)
    requires Reachable(w)
    ensures var (s', r) := CommitFinalization(w.s, o, fingerprint, actor, scope, today);
            s' != w.s ==> r.Ok? && r.value.op == o && !r.value.replayed
  {
    hide Next, CommitFinalization;
    ReachableInv(w);
    hide Inv, FinalReceiptOf;
    var s' := CommitFinalization(w.s, o, fingerprint, actor, scope, today).0;
    if s' != w.s {
      SwitchedOp(w.s, o, fingerprint, actor, scope, today);
      CommitKeeps(w.s, o, fingerprint, actor, scope, today);
      OpsAreLinked(s', o);
      PointersHold(s');
      hide Linked, PointersOk;
      FinalizationReadsBack(s', o, false);
    }
  }
}
