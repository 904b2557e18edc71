/**
  * The repositories as a class whose fields are the tables and whose methods assign rows in place, one assignment or
  * loop at a time, as the transactions of the service do. Each method ends in exactly the state and the result of its
  * step, and keeps the invariant. A lookup that the service makes by a query is a scan of the table; where the service
  * relies on a unique index, so does the method, through the invariant.
  */
module KnowledgeRepository {
  import opened Wrappers
  import opened KnowledgeTypes
  import opened KnowledgeSteps
  import opened KnowledgeInvariant
  import opened KnowledgeMonotone
  import opened KnowledgeUpload
  import opened KnowledgeParsing
  import opened KnowledgeAccepting
  import opened KnowledgeProgress
  import opened KnowledgeCompleting
  import opened KnowledgeFinalizing
  import opened KnowledgeWithdrawing
  import opened KnowledgeImporting
  import opened KnowledgeWork
  import Chunker

  lemma KeysAreUnique(s: State)
    requires Inv(s)
    ensures KeysUnique(s.ops)
  {
  }

  lemma ReusableIsFirst(gens: Gens, g: GenId, v: VerId, rev: nat, hash: GenHash, index: Index)
    requires IsFirstReusable(gens, g, v, rev, hash, index)
    ensures FirstReusable(gens, v, rev, hash, index) == Some(g)
  {
    var h := FirstReusable(gens, v, rev, hash, index).value;
    assert Earlier(gens, g, h) && Earlier(gens, h, g);
  }

  lemma NoneReusable(gens: Gens, v: VerId, rev: nat, hash: GenHash, index: Index)
    requires forall h :: !Reusable(gens, h, v, rev, hash, index)
    ensures FirstReusable(gens, v, rev, hash, index).None?
  {
  }

  // With one published version at most, superseding them all is superseding that one.
  lemma SupersedeOne(vers: Vers, d: DocId, previous: Option<VerId>)
    requires PublishedOf(vers, d) == if previous.Some? then {previous.value} else {}
    ensures previous.Some? ==> previous.value in vers
    ensures Supersede(vers, d) == if previous.Some?
            then vers[previous.value := vers[previous.value].(state := Superseded)] else vers
  {
    assert previous.Some? ==> previous.value in PublishedOf(vers, d);
    assert forall v :: v in vers && vers[v].doc == d && vers[v].state == Published ==> v in PublishedOf(vers, d);
  }

  method ValidateRecords(claim: Claim, records: seq<Record>) returns (ok: bool)
    ensures ok == ValidRecords(claim, records)
  {
    hide Chunker.ParseRevision, Chunker.Normalize, ValidRecord;
    var content := claim.record.revision.content;
    if content.body.None? || Chunker.Normalize(content.body.value) != content.body.value {
      return false;
    }
    var parsed := Chunker.ParseRevision(claim.record.revision.citation, content.meta.title, content.format,
                                        content.body.value);
    if parsed.None? || |records| != |parsed.value| {
      return false;
    }
    for i := 0 to |records|
      invariant forall j :: 0 <= j < i ==>
                records[j].gen == claim.gen && records[j].chunk == parsed.value[j] && ValidRecord(records[j])
    {
      if records[i].gen != claim.gen || records[i].chunk != parsed.value[i] || !ValidRecord(records[i]) {
        assert records[i] in records;
        return false;
      }
    }
    return true;
  }

  class Repository {
    var release: nat
    var catalog: Option<CatalogHash>
    var docs: Docs
    var vers: Vers
    var revs: Revs
    var ops: Ops
    var tasks: Tasks
    var gens: Gens
    var chunks: Chunks

    function View(): State
      reads this
    {
      State(release, catalog, docs, vers, revs, ops, tasks, gens, chunks)
    }

    ghost predicate Valid()
      reads this
    {
      Inv(View())
    }

    constructor ()
      ensures Valid() && View() == EMPTY
    {
      release, catalog := 0, None;
      docs, vers, revs, ops, tasks, gens, chunks := map[], map[], map[], map[], map[], map[], map[];
      new;
      InitInv();
    }

    // --- Queries ---

    method FindOperation(actor: Actor, action: Action, key: Key) returns (r: Option<OpId>)
      requires Valid()
      ensures r == FindOp(ops, actor, action, key)
    {
      hide Inv, Monotone;
      KeysAreUnique(View());
      KeysApart(ops);
      var rest := ops.Keys;
      while rest != {}
        invariant rest <= ops.Keys
        invariant forall o :: o in ops.Keys - rest ==> !HasKey(ops, o, actor, action, key)
        decreases rest
      {
        var o :| o in rest;
        if HasKey(ops, o, actor, action, key) {
          return Some(o);
        }
        rest := rest - {o};
      }
      return None;
    }

    method FindTask(op: OpId, kind: TaskType) returns (r: Option<TaskId>)
      requires Valid()
      ensures r == TaskOf(tasks, op, kind)
    {
      hide Inv, Monotone;
      TasksAreUnique(View());
      TasksApart(tasks);
      var rest := tasks.Keys;
      while rest != {}
        invariant rest <= tasks.Keys
        invariant forall t :: t in tasks.Keys - rest ==> !IsTaskOf(tasks, t, op, kind)
        decreases rest
      {
        var t :| t in rest;
        if IsTaskOf(tasks, t, op, kind) {
          return Some(t);
        }
        rest := rest - {t};
      }
      return None;
    }

    // The earliest READY generation of the same input, if there is any.
    method FindReusable(v: VerId, rev: nat, hash: GenHash, index: Index) returns (r: Option<GenId>)
      ensures r == FirstReusable(gens, v, rev, hash, index)
      ensures r.None? <==> forall g :: !Reusable(gens, g, v, rev, hash, index)
    {
      var rest := gens.Keys;
      r := None;
      while rest != {}
        invariant rest <= gens.Keys
        invariant r.None? ==> forall g :: g in gens.Keys - rest ==> !Reusable(gens, g, v, rev, hash, index)
        invariant r.Some? ==> Reusable(gens, r.value, v, rev, hash, index)
        invariant r.Some? ==> forall g :: g in gens.Keys - rest && Reusable(gens, g, v, rev, hash, index) ==>
                  Earlier(gens, r.value, g)
        decreases rest
      {
        var g :| g in rest;
        if Reusable(gens, g, v, rev, hash, index) && (r.None? || Earlier(gens, g, r.value)) {
          r := Some(g);
        }
        rest := rest - {g};
      }
      if r.Some? {
        ReusableIsFirst(gens, r.value, v, rev, hash, index);
      } else {
        NoneReusable(gens, v, rev, hash, index);
      }
    }

    // --- Ending work, row by row ---

    method EndTaskRows(ts: set<TaskId>, e: Ending)
      requires ts <= tasks.Keys
      modifies `tasks
      ensures tasks == EndTasks(old(tasks), ts, e)
    {
      var rest := ts;
      while rest != {}
        invariant rest <= ts && tasks == EndTasks(old(tasks), ts - rest, e)
        decreases rest
      {
        var t :| t in rest;
        tasks := tasks[t := tasks[t].(state := e.task, error := Some(e.error))];
        rest := rest - {t};
      }
    }

    method EndOpRows(os: set<OpId>, e: Ending)
      requires os <= ops.Keys
      modifies `ops
      ensures ops == EndOps(old(ops), os, e)
    {
      var rest := os;
      while rest != {}
        invariant rest <= os && ops == EndOps(old(ops), os - rest, e)
        decreases rest
      {
        var o :| o in rest;
        ops := ops[o := ops[o].(state := e.op, error := Some(e.error))];
        rest := rest - {o};
      }
    }

    method EndGenRows(gs: set<GenId>, e: Ending)
      requires gs <= gens.Keys
      modifies `gens
      ensures gens == EndGens(old(gens), gs, e)
    {
      var rest := gs;
      while rest != {}
        invariant rest <= gs && gens == EndGens(old(gens), gs - rest, e)
        decreases rest
      {
        var g :| g in rest;
        gens := gens[g := gens[g].(state := GenFailed, error := Some(e.error))];
        rest := rest - {g};
      }
    }

    // --- Uploading ---

    method ReadUpload(opId: OpId, replayed: bool) returns (r: Result<UploadReceipt, Error>)
      requires Valid()
      ensures r == UploadResult(View(), opId, replayed)
    {
      hide Inv, Monotone;
      var task := FindTask(opId, PARSE);
      r := UploadReceiptOf(View(), opId, task, replayed);
    }

    // A revision makes the unfinished work of its version stale, in bulk.
    method EndVersion(v: VerId)
      modifies `tasks, `ops, `gens
      ensures View() == KnowledgeSteps.EndVersion(old(View()), v)
    {
      var ts, os, gs := ActiveTasksOn(View(), v), ActiveOpsOn(View(), v), BuildingOn(View(), v);
      tasks, ops, gens := EndTasks(tasks, ts, STALE_ENDING), EndOps(ops, os, STALE_ENDING),
        EndGens(gens, gs, STALE_ENDING);
    }

    method InsertUploadRows(u: UploadCall)
      requires u.plan.newDocument || u.plan.doc in docs
      requires u.plan.newVersion || u.plan.version in vers
      modifies `docs, `vers, `revs, `ops, `tasks
      ensures View() == InsertUpload(old(View()), u)
    {
      if u.plan.newDocument {
        docs := docs[u.plan.doc := Document(None, 1)];
      } else {
        docs := docs[u.plan.doc := docs[u.plan.doc].(rowVersion := docs[u.plan.doc].rowVersion + 1)];
      }
      if u.plan.newVersion {
        vers := vers[u.plan.version := Version(u.plan.doc, u.cmd.meta.spec, Uploaded, 1, Draft, None, None)];
      } else {
        vers := vers[u.plan.version := vers[u.plan.version].(currentRev := u.plan.rev)];
      }
      revs := revs[RevKey(u.plan.version, u.plan.rev) := Revision(u.raw, u.format, u.cmd.meta, None)];
      ops := ops[u.op := UploadOp(u)];
      tasks := tasks[u.task := UploadTask(u)];
    }

    method AcceptUpload(u: UploadCall) returns (r: Result<UploadReceipt, Error>)
      requires Valid() && ValidCommand(u.cmd) && PlanMatches(u.cmd, u.plan)
      modifies this
      ensures Valid()
      ensures View() == KnowledgeSteps.AcceptUpload(old(View()), u).0
              && r == KnowledgeSteps.AcceptUpload(old(View()), u).1
    {
      ghost var s := View();
      hide Inv, Monotone, PlanMatches, UploadResult, UploadRefusal, InsertUpload, EndTasks, EndOps, EndGens;
      RefusalFacts(s, u);
      AcceptUploadKeeps(s, u);
      var previous := FindOperation(u.actor, UPLOAD, u.cmd.key);
      if previous.Some? {
        if ops[previous.value].input != UploadInput(u.cmd, u.raw) {
          return Err(IdempotencyConflict);
        }
        r := ReadUpload(previous.value, true);
        return;
      }
      var refusal := UploadRefusal(View(), u);
      if refusal.Some? {
        return Err(refusal.value);
      }
      if !u.plan.newVersion {
        EndVersion(u.plan.version);
      }
      InsertUploadRows(u);
      r := ReadUpload(u.op, false);
    }

    // --- Parsing ---

    method ClaimParse(t: TaskId, owner: Owner) returns (read: Option<RevisionRead>)
      requires Valid()
      modifies `tasks
      ensures Valid()
      ensures View() == KnowledgeSteps.ClaimParse(old(View()), t, owner).0
              && read == KnowledgeSteps.ClaimParse(old(View()), t, owner).1
    {
      hide Inv, Monotone;
      ClaimParseKeeps(View(), t, owner);
      if !ParseRows(View(), t) || tasks[t].state != Queued || tasks[t].owner != owner {
        return None;
      }
      if !Parseable(View(), tasks[t]) {
        tasks := tasks[t := tasks[t].(state := TaskStale, error := Some(StaleInput))];
        return None;
      }
      tasks := tasks[t := tasks[t].(state := Running, error := None)];
      read := Some(ReadRevision(View(), tasks[t].version, tasks[t].rev));
    }

    method FinishParse(t: TaskId, owner: Owner, outcome: ParseOutcome) returns (r: Result<bool, Error>)
      requires Valid()
      modifies `tasks, `revs
      ensures Valid()
      ensures View() == KnowledgeSteps.FinishParse(old(View()), t, owner, outcome).0
      ensures r == KnowledgeSteps.FinishParse(old(View()), t, owner, outcome).1
    {
      hide Inv, Monotone, StorableBody;
      FinishParseKeeps(View(), t, owner, outcome);
      if !ParseRows(View(), t) || tasks[t].owner != owner || tasks[t].state != Running {
        return Ok(false);
      }
      if !Parseable(View(), tasks[t]) {
        tasks := tasks[t := tasks[t].(state := TaskStale, error := Some(StaleInput))];
        return Ok(false);
      }
      if outcome.error.Some? {
        if outcome.error != Some(ParseFailed) && outcome.error != Some(StorageError) {
          return Err(ParseResultInvalid);
        }
        tasks := tasks[t := tasks[t].(state := TaskFailed, error := outcome.error)];
        return Ok(false);
      }
      if !StorableBody(outcome) {
        return Err(ParseResultInvalid);
      }
      StorableHasBody(outcome);
      var key := RevKey(tasks[t].version, tasks[t].rev);
      revs := revs[key := revs[key].(body := outcome.body)];
      tasks := tasks[t := tasks[t].(state := TaskSucceeded, error := None)];
      r := Ok(true);
    }

    // Marks the unfinished tasks of other owners, then their operations and generations in bulk.
    method RecoverInterrupted(owner: Owner) returns (count: nat)
      requires Valid()
      modifies `tasks, `ops, `gens
      ensures Valid()
      ensures View() == KnowledgeSteps.RecoverInterrupted(old(View()), owner)
              && count == |OrphanTasks(old(View()), owner)|
    {
      hide Inv, Monotone;
      RecoverKeeps(View(), owner);
      var ts, os, gs := OrphanTasks(View(), owner), OrphanOps(View(), owner), OrphanGens(View(), owner);
      EndTaskRows(ts, INTERRUPTED_ENDING);
      ops, gens := EndOps(ops, os, INTERRUPTED_ENDING), EndGens(gens, gs, INTERRUPTED_ENDING);
      count := |ts|;
    }

    // --- Accepting a publication or a retry ---

    method ReadPublication(opId: OpId, scope: Scope, replayed: bool) returns (r: Result<PublishReceipt, Error>)
      requires Valid() && opId in ops
      ensures r == PublicationResult(View(), opId, scope, replayed)
    {
      hide Inv, Monotone, PublishReceiptOf;
      var task := FindTask(opId, INDEX);
      r := PublishReceiptOf(View(), opId, task, scope, replayed);
    }

    method ReadRetry(opId: OpId, scope: Scope, replayed: bool) returns (r: Result<RetryReceipt, Error>)
      requires Valid() && opId in ops
      ensures r == RetryResult(View(), opId, scope, replayed)
    {
      hide Inv, Monotone, RetryReceiptOf;
      var task := FindTask(opId, INDEX);
      r := RetryReceiptOf(View(), opId, task, scope, replayed);
    }

    // Inserts a build operation and reserves the document counter for it.
    method InsertOpRow(opId: OpId, row: Operation)
      requires row.conf.doc in docs
      modifies `ops, `docs
      ensures View() == InsertOp(old(View()), opId, row)
    {
      ops := ops[opId := row];
      docs := docs[row.conf.doc := docs[row.conf.doc].(rowVersion := docs[row.conf.doc].rowVersion + 1)];
    }

    method InsertBuildRows(genId: GenId, gen: Generation, taskId: TaskId, task: Task)
      modifies `gens, `tasks
      ensures View() == InsertBuild(old(View()), genId, gen, taskId, task)
    {
      gens := gens[genId := gen];
      tasks := tasks[taskId := task];
    }

    // A reusable generation needs no build; otherwise the operation reserves one and queues its task.
    method InsertPublicationRows(p: PublishCall, conf: Confirmation, hash: GenHash, ready: Option<GenId>)
      requires conf.doc in docs
      modifies `ops, `docs, `gens, `tasks
      ensures View() == InsertPublication(old(View()), p, conf, hash, ready) && p.op in ops
    {
      var stored := conf.(gen := Some(if ready.Some? then ready.value else p.gen));
      InsertOpRow(p.op, BuildOp(p.cmd.key, PublishInput(p.cmd), stored));
      if ready.None? {
        InsertBuildRows(p.gen, BuildGen(stored, hash, p.now), p.task, BuildTask(p.op, stored, p.owner, 1));
      }
    }

    method AcceptPublication(p: PublishCall) returns (r: Result<PublishReceipt, Error>)
      requires Valid()
      modifies this
      ensures Valid()
      ensures View() == KnowledgeSteps.AcceptPublication(old(View()), p).0
              && r == KnowledgeSteps.AcceptPublication(old(View()), p).1
    {
      ghost var s := View();
      PublishFacts(s, p);
      hide Inv, Monotone, PublicationResult, PublishCheck, InsertPublication, Reusable, FirstReusable;
      AcceptPublicationKeeps(s, p);
      var previous := FindOperation(p.actor, PUBLISH, p.cmd.key);
      if previous.Some? {
        r := ReadPublication(previous.value, p.scope, true);
        if r.Ok? && ops[previous.value].input != PublishInput(p.cmd) {
          r := Err(IdempotencyConflict);
        }
        return;
      }
      var check := PublishCheck(View(), p);
      if check.Err? {
        return Err(check.error);
      }
      var (record, conf) := check.value;
      var hash := HashOf(conf.version, conf.rev, record.revision.citation, record.revision.content, p.index.value);
      var ready := FindReusable(conf.version, conf.rev, hash, p.index.value);
      if p.op in ops || (ready.None? && (p.gen in gens || p.task in tasks)) {
        return Err(Conflict);
      }
      InsertPublicationRows(p, conf, hash, ready);
      r := ReadPublication(p.op, p.scope, false);
    }

    method AcceptRetry(call: RetryCall) returns (r: Result<RetryReceipt, Error>)
      requires Valid()
      modifies this
      ensures Valid()
      ensures View() == KnowledgeSteps.AcceptRetry(old(View()), call).0
              && r == KnowledgeSteps.AcceptRetry(old(View()), call).1
    {
      ghost var s := View();
      hide Inv, Monotone, RetryResult, RetrySource, InsertOp, InsertBuild, FindOp;
      RetryFacts(s, call);
      AcceptRetryKeeps(s, call);
      var previous := FindOperation(call.actor, RETRY_INDEX, call.cmd.key);
      var t := call.cmd.target;
      if previous.Some? {
        r := ReadRetry(previous.value, call.scope, true);
        if r.Ok? && ops[previous.value].input != RetryInput(call.cmd) {
          r := Err(IdempotencyConflict);
        }
        return;
      }
      if !Visible(View(), t.doc, t.version, t.rev, call.scope) {
        return Err(NotFound);
      }
      if call.index.None? {
        return Err(IndexNotConfigured);
      }
      var source := RetrySource(View(), t, call.cmd.task, call.actor, call.scope, call.index.value, call.today);
      if source.Err? {
        return Err(source.error);
      }
      var conf := source.value;
      if call.cmd.digest != conf {
        return Err(StaleConfirmation);
      }
      if call.op in ops || call.gen in gens || call.task in tasks {
        return Err(Conflict);
      }
      var hash := HashOf(t.version, t.rev, Citation(t.version, vers[t.version]), revs[RevKey(t.version, t.rev)],
                         call.index.value);
      var stored := conf.(gen := Some(call.gen));
      var attempt := tasks[call.cmd.task].attempt + 1;
      InsertOpRow(call.op, BuildOp(call.cmd.key, RetryInput(call.cmd), stored));
      InsertBuildRows(call.gen, BuildGen(stored, hash, call.now), call.task,
                      BuildTask(call.op, stored, call.owner, attempt));
      RetryOpStays(s, call, conf, hash, attempt);
      r := ReadRetry(call.op, call.scope, false);
    }

    // --- Building the index ---

    // Ends a task together with its operation and its generation.
    method Terminate(t: TaskId, error: ErrorCode)
      requires t in tasks && tasks[t].op in ops && tasks[t].gen.Some? && tasks[t].gen.value in gens
      modifies `tasks, `ops, `gens
      ensures View() == KnowledgeSteps.Terminate(old(View()), t, error)
    {
      var e := EndingFor(error);
      var o, g := tasks[t].op, tasks[t].gen.value;
      tasks := tasks[t := tasks[t].(state := e.task, error := Some(e.error))];
      ops := ops[o := ops[o].(state := e.op, error := Some(e.error))];
      gens := gens[g := gens[g].(state := GenFailed, error := Some(e.error))];
      assert tasks == EndTasks(old(tasks), {t}, e);
      assert ops == EndOps(old(ops), {o}, e);
      assert gens == EndGens(old(gens), {g}, e);
    }

    method ClaimIndex(t: TaskId, actor: Actor, scope: Scope, owner: Owner, index: Index, action: Action, today: int)
      returns (claim: Option<Claim>)
      requires Valid()
      modifies `tasks, `ops, `gens
      ensures Valid()
      ensures View() == KnowledgeSteps.ClaimIndex(old(View()), t, actor, scope, owner, index, action, today).0
      ensures claim == KnowledgeSteps.ClaimIndex(old(View()), t, actor, scope, owner, index, action, today).1
    {
      hide Inv, Monotone, KnowledgeSteps.Terminate, CheckInput;
      ClaimIndexKeeps(View(), t, actor, scope, owner, index, action, today);
      if !IndexRows(View(), t, actor, action) || !Claimable(View(), t, owner, Queued, OpConfirmed) {
        return None;
      }
      var record := CheckInput(View(), t, actor, scope, index, action, today);
      if record.Err? {
        Terminate(t, InputError(record.error));
        return None;
      }
      var o := tasks[t].op;
      tasks := tasks[t := tasks[t].(state := Running)];
      ops := ops[o := ops[o].(state := OpExecuting)];
      claim := Some(Claim(t, tasks[t].gen.value, actor, record.value, index));
    }

    method FailIndex(t: TaskId, actor: Actor, owner: Owner, error: ErrorCode, action: Action) returns (ended: bool)
      requires Valid()
      modifies `tasks, `ops, `gens
      ensures Valid()
      ensures View() == KnowledgeSteps.FailIndex(old(View()), t, actor, owner, error, action).0
      ensures ended == KnowledgeSteps.FailIndex(old(View()), t, actor, owner, error, action).1
    {
      hide Inv, Monotone, KnowledgeSteps.Terminate;
      FailIndexKeeps(View(), t, actor, owner, error, action);
      ended := IndexRows(View(), t, actor, action) && Claimable(View(), t, owner, Running, OpExecuting);
      if ended {
        Terminate(t, error);
      }
    }

    // Stores the evidence; a retry is finished with its build, a publication waits for its finalization.
    method SaveRecords(t: TaskId, records: seq<Record>)
      requires t in tasks && tasks[t].op in ops && tasks[t].gen.Some? && tasks[t].gen.value in gens
      modifies `tasks, `ops, `gens, `chunks
      ensures View() == CompleteBuild(old(View()), t, records)
    {
      var o, g := tasks[t].op, tasks[t].gen.value;
      chunks := chunks[g := records];
      gens := gens[g := gens[g].(state := Ready, chunkCount := |records|)];
      tasks := tasks[t := tasks[t].(state := TaskSucceeded)];
      if tasks[t].action == RETRY_INDEX {
        ops := ops[o := ops[o].(state := OpSucceeded, result := Some(g))];
      }
    }

    method FinishIndex(claim: Claim, records: seq<Record>, scope: Scope, owner: Owner, action: Action, today: int)
      returns (done: bool)
      requires Valid()
      modifies `tasks, `ops, `gens, `chunks
      ensures Valid()
      ensures View() == KnowledgeSteps.FinishIndex(old(View()), claim, records, scope, owner, action, today).0
      ensures done == KnowledgeSteps.FinishIndex(old(View()), claim, records, scope, owner, action, today).1
    {
      ghost var s := View();
      hide Inv, Monotone, KnowledgeSteps.Terminate, KnowledgeSteps.FailIndex, CheckInput, ValidRecords, WellNumbered,
        CompleteBuild;
      FinishIndexKeeps(s, claim, records, scope, owner, action, today);
      var t := claim.task;
      var valid := ValidateRecords(claim, records);
      if !valid {
        var ended := FailIndex(t, claim.actor, owner, IndexValidationFailed, action);
        return false;
      }
      if !IndexRows(View(), t, claim.actor, action) || !Claimable(View(), t, owner, Running, OpExecuting)
         || tasks[t].gen.value != claim.gen {
        return false;
      }
      var record := CheckInput(View(), t, claim.actor, scope, claim.index, action, today);
      if record.Err? {
        Terminate(t, InputError(record.error));
        return false;
      }
      if record.value.revision != claim.record.revision || record.value.previous != claim.record.previous {
        Terminate(t, StaleInput);
        return false;
      }
      if !WellNumbered(records, claim.gen) {
        Terminate(t, IndexValidationFailed);
        return false;
      }
      SaveRecords(t, records);
      done := true;
    }

    // --- Finalizing ---

    method ReadFinalization(opId: OpId, scope: Scope, today: int) returns (r: Result<FinalizeRead, Error>)
      requires Valid() && opId in ops && ops[opId].version in vers && vers[ops[opId].version].doc in docs
      ensures r == Prepared(View(), opId, scope, today)
    {
      hide Inv, Monotone, FinalizeReadOf;
      var task := FindTask(opId, INDEX);
      r := FinalizeReadOf(View(), opId, task, scope, today);
    }

    method PrepareFinalization(opId: OpId, actor: Actor, scope: Scope, today: int)
      returns (r: Result<Preparation, Error>)
      requires Valid()
      ensures r == KnowledgeSteps.PrepareFinalization(View(), opId, actor, scope, today)
    {
      hide Inv, Monotone, Prepared, FinalReceiptOf;
      if !FinalRows(View(), opId, actor, scope) {
        return Err(NotFound);
      }
      if ops[opId].state == OpSucceeded {
        var receipt := FinalReceiptOf(View(), opId, true);
        return if receipt.Err? then Err(receipt.error) else Ok(AlreadyPublished(receipt.value));
      }
      var read := ReadFinalization(opId, scope, today);
      return if read.Err? then Err(read.error) else Ok(Reviewable(read.value));
    }

    // Supersedes the one published version and points the document at the new one.
    method SwitchRows(opId: OpId, g: GenId, previous: Option<VerId>)
      requires opId in ops && ops[opId].version in vers && vers[ops[opId].version].doc in docs
      requires PublishedOf(vers, vers[ops[opId].version].doc) == if previous.Some? then {previous.value} else {}
      modifies `vers, `docs, `release, `ops
      ensures View() == SwitchVersion(old(View()), opId, g)
    {
      var o := ops[opId];
      var d := vers[o.version].doc;
      SupersedeOne(vers, d, previous);
      hide Supersede, PublishedOf;
      if previous.Some? {
        vers := vers[previous.value := vers[previous.value].(state := Superseded)];
      }
      vers := vers[o.version :=
                   vers[o.version].(state := Published, publishedRev := Some(o.rev), publishedGen := Some(g))];
      docs := docs[d := Document(Some(o.version), docs[d].rowVersion + 1)];
      release := release + 1;
      ops := ops[opId := o.(state := OpSucceeded, result := Some(o.version))];
    }

    method CommitFinalization(opId: OpId, fingerprint: Fingerprint, actor: Actor, scope: Scope, today: int)
      returns (r: Result<FinalReceipt, Error>)
      requires Valid()
      modifies this
      ensures Valid()
      ensures View() == KnowledgeSteps.CommitFinalization(old(View()), opId, fingerprint, actor, scope, today).0
      ensures r == KnowledgeSteps.CommitFinalization(old(View()), opId, fingerprint, actor, scope, today).1
    {
      ghost var s := View();
      hide Inv, Monotone, Prepared, FinalReceiptOf, PublishedOf, SwitchVersion;
      CommitKeeps(s, opId, fingerprint, actor, scope, today);
      if !FinalRows(View(), opId, actor, scope) {
        return Err(NotFound);
      }
      if ops[opId].state == OpSucceeded {
        return FinalReceiptOf(View(), opId, true);
      }
      var read := ReadFinalization(opId, scope, today);
      if read.Err? {
        return Err(read.error);
      }
      if Fingerprint(read.value.conf, read.value.gen, read.value.chunks) != fingerprint {
        return Err(StaleConfirmation);
      }
      var d := vers[ops[opId].version].doc;
      if docs[d].rowVersion >= MAX_COUNTER || release >= MAX_COUNTER {
        return Err(CounterExhausted);
      }
      var previous := read.value.conf.previous;
      if PublishedOf(vers, d) != (if previous.Some? then {previous.value} else {}) {
        return Err(DataInvalid);
      }
      SwitchRows(opId, read.value.genId, previous);
      SwitchedStays(s, opId, read.value.genId);
      r := FinalReceiptOf(View(), opId, false);
    }

    method RejectFinalization(opId: OpId, actor: Actor, scope: Scope, stale: bool)
      requires Valid()
      modifies `ops
      ensures Valid() <==> (old(FinalRows(View(), opId, actor, scope)) ==> old(RejectGuard(View(), opId)))
      ensures View() == KnowledgeSteps.RejectFinalization(old(View()), opId, actor, scope, stale)
    {
      hide Inv, Monotone, RejectGuard;
      RejectKeeps(View(), opId, actor, scope, stale);
      if FinalRows(View(), opId, actor, scope) && (ops[opId].state == OpConfirmed || ops[opId].state == OpExecuting) {
        ops := ops[opId := ops[opId].(state := if stale then OpStale else OpFailed,
                                      error := Some(if stale then StaleInput else IndexValidationFailed))];
      }
    }

    // --- Disabling ---

    // Ends the pending operations of a document with their live tasks and BUILDING generations.
    method InvalidatePending(d: DocId)
      modifies `tasks, `ops, `gens
      ensures View() == KnowledgeSteps.InvalidatePending(old(View()), d)
    {
      var os := PendingOps(View(), d);
      if os == {} {
        assert PendingTasks(View(), {}) == {} && PendingGens(View(), {}) == {};
        assert EndTasks(tasks, {}, STALE_ENDING) == tasks && EndOps(ops, {}, STALE_ENDING) == ops
          && EndGens(gens, {}, STALE_ENDING) == gens;
        return;
      }
      var ts, gs := PendingTasks(View(), os), PendingGens(View(), os);
      EndTaskRows(ts, STALE_ENDING);
      EndOpRows(os, STALE_ENDING);
      EndGenRows(gs, STALE_ENDING);
    }

    // Withdraws the published version and clears the pointer.
    method WithdrawRows(d: DocId, opId: OpId, key: Key, input: Input, conf: Confirmation)
      requires d in docs && conf.version in vers
      modifies `vers, `docs, `release, `ops
      ensures View() == WithdrawVersion(old(View()), d, opId, key, input, conf)
    {
      vers := vers[conf.version := vers[conf.version].(state := Disabled)];
      docs := docs[d := Document(None, docs[d].rowVersion + 1)];
      release := release + 1;
      ops := ops[opId := Operation(conf.actor, DISABLE, conf.version, conf.rev, key, input, conf, OpSucceeded,
                                   Some(conf.version), None)];
    }

    method Disable(cmd: DisableCommand, actor: Actor, scope: Scope, opId: OpId)
      returns (r: Result<DisableReceipt, Error>)
      requires Valid()
      modifies this
      ensures Valid()
      ensures View() == KnowledgeSteps.Disable(old(View()), cmd, actor, scope, opId).0
      ensures r == KnowledgeSteps.Disable(old(View()), cmd, actor, scope, opId).1
    {
      ghost var s := View();
      var t := cmd.target;
      PendingKeepsRows(s, t.doc);
      hide Inv, Monotone, DisableReceiptOf, KnowledgeSteps.InvalidatePending, WithdrawVersion, DisableSnapshot;
      DisableKeeps(s, cmd, actor, scope, opId);
      var previous := FindOperation(actor, DISABLE, cmd.key);
      if previous.Some? {
        r := DisableReceiptOf(View(), previous.value, scope, true);
        if r.Ok? && ops[previous.value].input != DisableInput(cmd) {
          r := Err(IdempotencyConflict);
        }
        return;
      }
      if !Visible(View(), t.doc, t.version, t.rev, scope) {
        return Err(NotFound);
      }
      var snapshot := DisableSnapshot(View(), t, actor);
      if snapshot.Err? {
        return Err(snapshot.error);
      }
      SnapshotFacts(s, t, actor);
      var conf := snapshot.value;
      if cmd.digest != conf {
        return Err(StaleConfirmation);
      }
      if docs[t.doc].rowVersion >= MAX_COUNTER || release >= MAX_COUNTER {
        return Err(CounterExhausted);
      }
      if opId in ops {
        return Err(Conflict);
      }
      InvalidatePending(t.doc);
      WithdrawRows(t.doc, opId, cmd.key, DisableInput(cmd), conf);
      WithdrawnStays(KnowledgeSteps.InvalidatePending(s, t.doc), t.doc, opId, cmd.key, DisableInput(cmd), conf);
      r := DisableReceiptOf(View(), opId, scope, false);
    }

    // --- Importing the catalog ---

    method InsertItemRows(c: ImportCall, i: nat)
      requires i < |c.plan|
      modifies `docs, `vers, `revs, `ops, `tasks, `gens, `chunks
      ensures View() == ImportVersion(old(View()), c, i)
    {
      var item := c.plan[i];
      var current := if item.active then Some(item.version) else if item.doc in docs then docs[item.doc].current
        else None;
      docs := docs[item.doc := Document(current, 1)];
      vers := vers[item.version := ImportedVersion(item)];
      revs := revs[RevKey(item.version, 1) := item.content];
      gens := gens[item.gen := ImportedGen(item, c)];
      chunks := chunks[item.gen := item.records];
      ops := ops[item.uploadOp := ImportOp(item, c, i, UPLOAD)][item.publishOp := ImportOp(item, c, i, PUBLISH)];
      tasks := tasks[item.parseTask := ImportedParse(item, c)][item.indexTask := ImportedIndex(item, c)];
    }

    method Import(c: ImportCall) returns (r: Result<bool, Error>)
      requires Valid() && PlanOk(c.plan)
      modifies this
      ensures Valid()
      ensures View() == KnowledgeSteps.Import(old(View()), c).0 && r == KnowledgeSteps.Import(old(View()), c).1
    {
      ghost var s := View();
      hide Inv, Monotone, PlanOk, ItemFresh, ImportVersion;
      ImportKeeps(s, c);
      if ImportReplayed(View(), c) {
        return if exists o :: o in ops && UsesImportKey(ops[o], c) && ops[o].input != ImportInput(c.cmd)
          then Err(IdempotencyConflict) else Ok(true);
      }
      var refusal := ImportRefusal(View(), c);
      if refusal.Some? {
        return Err(refusal.value);
      }
      for i := 0 to |c.plan|
        invariant View() == ImportVersions(s, c, i) && release == s.release
      {
        InsertItemRows(c, i);
      }
      catalog, release := Some(c.cmd.catalog), release + 1;
      r := Ok(false);
    }
  }

  lemma RefusalFacts(s: State, u: UploadCall)
    requires ValidCommand(u.cmd) && PlanMatches(u.cmd, u.plan)
    ensures UploadRefusal(s, u).None? ==>
            (u.plan.newDocument || u.plan.doc in s.docs) && (u.plan.newVersion || u.plan.version in s.vers)
  {
  }

  lemma StorableHasBody(outcome: ParseOutcome)
    requires StorableBody(outcome)
    ensures outcome.body.Some?
  {
  }

  lemma PublishFacts(s: State, p: PublishCall)
    ensures PublishCheck(s, p).Ok? ==> PublishCheck(s, p).value.1.doc in s.docs && p.index.Some?
  {
  }

  lemma RetryFacts(s: State, r: RetryCall)
    ensures r.index.Some? ==>
            var source := RetrySource(s, r.cmd.target, r.cmd.task, r.actor, r.scope, r.index.value, r.today);
                              source.Ok? ==> source.value.doc in s.docs && r.cmd.task in s.tasks
  {
  }

  lemma RetryOpStays(s: State, r: RetryCall, conf: Confirmation, hash: GenHash, attempt: nat)
    requires conf.doc in s.docs
    ensures r.op in InsertRetry(s, r, conf, hash, attempt).ops
  {
  }

  lemma SwitchedStays(s: State, opId: OpId, g: GenId)
    requires opId in s.ops && s.ops[opId].version in s.vers && s.vers[s.ops[opId].version].doc in s.docs
    ensures var s' := SwitchVersion(s, opId, g);
            opId in s'.ops && s'.ops[opId].version in s'.vers && s'.vers[s'.ops[opId].version].doc in s'.docs
  {
  }

  lemma SnapshotFacts(s: State, t: Target, actor: Actor)
    requires t.doc in s.docs && t.version in s.vers && RevKey(t.version, t.rev) in s.revs
    ensures DisableSnapshot(s, t, actor).Ok? ==> DisableSnapshot(s, t, actor).value.version == t.version
  {
  }

  lemma WithdrawnStays(s: State, d: DocId, opId: OpId, key: Key, input: Input, conf: Confirmation)
    requires d in s.docs && conf.version in s.vers
    ensures opId in WithdrawVersion(s, d, opId, key, input, conf).ops
  {
  }

  lemma PendingKeepsRows(s: State, d: DocId)
    ensures var s1 := KnowledgeSteps.InvalidatePending(s, d);
            s1.docs == s.docs && s1.vers == s.vers && s1.release == s.release && s1.ops.Keys == s.ops.Keys
  {
  }
}
