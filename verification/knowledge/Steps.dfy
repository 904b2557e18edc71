/** The transactions of the managed-knowledge repositories as atomic steps on the tables. */
module KnowledgeSteps {
  import opened Wrappers
  import opened Text
  import opened KnowledgeTypes
  import Chunker

  // --- Lookups ---

  predicate HasKey(ops: map<OpId, Operation>, o: OpId, actor: Actor, action: Action, key: Key) {
    o in ops && ops[o].actor == actor && ops[o].action == action && ops[o].key == key
  }

  ghost function FindOp(ops: map<OpId, Operation>, actor: Actor, action: Action, key: Key): (r: Option<OpId>)
    ensures r.Some? ==> HasKey(ops, r.value, actor, action, key)
    ensures r.None? ==> forall o :: !HasKey(ops, o, actor, action, key)
  {
    if exists o :: HasKey(ops, o, actor, action, key)
    then var o :| HasKey(ops, o, actor, action, key); Some(o) else None
  }

  predicate IsTaskOf(tasks: map<TaskId, Task>, t: TaskId, op: OpId, kind: TaskType) {
    t in tasks && tasks[t].op == op && tasks[t].kind == kind
  }

  ghost function TaskOf(tasks: map<TaskId, Task>, op: OpId, kind: TaskType): (r: Option<TaskId>)
    ensures r.Some? ==> IsTaskOf(tasks, r.value, op, kind)
    ensures r.None? ==> forall t :: !IsTaskOf(tasks, t, op, kind)
  {
    if exists t :: IsTaskOf(tasks, t, op, kind)
    then var t :| IsTaskOf(tasks, t, op, kind); Some(t) else None
  }

  // --- Ending work: the three ways a task, its operation and its generation fail together ---

  datatype Ending = Ending(task: TaskState, op: OpState, error: ErrorCode)

  const STALE_ENDING := Ending(TaskStale, OpStale, StaleInput)
  const INTERRUPTED_ENDING := Ending(Interrupted, OpFailed, ProcessingInterrupted)

  function EndingFor(error: ErrorCode): Ending {
    if error == StaleInput then STALE_ENDING
    else if error == ProcessingInterrupted then INTERRUPTED_ENDING
    else Ending(TaskFailed, OpFailed, error)
  }

  function EndTasks(tasks: map<TaskId, Task>, ts: set<TaskId>, e: Ending): map<TaskId, Task> {
    map t | t in tasks :: if t in ts then tasks[t].(state := e.task, error := Some(e.error)) else tasks[t]
  }

  function EndOps(ops: map<OpId, Operation>, os: set<OpId>, e: Ending): map<OpId, Operation> {
    map o | o in ops :: if o in os then ops[o].(state := e.op, error := Some(e.error)) else ops[o]
  }

  function EndGens(gens: map<GenId, Generation>, gs: set<GenId>, e: Ending): map<GenId, Generation> {
    map g | g in gens :: if g in gs then gens[g].(state := GenFailed, error := Some(e.error)) else gens[g]
  }

  function EndAll(s: State, ts: set<TaskId>, os: set<OpId>, gs: set<GenId>, e: Ending): State {
    s.(tasks := EndTasks(s.tasks, ts, e), ops := EndOps(s.ops, os, e), gens := EndGens(s.gens, gs, e))
  }

  function Bump(docs: map<DocId, Document>, d: DocId): map<DocId, Document>
    requires d in docs
  {
    docs[d := docs[d].(rowVersion := docs[d].rowVersion + 1)]
  }

  // --- Upload ---

  function CheckTarget(s: State, cmd: UploadCommand): Result<(Option<DocId>, Option<VerId>), Error> {
    if cmd.doc.None? then Ok((None, None))
    else if cmd.doc.value !in s.docs then Err(NotFound)
    else if s.docs[cmd.doc.value].rowVersion != cmd.expectedRow then Err(StaleDocument)
    else if cmd.version.Some? then
      var v := cmd.version.value;
      if v !in s.vers || s.vers[v].doc != cmd.doc.value then Err(NotFound)
      else if s.vers[v].state != Draft then Err(SealedVersion)
      else if s.vers[v].currentRev != cmd.expectedRev then Err(StaleRevision)
      else if s.vers[v].spec != cmd.meta.spec then Err(SpecConflict)
      else Ok((cmd.doc, cmd.version))
    else if exists v :: v in s.vers && s.vers[v].doc == cmd.doc.value && s.vers[v].spec == cmd.meta.spec
      then Err(SpecConflict)
    else Ok((cmd.doc, None))
  }

  /** The plan read before the original file is stored; the two new identities are supplied by the caller. */
  function PlanUpload(s: State, cmd: UploadCommand, newDoc: DocId, newVersion: VerId): Result<UploadPlan, Error> {
    var target := CheckTarget(s, cmd);
    if target.Err? then Err(target.error)
    else
      var (d, v) := target.value;
      Ok(UploadPlan(
        if d.Some? then d.value else newDoc,
        if v.Some? then v.value else newVersion,
        if v.Some? && v.value in s.vers then s.vers[v.value].currentRev + 1 else 1,
        if d.Some? && d.value in s.docs then s.docs[d.value].rowVersion else 0,
        if d.Some? && d.value in s.docs then s.docs[d.value].current else None,
        d.None?,
        v.None?))
  }

  /** What every plan for a command satisfies, whatever the state it was read in. */
  predicate PlanMatches(cmd: UploadCommand, plan: UploadPlan) {
    if cmd.doc.None? then plan.newDocument && plan.newVersion && plan.rev == 1 && plan.row == 0
    else
      && !plan.newDocument && plan.doc == cmd.doc.value && plan.row == cmd.expectedRow
      && if cmd.version.None? then plan.newVersion && plan.rev == 1
         else !plan.newVersion && plan.version == cmd.version.value && plan.rev == cmd.expectedRev + 1
  }

  // The command schema: a version target needs a document target.
  predicate ValidCommand(cmd: UploadCommand) {
    cmd.version.Some? ==> cmd.doc.Some?
  }

  function UploadRefusal(s: State, u: UploadCall): Option<Error> {
    var plan := u.plan;
    var target := CheckTarget(s, u.cmd);
    if target.Err? then Some(target.error)
    else
      var (d, v) := target.value;
      if d.Some? && (d.value !in s.docs || s.docs[d.value].rowVersion != plan.row) then Some(StaleDocument)
      else if plan.newDocument && plan.doc in s.docs then Some(Conflict)
      else if !plan.newDocument && plan.doc !in s.docs then Some(Conflict)
      else if plan.newVersion && plan.version in s.vers then Some(Conflict)
      else if !plan.newVersion && (v.None? || v.value !in s.vers || s.vers[v.value].currentRev + 1 != plan.rev)
        then Some(StaleRevision)
      else if RevKey(plan.version, plan.rev) in s.revs || u.op in s.ops || u.task in s.tasks then Some(Conflict)
      else if plan.doc in s.docs && s.docs[plan.doc].rowVersion >= MAX_COUNTER then Some(Unavailable)
      else None
  }

  function ActiveTasksOn(s: State, v: VerId): set<TaskId> {
    set t | t in s.tasks && s.tasks[t].version == v && ActiveTask(s.tasks[t])
  }

  function ActiveOpsOn(s: State, v: VerId): set<OpId> {
    set o | o in s.ops && s.ops[o].version == v && ActiveOp(s.ops[o])
  }

  function BuildingOn(s: State, v: VerId): set<GenId> {
    set g | g in s.gens && s.gens[g].version == v && s.gens[g].state == Building
  }

  // A revision makes every piece of work on the same version stale.
  function EndVersion(s: State, v: VerId): State {
    EndAll(s, ActiveTasksOn(s, v), ActiveOpsOn(s, v), BuildingOn(s, v), STALE_ENDING)
  }

  function UploadConfirmation(u: UploadCall): Confirmation {
    Confirmation(u.actor, UPLOAD, u.plan.doc, u.plan.version, u.plan.rev, u.raw, None, u.cmd.meta, u.plan.row,
                 u.plan.previous, None, None)
  }

  function UploadOp(u: UploadCall): Operation {
    Operation(u.actor, UPLOAD, u.plan.version, u.plan.rev, u.cmd.key, UploadInput(u.cmd, u.raw), UploadConfirmation(u),
              OpSucceeded, Some(u.plan.version), None)
  }

  function UploadTask(u: UploadCall): Task {
    Task(u.op, UPLOAD, u.plan.version, u.plan.rev, PARSE, None, Queued, u.owner, 1, None, None)
  }

  function UploadDocs(docs: map<DocId, Document>, plan: UploadPlan): map<DocId, Document>
    requires plan.newDocument || plan.doc in docs
  {
    if plan.newDocument then docs[plan.doc := Document(None, 1)] else Bump(docs, plan.doc)
  }

  function UploadVersions(vers: map<VerId, Version>, u: UploadCall): map<VerId, Version>
    requires u.plan.newVersion || u.plan.version in vers
  {
    if u.plan.newVersion then
      vers[u.plan.version := Version(u.plan.doc, u.cmd.meta.spec, Uploaded, 1, Draft, None, None)]
    else vers[u.plan.version := vers[u.plan.version].(currentRev := u.plan.rev)]
  }

  function InsertUpload(s: State, u: UploadCall): State
    requires u.plan.newDocument || u.plan.doc in s.docs
    requires u.plan.newVersion || u.plan.version in s.vers
  {
    s.(docs := UploadDocs(s.docs, u.plan),
       vers := UploadVersions(s.vers, u),
       revs := s.revs[RevKey(u.plan.version, u.plan.rev) := Revision(u.raw, u.format, u.cmd.meta, None)],
       ops := s.ops[u.op := UploadOp(u)],
       tasks := s.tasks[u.task := UploadTask(u)])
  }

  // The receipts are read back from the tables, through the task found for the operation.
  ghost function UploadResult(s: State, opId: OpId, replayed: bool): Result<UploadReceipt, Error> {
    UploadReceiptOf(s, opId, TaskOf(s.tasks, opId, PARSE), replayed)
  }

  function UploadReceiptOf(s: State, opId: OpId, task: Option<TaskId>, replayed: bool): Result<UploadReceipt, Error>
    requires task.Some? ==> task.value in s.tasks
  {
    if task.None? || s.tasks[task.value].version !in s.vers || s.vers[s.tasks[task.value].version].doc !in s.docs
      then Err(DataInvalid)
    else
      var t := s.tasks[task.value];
      var v := s.vers[t.version];
      Ok(UploadReceipt(v.doc, t.version, t.rev, opId, task.value, s.docs[v.doc].rowVersion, t.state,
                       v.currentRev == t.rev, replayed))
  }

  ghost function AcceptUpload(s: State, u: UploadCall): (State, Result<UploadReceipt, Error>)
    requires ValidCommand(u.cmd) && PlanMatches(u.cmd, u.plan)
  {
    var previous := FindOp(s.ops, u.actor, UPLOAD, u.cmd.key);
    if previous.Some? then
      (s, if s.ops[previous.value].input != UploadInput(u.cmd, u.raw) then Err(IdempotencyConflict)
          else UploadResult(s, previous.value, true))
    else
      var refusal := UploadRefusal(s, u);
      if refusal.Some? then (s, Err(refusal.value))
      else
        var s1 := if u.plan.newVersion then s else EndVersion(s, u.plan.version);
        var s2 := InsertUpload(s1, u);
        (s2, UploadResult(s2, u.op, false))
  }

  // --- Parsing ---

  function ReadRevision(s: State, v: VerId, rev: nat): RevisionRead
    requires v in s.vers && s.vers[v].doc in s.docs && RevKey(v, rev) in s.revs
  {
    var row := s.vers[v];
    RevisionRead(row.doc, Citation(v, row), s.docs[row.doc].rowVersion, row.currentRev, row.state, RevKey(v, rev),
                 s.revs[RevKey(v, rev)])
  }

  // The rows of a parse task, when all of them exist.
  predicate ParseRows(s: State, t: TaskId) {
    && t in s.tasks && s.tasks[t].kind == PARSE
    && s.tasks[t].version in s.vers && s.vers[s.tasks[t].version].doc in s.docs
    && RevKey(s.tasks[t].version, s.tasks[t].rev) in s.revs
  }

  // Only the current revision of a draft whose body is still unwritten may be parsed.
  predicate Parseable(s: State, t: Task)
    requires t.version in s.vers && RevKey(t.version, t.rev) in s.revs
  {
    s.vers[t.version].state == Draft && s.vers[t.version].currentRev == t.rev
      && s.revs[RevKey(t.version, t.rev)].body.None?
  }

  function SetTask(s: State, t: TaskId, state: TaskState, error: Option<ErrorCode>): State
    requires t in s.tasks
  {
    s.(tasks := s.tasks[t := s.tasks[t].(state := state, error := error)])
  }

  function ClaimParse(s: State, t: TaskId, owner: Owner): (State, Option<RevisionRead>) {
    if !ParseRows(s, t) || s.tasks[t].state != Queued || s.tasks[t].owner != owner then (s, None)
    else if !Parseable(s, s.tasks[t]) then (SetTask(s, t, TaskStale, Some(StaleInput)), None)
    else (SetTask(s, t, Running, None), Some(ReadRevision(s, s.tasks[t].version, s.tasks[t].rev)))
  }

  datatype ParseOutcome = ParseOutcome(body: Option<string>, hash: Option<string>, error: Option<ErrorCode>)

  predicate StorableBody(outcome: ParseOutcome) {
    outcome.body.Some? && outcome.hash == outcome.body && Chunker.IsNormalized(outcome.body.value)
  }

  function StoreBody(s: State, t: TaskId, body: string): State
    requires ParseRows(s, t)
  {
    var key := RevKey(s.tasks[t].version, s.tasks[t].rev);
    SetTask(s.(revs := s.revs[key := s.revs[key].(body := Some(body))]), t, TaskSucceeded, None)
  }

  function FinishParse(s: State, t: TaskId, owner: Owner, outcome: ParseOutcome): (State, Result<bool, Error>) {
    if !ParseRows(s, t) || s.tasks[t].owner != owner || s.tasks[t].state != Running then (s, Ok(false))
    else if !Parseable(s, s.tasks[t]) then (SetTask(s, t, TaskStale, Some(StaleInput)), Ok(false))
    else if outcome.error.Some? then
      if outcome.error != Some(ParseFailed) && outcome.error != Some(StorageError) then (s, Err(ParseResultInvalid))
      else (SetTask(s, t, TaskFailed, outcome.error), Ok(false))
    else if !StorableBody(outcome) then (s, Err(ParseResultInvalid))
    else (StoreBody(s, t, outcome.body.value), Ok(true))
  }

  // --- Publication acceptance ---

  predicate Visible(s: State, d: DocId, v: VerId, rev: nat, scope: Scope) {
    && d in s.docs && v in s.vers && s.vers[v].doc == d
    && RevKey(v, rev) in s.revs && s.revs[RevKey(v, rev)].meta.scope == scope
  }

  predicate Parsed(tasks: map<TaskId, Task>, v: VerId, rev: nat) {
    exists t :: t in tasks && tasks[t].version == v && tasks[t].rev == rev && tasks[t].kind == PARSE
      && tasks[t].state == TaskSucceeded
  }

  function PublicationCandidate(s: State, d: DocId, v: VerId, rev: nat, scope: Scope, today: int)
    : Result<PublicationRead, Error>
  {
    if !Visible(s, d, v, rev, scope) then Err(NotFound)
    else Ok(PublicationRead(ReadRevision(s, v, rev), s.docs[d].current, s.vers[v].spec, Parsed(s.tasks, v, rev), today))
  }

  /** The rules a candidate must meet, in their order, and the confirmation it yields. */
  function PublicationConfirmation(record: PublicationRead, target: Target, actor: Actor)
    : (r: Result<Confirmation, Error>)
    ensures r.Ok? ==> ValidConfirmation(r.value)
  {
    var read := record.revision;
    var content := read.content;
    if read.state != Draft then Err(RequiresDraft)
    else if read.row != target.row then Err(StaleDocument)
    else if read.currentRev != target.rev then Err(StaleRevision)
    else if record.previous == Some(target.version) || record.spec != content.meta.spec then Err(DataInvalid)
    else if !record.parsed || content.body.None? then Err(ParseNotReady)
    else if content.meta.effective > record.today then Err(NotEffective)
    else if content.meta.expiry.Some? && content.meta.expiry.value < record.today then Err(Expired)
    else Ok(Confirmation(actor, PUBLISH, target.doc, target.version, target.rev, content.raw, content.body,
                         content.meta, read.row, record.previous, None, None))
  }

  predicate PendingOn(s: State, d: DocId) {
    exists o :: o in s.ops && ActiveOp(s.ops[o]) && s.ops[o].version in s.vers && s.vers[s.ops[o].version].doc == d
  }

  // A READY generation that can be reused for the same input and the same index.
  predicate Reusable(gens: map<GenId, Generation>, g: GenId, v: VerId, rev: nat, hash: GenHash, index: Index) {
    g in gens && gens[g].version == v && gens[g].rev == rev && gens[g].state == Ready && gens[g].input == hash
      && gens[g].index == index
  }

  predicate Earlier(gens: map<GenId, Generation>, a: GenId, b: GenId)
    requires a in gens && b in gens
  {
    gens[a].created < gens[b].created || (gens[a].created == gens[b].created && a <= b)
  }

  ghost predicate IsFirstReusable(gens: map<GenId, Generation>, g: GenId, v: VerId, rev: nat, hash: GenHash,
                                  index: Index)
  {
    Reusable(gens, g, v, rev, hash, index)
    && forall h :: Reusable(gens, h, v, rev, hash, index) ==> Earlier(gens, g, h)
  }

  /** The earliest reusable generation, ordered by creation and then by identity. */
  ghost function FirstReusable(gens: map<GenId, Generation>, v: VerId, rev: nat, hash: GenHash, index: Index)
    : (r: Option<GenId>)
    ensures r.Some? ==> IsFirstReusable(gens, r.value, v, rev, hash, index)
  {
    if exists g :: IsFirstReusable(gens, g, v, rev, hash, index)
    then var g :| IsFirstReusable(gens, g, v, rev, hash, index); Some(g) else None
  }

  // The row of a build operation; its confirmation names the generation it reserves.
  function BuildOp(key: Key, input: Input, conf: Confirmation): Operation {
    Operation(conf.actor, conf.action, conf.version, conf.rev, key, input, conf, OpConfirmed, None, None)
  }

  // A build operation is inserted together with the reservation of the document counter.
  function InsertOp(s: State, opId: OpId, row: Operation): State
    requires row.conf.doc in s.docs
  {
    s.(ops := s.ops[opId := row], docs := Bump(s.docs, row.conf.doc))
  }

  function BuildGen(conf: Confirmation, hash: GenHash, now: nat): Generation {
    Generation(conf.version, conf.rev, hash.index, hash, Generated, now, Building, 0, None)
  }

  function BuildTask(opId: OpId, conf: Confirmation, owner: Owner, attempt: nat): Task {
    Task(opId, conf.action, conf.version, conf.rev, INDEX, conf.gen, Queued, owner, attempt, conf.task, None)
  }

  // The BUILDING generation and QUEUED task of an operation that must build its index.
  function InsertBuild(s: State, genId: GenId, gen: Generation, taskId: TaskId, task: Task): State {
    s.(gens := s.gens[genId := gen], tasks := s.tasks[taskId := task])
  }

  ghost function PublicationResult(s: State, opId: OpId, scope: Scope, replayed: bool): Result<PublishReceipt, Error>
    requires opId in s.ops
  {
    PublishReceiptOf(s, opId, TaskOf(s.tasks, opId, INDEX), scope, replayed)
  }

  function PublishReceiptOf(s: State, opId: OpId, task: Option<TaskId>, scope: Scope, replayed: bool)
    : Result<PublishReceipt, Error>
    requires opId in s.ops && (task.Some? ==> task.value in s.tasks)
  {
    var o := s.ops[opId];
    if !(RevKey(o.version, o.rev) in s.revs && s.revs[RevKey(o.version, o.rev)].meta.scope == scope
         && o.version in s.vers) then Err(NotFound)
    else
      var c := o.conf;
      if !ValidConfirmation(c) || c.gen.None? || c.action != PUBLISH || c.actor != o.actor || c.version != o.version
         || c.rev != o.rev
         || c.doc != s.vers[o.version].doc then Err(DataInvalid)
      else if c.gen.value !in s.gens || s.gens[c.gen.value].version != o.version || s.gens[c.gen.value].rev != o.rev
              || (task.Some? && s.tasks[task.value].gen != c.gen) then Err(DataInvalid)
      else if s.gens[c.gen.value].state == Building && task.None? then Err(DataInvalid)
      else Ok(PublishReceipt(c.doc, o.version, o.rev, opId, o.state, c.gen.value, s.gens[c.gen.value].state, task,
                             c.expectedRow + 1, replayed))
  }

  // The candidate and its confirmation, or the reason for refusing a publication, in the order of the checks.
  function PublishCheck(s: State, p: PublishCall): Result<(PublicationRead, Confirmation), Error> {
    var t := p.cmd.target;
    var record := PublicationCandidate(s, t.doc, t.version, t.rev, p.scope, p.today);
    if record.Err? then Err(record.error) else
    var conf := PublicationConfirmation(record.value, t, p.actor);
    if conf.Err? then Err(conf.error)
    else if p.cmd.digest != conf.value then Err(StaleConfirmation)
    else if s.docs[t.doc].rowVersion >= MAX_COUNTER then Err(CounterExhausted)
    else if PendingOn(s, t.doc) then Err(InProgress)
    else if p.index.None? then Err(IndexNotConfigured)
    else Ok((record.value, conf.value))
  }

  function InsertPublication(s: State, p: PublishCall, conf: Confirmation, hash: GenHash, ready: Option<GenId>): State
    requires conf.doc in s.docs
  {
    var stored := conf.(gen := Some(if ready.Some? then ready.value else p.gen));
    var s1 := InsertOp(s, p.op, BuildOp(p.cmd.key, PublishInput(p.cmd), stored));
    if ready.Some? then s1
    else InsertBuild(s1, p.gen, BuildGen(stored, hash, p.now), p.task, BuildTask(p.op, stored, p.owner, 1))
  }

  ghost function AcceptPublication(s: State, p: PublishCall): (State, Result<PublishReceipt, Error>) {
    var previous := FindOp(s.ops, p.actor, PUBLISH, p.cmd.key);
    if previous.Some? then
      var result := PublicationResult(s, previous.value, p.scope, true);
      (s, if result.Err? then result
          else if s.ops[previous.value].input != PublishInput(p.cmd) then Err(IdempotencyConflict)
          else result)
    else
      var check := PublishCheck(s, p);
      if check.Err? then (s, Err(check.error))
      else
        var (record, conf) := check.value;
        var hash := HashOf(conf.version, conf.rev, record.revision.citation, record.revision.content, p.index.value);
        var ready := FirstReusable(s.gens, conf.version, conf.rev, hash, p.index.value);
        if p.op in s.ops || (ready.None? && (p.gen in s.gens || p.task in s.tasks)) then (s, Err(Conflict))
        else
          var s' := InsertPublication(s, p, conf, hash, ready);
          (s', PublicationResult(s', p.op, p.scope, false))
  }

  // --- Index building ---

  predicate IndexRows(s: State, t: TaskId, actor: Actor, action: Action) {
    && t in s.tasks && s.tasks[t].kind == INDEX && s.tasks[t].action == action && s.tasks[t].gen.Some?
    && s.tasks[t].op in s.ops && s.ops[s.tasks[t].op].actor == actor && s.tasks[t].gen.value in s.gens
  }

  // What the retry of a task still demands of the task it retries.
  predicate ParentOk(tasks: map<TaskId, Task>, t: Task) {
    && t.retryOf.Some? && t.retryOf.value in tasks
    && var parent := tasks[t.retryOf.value];
       (parent.state == TaskFailed || parent.state == Interrupted) && parent.kind == INDEX
       && t.attempt == parent.attempt + 1 && parent.version == t.version && parent.rev == t.rev
  }

  /** The re-check inside every claim and every save: confirmation, counter fence, index identity, empty generation. */
  function CheckInput(s: State, t: TaskId, actor: Actor, scope: Scope, index: Index, action: Action, today: int)
    : Result<PublicationRead, Error>
    requires IndexRows(s, t, actor, action)
  {
    var task := s.tasks[t];
    var conf := s.ops[task.op].conf;
    var gen := s.gens[task.gen.value];
    if !ValidConfirmation(conf) then Err(DataInvalid) else
    var record := PublicationCandidate(s, conf.doc, task.version, task.rev, scope, today);
    if record.Err? then Err(record.error) else
    var rebuilt := PublicationConfirmation(record.value, Target(conf.doc, task.version, task.rev, conf.expectedRow + 1),
                                           s.ops[task.op].actor);
    if rebuilt.Err? then Err(rebuilt.error)
    else if action == RETRY_INDEX && !ParentOk(s.tasks, task) then Err(DataInvalid)
    else
      var expected := rebuilt.value.(expectedRow := conf.expectedRow, gen := task.gen, action := action,
                                   task := if action == RETRY_INDEX then task.retryOf else None);
      if conf != expected || gen.index != index
         || gen.input != HashOf(task.version, task.rev, record.value.revision.citation, record.value.revision.content,
                                index)
         || gen.version != task.version || gen.rev != task.rev then Err(DataInvalid)
      else if gen.built != Generated || gen.chunkCount != 0 || task.gen.value in s.chunks then Err(DataInvalid)
      else Ok(record.value)
  }

  function InputError(error: Error): ErrorCode {
    if error == DataInvalid then IndexValidationFailed else StaleInput
  }

  function Terminate(s: State, t: TaskId, error: ErrorCode): State
    requires t in s.tasks && s.tasks[t].gen.Some?
  {
    EndAll(s, {t}, {s.tasks[t].op}, {s.tasks[t].gen.value}, EndingFor(error))
  }

  predicate Claimable(s: State, t: TaskId, owner: Owner, taskState: TaskState, opState: OpState)
    requires t in s.tasks && s.tasks[t].op in s.ops && s.tasks[t].gen.Some? && s.tasks[t].gen.value in s.gens
  {
    && s.tasks[t].owner == owner && s.tasks[t].state == taskState && s.ops[s.tasks[t].op].state == opState
    && s.gens[s.tasks[t].gen.value].state == Building
  }

  function StartBuild(s: State, t: TaskId): State
    requires t in s.tasks && s.tasks[t].op in s.ops
  {
    s.(tasks := s.tasks[t := s.tasks[t].(state := Running)],
       ops := s.ops[s.tasks[t].op := s.ops[s.tasks[t].op].(state := OpExecuting)])
  }

  function ClaimIndex(s: State, t: TaskId, actor: Actor, scope: Scope, owner: Owner, index: Index, action: Action,
                      today: int)
    : (State, Option<Claim>)
  {
    if !IndexRows(s, t, actor, action) || !Claimable(s, t, owner, Queued, OpConfirmed) then (s, None)
    else
      var record := CheckInput(s, t, actor, scope, index, action, today);
      if record.Err? then (Terminate(s, t, InputError(record.error)), None)
      else (StartBuild(s, t), Some(Claim(t, s.tasks[t].gen.value, actor, record.value, index)))
  }

  function FailIndex(s: State, t: TaskId, actor: Actor, owner: Owner, error: ErrorCode, action: Action): (State, bool) {
    if !IndexRows(s, t, actor, action) || !Claimable(s, t, owner, Running, OpExecuting) then (s, false)
    else (Terminate(s, t, error), true)
  }

  // The chunk record schema: the part about the chunk, which its text decides, and the part about the vector.
  predicate ValidChunk(chunk: Chunker.Chunk) {
    && 1 <= |chunk.path| <= 16 && (forall p :: p in chunk.path ==> 1 <= |p| <= 128)
    && Strip(chunk.content) != []
  }

  predicate ValidRecord(r: Record) {
    ValidChunk(r.chunk) && |r.vector| == 1536 && exists x :: x in r.vector && x != 0.0
  }

  predicate AllValid(records: seq<Record>) {
    forall r :: r in records ==> ValidRecord(r)
  }

  /** The records are exactly the chunks of the body, in order, each bound to the generation. */
  predicate Evidence(citation: nat, content: Revision, g: GenId, records: seq<Record>) {
    && content.body.Some? && Chunker.Normalize(content.body.value) == content.body.value
    && var parsed := Chunker.ParseRevision(citation, content.meta.title, content.format, content.body.value);
       && parsed.Some? && |records| == |parsed.value|
       && forall i :: 0 <= i < |records| ==> records[i].gen == g && records[i].chunk == parsed.value[i]
  }

  // The check made outside every transaction, before a build is saved and before a publication is committed.
  predicate ValidEvidence(citation: nat, content: Revision, g: GenId, records: seq<Record>) {
    Evidence(citation, content, g, records) && AllValid(records)
  }

  // Before saving it runs on the claim's own copy of the body.
  predicate ValidRecords(claim: Claim, records: seq<Record>) {
    ValidEvidence(claim.record.revision.citation, claim.record.revision.content, claim.gen, records)
  }

  predicate WellNumbered(records: seq<Record>, g: GenId) {
    && records != []
    && (forall i :: 0 <= i < |records| ==> records[i].gen == g && records[i].chunk.index == i)
    && (forall i, j :: 0 <= i < j < |records| ==> records[i].chunk.id != records[j].chunk.id)
  }

  function CompleteBuild(s: State, t: TaskId, records: seq<Record>): State
    requires t in s.tasks && s.tasks[t].op in s.ops && s.tasks[t].gen.Some? && s.tasks[t].gen.value in s.gens
  {
    var task := s.tasks[t];
    var g := task.gen.value;
    s.(chunks := s.chunks[g := records],
       gens := s.gens[g := s.gens[g].(state := Ready, chunkCount := |records|)],
       tasks := s.tasks[t := task.(state := TaskSucceeded)],
       ops := if task.action == RETRY_INDEX
              then s.ops[task.op := s.ops[task.op].(state := OpSucceeded, result := Some(g))] else s.ops)
  }

  ghost function FinishIndex(s: State, claim: Claim, records: seq<Record>, scope: Scope, owner: Owner, action: Action,
                             today: int)
    : (State, bool)
  {
    var t := claim.task;
    if !ValidRecords(claim, records) then (FailIndex(s, t, claim.actor, owner, IndexValidationFailed, action).0, false)
    else if !IndexRows(s, t, claim.actor, action) || !Claimable(s, t, owner, Running, OpExecuting)
      || s.tasks[t].gen.value != claim.gen then (s, false)
    else
      var record := CheckInput(s, t, claim.actor, scope, claim.index, action, today);
      if record.Err? then (Terminate(s, t, InputError(record.error)), false)
      else if record.value.revision != claim.record.revision || record.value.previous != claim.record.previous
        then (Terminate(s, t, StaleInput), false)
      else if !WellNumbered(records, claim.gen) then (Terminate(s, t, IndexValidationFailed), false)
      else (CompleteBuild(s, t, records), true)
  }

  // --- Finalization ---

  predicate FinalRows(s: State, opId: OpId, actor: Actor, scope: Scope) {
    && opId in s.ops && s.ops[opId].actor == actor && s.ops[opId].action == PUBLISH
    && RevKey(s.ops[opId].version, s.ops[opId].rev) in s.revs
    && s.revs[RevKey(s.ops[opId].version, s.ops[opId].rev)].meta.scope == scope
    && s.ops[opId].version in s.vers && s.vers[s.ops[opId].version].doc in s.docs
  }

  predicate ConfirmationMatches(o: Operation, d: DocId) {
    var c := o.conf;
    ValidConfirmation(c) && c.actor == o.actor && c.action == PUBLISH && c.doc == d && c.version == o.version
      && c.rev == o.rev && c.gen.Some?
  }

  function FinalReceiptOf(s: State, opId: OpId, replayed: bool): Result<FinalReceipt, Error>
    requires opId in s.ops && s.ops[opId].version in s.vers && s.vers[s.ops[opId].version].doc in s.docs
  {
    var o := s.ops[opId];
    var v := s.vers[o.version];
    var isCurrent := s.docs[v.doc].current == Some(o.version);
    if !ConfirmationMatches(o, v.doc) || o.state != OpSucceeded || o.result != Some(o.version)
       || v.publishedRev != Some(o.conf.rev) || v.publishedGen != o.conf.gen then Err(DataInvalid)
    else if v.state == Draft || v.state == Historical || isCurrent != (v.state == Published) then Err(DataInvalid)
    else Ok(FinalReceipt(opId, v.doc, o.version, o.conf.rev, o.conf.gen.value, o.conf.previous, v.state, isCurrent,
                         s.docs[v.doc].rowVersion, s.release, replayed))
  }

  ghost function Prepared(s: State, opId: OpId, scope: Scope, today: int): Result<FinalizeRead, Error>
    requires opId in s.ops && s.ops[opId].version in s.vers && s.vers[s.ops[opId].version].doc in s.docs
  {
    FinalizeReadOf(s, opId, TaskOf(s.tasks, opId, INDEX), scope, today)
  }

  /** The re-check of operation, generation, task, confirmation and evidence before a finalization. */
  function FinalizeReadOf(s: State, opId: OpId, task: Option<TaskId>, scope: Scope, today: int)
    : Result<FinalizeRead, Error>
    requires opId in s.ops && s.ops[opId].version in s.vers && s.vers[s.ops[opId].version].doc in s.docs
    requires task.Some? ==> task.value in s.tasks
  {
    var o := s.ops[opId];
    var d := s.vers[o.version].doc;
    var c := o.conf;
    if o.state != OpConfirmed && o.state != OpExecuting then Err(NotActive)
    else if !ConfirmationMatches(o, d) || c.gen.value !in s.gens then Err(DataInvalid)
    else
      var gen := s.gens[c.gen.value];
      if gen.state != Ready || (task.Some? && s.tasks[task.value].state != TaskSucceeded) then Err(IndexNotReady)
      else if o.state != (if task.Some? then OpExecuting else OpConfirmed) then Err(DataInvalid)
      else if task.Some? && (s.tasks[task.value].gen != c.gen || s.tasks[task.value].action != PUBLISH
                             || s.tasks[task.value].version != c.version || s.tasks[task.value].rev != c.rev)
        then Err(DataInvalid)
      else
        var record := PublicationCandidate(s, d, o.version, o.rev, scope, today);
        if record.Err? then Err(record.error) else
        var rebuilt := PublicationConfirmation(record.value, Target(d, o.version, o.rev, c.expectedRow + 1), o.actor);
        if rebuilt.Err? then Err(rebuilt.error)
        else if rebuilt.value.(expectedRow := c.expectedRow, gen := c.gen) != c then Err(StaleConfirmation)
        else if gen.version != c.version || gen.rev != c.rev
                || gen.input != HashOf(c.version, c.rev, record.value.revision.citation, record.value.revision.content,
                                       gen.index)
                || c.gen.value !in s.chunks || gen.chunkCount != |s.chunks[c.gen.value]|
                || !AllValid(s.chunks[c.gen.value]) then Err(DataInvalid)
        else Ok(FinalizeRead(opId, c, record.value, c.gen.value, gen, s.chunks[c.gen.value]))
  }

  /** The service's check of a prepared publication: the configured index built it, and its stored evidence is whole. */
  predicate Accepts(configured: Index, read: FinalizeRead) {
    && read.gen.index == configured
    && ValidEvidence(read.record.revision.citation, read.record.revision.content, read.genId, read.chunks)
  }

  datatype Preparation = AlreadyPublished(receipt: FinalReceipt) | Reviewable(read: FinalizeRead)

  ghost function PrepareFinalization(s: State, opId: OpId, actor: Actor, scope: Scope, today: int)
    : Result<Preparation, Error>
  {
    if !FinalRows(s, opId, actor, scope) then Err(NotFound)
    else if s.ops[opId].state == OpSucceeded then
      var receipt := FinalReceiptOf(s, opId, true);
      if receipt.Err? then Err(receipt.error) else Ok(AlreadyPublished(receipt.value))
    else
      var read := Prepared(s, opId, scope, today);
      if read.Err? then Err(read.error) else Ok(Reviewable(read.value))
  }

  function PublishedOf(vers: map<VerId, Version>, d: DocId): set<VerId> {
    set v | v in vers && vers[v].doc == d && vers[v].state == Published
  }

  function Supersede(vers: map<VerId, Version>, d: DocId): map<VerId, Version> {
    map v | v in vers :: if vers[v].doc == d && vers[v].state == Published then vers[v].(state := Superseded)
      else vers[v]
  }

  function SwitchVersion(s: State, opId: OpId, g: GenId): State
    requires opId in s.ops && s.ops[opId].version in s.vers && s.vers[s.ops[opId].version].doc in s.docs
  {
    var o := s.ops[opId];
    var d := s.vers[o.version].doc;
    var vers := Supersede(s.vers, d);
    s.(vers := vers[o.version :=
                    vers[o.version].(state := Published, publishedRev := Some(o.rev), publishedGen := Some(g))],
       docs := s.docs[d := Document(Some(o.version), s.docs[d].rowVersion + 1)],
       release := s.release + 1,
       ops := s.ops[opId := o.(state := OpSucceeded, result := Some(o.version))])
  }

  ghost function CommitFinalization(s: State, opId: OpId, fingerprint: Fingerprint, actor: Actor, scope: Scope,
                                    today: int)
    : (State, Result<FinalReceipt, Error>)
  {
    if !FinalRows(s, opId, actor, scope) then (s, Err(NotFound))
    else if s.ops[opId].state == OpSucceeded then (s, FinalReceiptOf(s, opId, true))
    else
      var read := Prepared(s, opId, scope, today);
      var d := s.vers[s.ops[opId].version].doc;
      if read.Err? then (s, Err(read.error))
      else if Fingerprint(read.value.conf, read.value.gen, read.value.chunks) != fingerprint
        then (s, Err(StaleConfirmation))
      else if s.docs[d].rowVersion >= MAX_COUNTER || s.release >= MAX_COUNTER then (s, Err(CounterExhausted))
      else if PublishedOf(s.vers, d) != (if read.value.conf.previous.Some? then {read.value.conf.previous.value}
                                         else {}) then (s, Err(DataInvalid))
      else
        var s1 := SwitchVersion(s, opId, read.value.genId);
        (s1, FinalReceiptOf(s1, opId, false))
  }

  // Ends an unfinished operation whose evidence failed; its task is left alone.
  function RejectFinalization(s: State, opId: OpId, actor: Actor, scope: Scope, stale: bool): State {
    if FinalRows(s, opId, actor, scope) && (s.ops[opId].state == OpConfirmed || s.ops[opId].state == OpExecuting) then
      s.(ops := s.ops[opId := s.ops[opId].(state := if stale then OpStale else OpFailed,
                                           error := Some(if stale then StaleInput else IndexValidationFailed))])
    else s
  }

  // --- Disabling ---

  function DisableSnapshot(s: State, t: Target, actor: Actor): Result<Confirmation, Error>
    requires t.doc in s.docs && t.version in s.vers && RevKey(t.version, t.rev) in s.revs
  {
    var v := s.vers[t.version];
    var content := s.revs[RevKey(t.version, t.rev)];
    if v.state != Published || s.docs[t.doc].current != Some(t.version) then Err(NotCurrentPublished)
    else if s.docs[t.doc].rowVersion != t.row then Err(StaleDocument)
    else if v.publishedRev != Some(t.rev) || v.currentRev != t.rev then Err(StaleRevision)
    else if content.meta.spec != v.spec || v.publishedGen.None? || content.body.None? then Err(DataInvalid)
    else Ok(Confirmation(actor, DISABLE, t.doc, t.version, t.rev, content.raw, content.body, content.meta, t.row,
                         Some(t.version), None, v.publishedGen))
  }

  function DisableReceiptOf(s: State, opId: OpId, scope: Scope, replayed: bool): Result<DisableReceipt, Error>
    requires opId in s.ops
  {
    var o := s.ops[opId];
    var c := o.conf;
    if !ValidConfirmation(c) || o.version !in s.vers || c.actor != o.actor || c.action != DISABLE
       || c.version != o.version || c.rev != o.rev
       || c.doc != s.vers[o.version].doc || o.state != OpSucceeded || o.result != Some(o.version) then Err(DataInvalid)
    else if !Visible(s, c.doc, o.version, o.rev, scope) then Err(NotFound)
    else
      var v := s.vers[o.version];
      if v.state != Disabled || v.publishedGen != c.gen || v.publishedRev != Some(c.rev) then Err(DataInvalid)
      else if s.docs[c.doc].current == Some(o.version) then Err(DataInvalid)
      else Ok(DisableReceipt(opId, c.doc, o.version, o.rev, c.gen, s.docs[c.doc].current, s.docs[c.doc].rowVersion,
                             s.release, replayed))
  }

  function PendingOps(s: State, d: DocId): set<OpId> {
    set o | o in s.ops && ActiveOp(s.ops[o]) && s.ops[o].version in s.vers && s.vers[s.ops[o].version].doc == d
  }

  // The work of the pending operations of a document.
  function PendingTasks(s: State, os: set<OpId>): set<TaskId> {
    set t | t in s.tasks && s.tasks[t].kind == INDEX && s.tasks[t].op in os && ActiveTask(s.tasks[t])
  }

  function PendingGens(s: State, os: set<OpId>): set<GenId> {
    set t | t in s.tasks && s.tasks[t].kind == INDEX && s.tasks[t].op in os && s.tasks[t].gen.Some?
            && s.tasks[t].gen.value in s.gens && s.gens[s.tasks[t].gen.value].state == Building :: s.tasks[t].gen.value
  }

  function InvalidatePending(s: State, d: DocId): State {
    var os := PendingOps(s, d);
    EndAll(s, PendingTasks(s, os), os, PendingGens(s, os), STALE_ENDING)
  }

  function WithdrawVersion(s: State, d: DocId, opId: OpId, key: Key, input: Input, conf: Confirmation): State
    requires d in s.docs && conf.version in s.vers
  {
    s.(vers := s.vers[conf.version := s.vers[conf.version].(state := Disabled)],
       docs := s.docs[d := Document(None, s.docs[d].rowVersion + 1)],
       release := s.release + 1,
       ops := s.ops[opId := Operation(conf.actor, DISABLE, conf.version, conf.rev, key, input, conf, OpSucceeded,
                                      Some(conf.version), None)])
  }

  ghost function Disable(s: State, cmd: DisableCommand, actor: Actor, scope: Scope, opId: OpId)
    : (State, Result<DisableReceipt, Error>)
  {
    var previous := FindOp(s.ops, actor, DISABLE, cmd.key);
    var t := cmd.target;
    if previous.Some? then
      var result := DisableReceiptOf(s, previous.value, scope, true);
      (s, if result.Err? then result
          else if s.ops[previous.value].input != DisableInput(cmd) then Err(IdempotencyConflict)
          else result)
    else if !Visible(s, t.doc, t.version, t.rev, scope) then (s, Err(NotFound))
    else
      var conf := DisableSnapshot(s, t, actor);
      if conf.Err? then (s, Err(conf.error))
      else if cmd.digest != conf.value then (s, Err(StaleConfirmation))
      else if s.docs[t.doc].rowVersion >= MAX_COUNTER || s.release >= MAX_COUNTER then (s, Err(CounterExhausted))
      else if opId in s.ops then (s, Err(Conflict))
      else
        var s1 := InvalidatePending(s, t.doc);
        var s2 := WithdrawVersion(s1, t.doc, opId, cmd.key, DisableInput(cmd), conf.value);
        (s2, DisableReceiptOf(s2, opId, scope, false))
  }

  // --- Index retry ---

  predicate HasRetry(tasks: map<TaskId, Task>, t: TaskId) {
    exists u :: u in tasks && tasks[u].retryOf == Some(t)
  }

  function RetrySource(s: State, target: Target, t: TaskId, actor: Actor, scope: Scope, index: Index, today: int)
    : Result<Confirmation, Error>
  {
    var record := PublicationCandidate(s, target.doc, target.version, target.rev, scope, today);
    if record.Err? then Err(record.error) else
    var rebuilt := PublicationConfirmation(record.value, target, actor);
    if rebuilt.Err? then Err(rebuilt.error)
    else if t !in s.tasks || s.tasks[t].version != target.version || s.tasks[t].rev != target.rev
      || s.tasks[t].op !in s.ops then Err(NotFound)
    else
      var task := s.tasks[t];
      var o := s.ops[task.op];
      if task.kind != INDEX || !IsBuildAction(task.action) || (task.state != TaskFailed && task.state != Interrupted)
         then Err(RetryNotEligible)
      else if o.state != OpFailed || task.gen.None? || task.gen.value !in s.gens
        || s.gens[task.gen.value].state != GenFailed then Err(RetryNotEligible)
      else
        var gen := s.gens[task.gen.value];
        var original := o.conf;
        if !ValidConfirmation(original) || original.actor != o.actor || original.action != task.action
           || original.doc != target.doc || original.version != target.version || original.rev != target.rev
           || original.gen != task.gen || original.task != task.retryOf
           || gen.version != task.version || gen.rev != task.rev || gen.built != Generated || task.error.None?
           || original.raw != rebuilt.value.raw || original.norm != rebuilt.value.norm
           || original.meta != rebuilt.value.meta
           || gen.input != HashOf(target.version, target.rev, record.value.revision.citation,
                                  record.value.revision.content, gen.index) then Err(DataInvalid)
        else if gen.index != index then Err(RetryIdentityChanged)
        else if HasRetry(s.tasks, t) then Err(RetryNotLatest)
        else if task.attempt >= MAX_COUNTER || record.value.revision.row >= MAX_COUNTER then Err(CounterExhausted)
        else if PendingOn(s, target.doc) then Err(InProgress)
        else Ok(rebuilt.value.(action := RETRY_INDEX, task := Some(t), gen := task.gen))
  }

  ghost function RetryResult(s: State, opId: OpId, scope: Scope, replayed: bool): Result<RetryReceipt, Error>
    requires opId in s.ops
  {
    RetryReceiptOf(s, opId, TaskOf(s.tasks, opId, INDEX), scope, replayed)
  }

  function RetryReceiptOf(s: State, opId: OpId, task: Option<TaskId>, scope: Scope, replayed: bool)
    : Result<RetryReceipt, Error>
    requires opId in s.ops && (task.Some? ==> task.value in s.tasks)
  {
    var o := s.ops[opId];
    if task.None? || o.action != RETRY_INDEX then Err(NotFound) else
    var t := s.tasks[task.value];
    if t.gen.None? || t.gen.value !in s.gens || t.version !in s.vers || RevKey(t.version, t.rev) !in s.revs
       || s.revs[RevKey(t.version, t.rev)].meta.scope != scope then Err(NotFound)
    else
      var c := o.conf;
      if !ValidConfirmation(c) || c.action != RETRY_INDEX || c.actor != o.actor || c.doc != s.vers[t.version].doc
         || c.version != t.version
         || c.rev != t.rev || c.gen != t.gen || c.task != t.retryOf || t.action != RETRY_INDEX
         || (o.state == OpSucceeded && o.result != t.gen) then Err(DataInvalid)
      else Ok(RetryReceipt(c.doc, t.version, t.rev, opId, o.state, t.gen.value, s.gens[t.gen.value].state,
                           task.value, t.state, c.expectedRow + 1, t.retryOf, t.attempt, replayed))
  }

  function InsertRetry(s: State, r: RetryCall, conf: Confirmation, hash: GenHash, attempt: nat): State
    requires conf.doc in s.docs
  {
    var stored := conf.(gen := Some(r.gen));
    var s1 := InsertOp(s, r.op, BuildOp(r.cmd.key, RetryInput(r.cmd), stored));
    InsertBuild(s1, r.gen, BuildGen(stored, hash, r.now), r.task, BuildTask(r.op, stored, r.owner, attempt))
  }

  ghost function AcceptRetry(s: State, r: RetryCall): (State, Result<RetryReceipt, Error>) {
    var previous := FindOp(s.ops, r.actor, RETRY_INDEX, r.cmd.key);
    var t := r.cmd.target;
    if previous.Some? then
      var result := RetryResult(s, previous.value, r.scope, true);
      (s, if result.Err? then result
          else if s.ops[previous.value].input != RetryInput(r.cmd) then Err(IdempotencyConflict)
          else result)
    else if !Visible(s, t.doc, t.version, t.rev, r.scope) then (s, Err(NotFound))
    else if r.index.None? then (s, Err(IndexNotConfigured))
    else
      var conf := RetrySource(s, t, r.cmd.task, r.actor, r.scope, r.index.value, r.today);
      if conf.Err? then (s, Err(conf.error))
      else if r.cmd.digest != conf.value then (s, Err(StaleConfirmation))
      else if r.op in s.ops || r.gen in s.gens || r.task in s.tasks then (s, Err(Conflict))
      else
        var hash := HashOf(t.version, t.rev, Citation(t.version, s.vers[t.version]), s.revs[RevKey(t.version, t.rev)],
                           r.index.value);
        var s' := InsertRetry(s, r, conf.value, hash, s.tasks[r.cmd.task].attempt + 1);
        (s', RetryResult(s', r.op, r.scope, false))
  }

  // --- Recovery after a restart ---

  function OrphanTasks(s: State, owner: Owner): set<TaskId> {
    set t | t in s.tasks && s.tasks[t].owner != owner && ActiveTask(s.tasks[t])
  }

  function OrphanOps(s: State, owner: Owner): set<OpId> {
    set o | o in s.ops && ActiveOp(s.ops[o]) && o in (set t | t in OrphanTasks(s, owner) :: s.tasks[t].op)
  }

  function OrphanGens(s: State, owner: Owner): set<GenId> {
    set g | g in s.gens && s.gens[g].state == Building
            && g in (set t | t in OrphanTasks(s, owner) && s.tasks[t].gen.Some? :: s.tasks[t].gen.value)
  }

  function RecoverInterrupted(s: State, owner: Owner): State {
    EndAll(s, OrphanTasks(s, owner), OrphanOps(s, owner), OrphanGens(s, owner), INTERRUPTED_ENDING)
  }

  // --- Catalog import ---

  function ImportConfirmation(item: ImportItem, actor: Actor, action: Action): Confirmation {
    Confirmation(actor, action, item.doc, item.version, 1, item.content.raw, item.content.body, item.content.meta,
                 0, None, None, if action == PUBLISH then Some(item.gen) else None)
  }

  function ImportOp(item: ImportItem, c: ImportCall, number: nat, action: Action): Operation {
    Operation(c.actor, action, item.version, 1, ImportKey(c.cmd.batch, number), ImportInput(c.cmd),
              ImportConfirmation(item, c.actor, action), OpSucceeded, Some(item.version), None)
  }

  // All rows of one catalog version: document, sealed version, revision, READY copy, two finished operations and tasks.
  function ImportVersion(s: State, c: ImportCall, number: nat): State
    requires number < |c.plan|
  {
    var item := c.plan[number];
    var current := if item.active then Some(item.version) else if item.doc in s.docs then s.docs[item.doc].current
      else None;
    s.(docs := s.docs[item.doc := Document(current, 1)],
       vers := s.vers[item.version := ImportedVersion(item)],
       revs := s.revs[RevKey(item.version, 1) := item.content],
       gens := s.gens[item.gen := ImportedGen(item, c)],
       chunks := s.chunks[item.gen := item.records],
       ops := s.ops[item.uploadOp := ImportOp(item, c, number, UPLOAD)]
                   [item.publishOp := ImportOp(item, c, number, PUBLISH)],
       tasks := s.tasks[item.parseTask := ImportedParse(item, c)][item.indexTask := ImportedIndex(item, c)])
  }

  function ImportedVersion(item: ImportItem): Version {
    Version(item.doc, item.content.meta.spec, Imported(item.source, item.active), 1,
            if item.active then Published else Historical, Some(1), Some(item.gen))
  }

  function ImportedGen(item: ImportItem, c: ImportCall): Generation {
    Generation(item.version, 1, c.index, HashOf(item.version, 1, item.source, item.content, c.index),
               CopiedLegacy, c.now, Ready, |item.records|, None)
  }

  function ImportedParse(item: ImportItem, c: ImportCall): Task {
    Task(item.uploadOp, UPLOAD, item.version, 1, PARSE, None, TaskSucceeded, c.owner, 1, None, None)
  }

  function ImportedIndex(item: ImportItem, c: ImportCall): Task {
    Task(item.publishOp, PUBLISH, item.version, 1, INDEX, Some(item.gen), TaskSucceeded, c.owner, 1, None, None)
  }

  /** The first n versions of a plan. */
  function ImportVersions(s: State, c: ImportCall, n: nat): State
    requires n <= |c.plan|
  {
    if n == 0 then s else ImportVersion(ImportVersions(s, c, n - 1), c, n - 1)
  }

  // What deriving one identity per catalog source and checking the catalog gives.
  predicate ItemOk(item: ImportItem) {
    && item.content.body.Some? && item.records != [] && item.uploadOp != item.publishOp
       && item.parseTask != item.indexTask
  }

  predicate ItemsDiffer(a: ImportItem, b: ImportItem) {
    && a.version != b.version && a.gen != b.gen
    && a.uploadOp !in {b.uploadOp, b.publishOp} && a.publishOp !in {b.uploadOp, b.publishOp}
    && a.parseTask !in {b.parseTask, b.indexTask} && a.indexTask !in {b.parseTask, b.indexTask}
    && (a.doc == b.doc ==> !(a.active && b.active) && a.content.meta.spec != b.content.meta.spec)
  }

  predicate PlanOk(plan: seq<ImportItem>) {
    && (forall i :: 0 <= i < |plan| ==> ItemOk(plan[i]))
    && (forall i, j :: 0 <= i < j < |plan| ==> ItemsDiffer(plan[i], plan[j]))
  }

  // No identity of the plan is taken yet.
  predicate ItemFresh(s: State, item: ImportItem) {
    && item.doc !in s.docs && item.version !in s.vers && item.gen !in s.gens && item.uploadOp !in s.ops
       && item.publishOp !in s.ops
    && item.parseTask !in s.tasks && item.indexTask !in s.tasks && RevKey(item.version, 1) !in s.revs
  }

  predicate UsesImportKey(o: Operation, c: ImportCall) {
    o.actor == c.actor && (o.action == UPLOAD || o.action == PUBLISH) && o.key.ImportKey? && o.key.batch == c.cmd.batch
    && o.key.number < |c.plan|
  }

  predicate ImportReplayed(s: State, c: ImportCall) {
    exists o :: o in s.ops && UsesImportKey(s.ops[o], c)
  }

  function ImportRefusal(s: State, c: ImportCall): Option<Error> {
    if s.catalog.Some? then Some(if s.catalog == Some(c.cmd.catalog) then AlreadyImported else ImportSourceConflict)
    else if s.release != c.cmd.expectedRelease then Some(StaleLibrary)
    else if s.release >= MAX_COUNTER || exists i :: 0 <= i < |c.plan| && !ItemFresh(s, c.plan[i]) then Some(Conflict)
    else None
  }

  function Import(s: State, c: ImportCall): (State, Result<bool, Error>)
    requires PlanOk(c.plan)
  {
    if ImportReplayed(s, c) then
      (s, if exists o :: o in s.ops && UsesImportKey(s.ops[o], c) && s.ops[o].input != ImportInput(c.cmd)
          then Err(IdempotencyConflict) else Ok(true))
    else
      var refusal := ImportRefusal(s, c);
      if refusal.Some? then (s, Err(refusal.value))
      else (ImportVersions(s, c, |c.plan|).(catalog := Some(c.cmd.catalog), release := s.release + 1), Ok(false))
  }
}
