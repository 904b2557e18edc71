/** The tables of the managed-knowledge library and the values that cross its transactions. */
module KnowledgeTypes {
  import opened Wrappers
  import Chunker

  // Identities are opaque: they are only compared.
  type DocId = nat
  type VerId = nat
  type OpId = nat
  type TaskId = nat
  type GenId = nat
  type Actor = nat
  type Owner = nat
  type Scope = nat
  type RawHash = nat
  type CatalogHash = nat

  // Idempotency keys; the catalog import derives one key per imported version from its own key.
  datatype Key = UserKey(id: nat) | ImportKey(batch: nat, number: nat)

  const MAX_COUNTER: nat := 0x7FFF_FFFF_FFFF_FFFF

  // --- Rows ---

  datatype Document = Document(current: Option<VerId>, rowVersion: nat)

  datatype PublicationState = Draft | Published | Superseded | Disabled | Historical

  datatype Origin = Uploaded | Imported(source: nat, active: bool)

  datatype Version = Version(doc: DocId, spec: nat, origin: Origin, currentRev: nat, state: PublicationState,
                             publishedRev: Option<nat>, publishedGen: Option<GenId>)

  datatype RevKey = RevKey(version: VerId, rev: nat)

  // The fields that the confirmation binds; `details` stands for the remaining business fields.
  datatype Metadata = Metadata(title: string, spec: nat, effective: int, expiry: Option<int>, scope: Scope,
                               details: nat)

  // A metadata or body digest is injective, so the row keeps the digested value itself.
  datatype Revision = Revision(raw: RawHash, format: Chunker.Format, meta: Metadata, body: Option<string>)

  datatype Action = UPLOAD | PUBLISH | DISABLE | RETRY_INDEX

  datatype OpState = OpConfirmed | OpExecuting | OpSucceeded | OpFailed | OpStale

  datatype ErrorCode =
    | ParseFailed | StorageError | IndexBuildFailed | IndexValidationFailed | ToolTimeout
    | UpstreamUnavailable | PermissionDenied | ModelOutputInvalid | ProcessingInterrupted | StaleInput

  datatype Confirmation = Confirmation(
    actor: Actor, action: Action, doc: DocId, version: VerId, rev: nat, raw: RawHash, norm: Option<string>,
    meta: Metadata, expectedRow: nat, previous: Option<VerId>, task: Option<TaskId>, gen: Option<GenId>)

  datatype Operation = Operation(
    actor: Actor, action: Action, version: VerId, rev: nat, key: Key, input: Input, conf: Confirmation,
    state: OpState, result: Option<nat>, error: Option<ErrorCode>)

  datatype TaskType = PARSE | INDEX

  datatype TaskState = Queued | Running | TaskSucceeded | TaskFailed | Interrupted | TaskStale

  datatype Task = Task(
    op: OpId, action: Action, version: VerId, rev: nat, kind: TaskType, gen: Option<GenId>, state: TaskState,
    owner: Owner, attempt: nat, retryOf: Option<TaskId>, error: Option<ErrorCode>)

  datatype Index = Index(provider: nat, model: nat, indexVersion: nat, chunkingVersion: nat)

  datatype GenHash = GenHash(version: VerId, rev: nat, citation: nat, raw: RawHash, norm: Option<string>,
                             meta: Metadata, index: Index)

  datatype BuildMethod = Generated | CopiedLegacy

  datatype GenState = Building | Ready | GenFailed

  datatype Generation = Generation(
    version: VerId, rev: nat, index: Index, input: GenHash, built: BuildMethod, created: nat, state: GenState,
    chunkCount: nat, error: Option<ErrorCode>)

  // A stored chunk: the chunker's output with the vector bound to it.
  datatype Record = Record(gen: GenId, chunk: Chunker.Chunk, vector: seq<real>)

  datatype State = State(
    release: nat, catalog: Option<CatalogHash>, docs: map<DocId, Document>, vers: map<VerId, Version>,
    revs: map<RevKey, Revision>, ops: map<OpId, Operation>, tasks: map<TaskId, Task>, gens: map<GenId, Generation>,
    chunks: map<GenId, seq<Record>>)

  // --- Requests. A request hash is injective, so an operation keeps the request itself ---

  datatype Input =
    | UploadInput(upload: UploadCommand, raw: RawHash)
    | PublishInput(publish: PublishCommand)
    | DisableInput(disable: DisableCommand)
    | RetryInput(retry: RetryCommand)
    | ImportInput(catalog: ImportCommand)

  datatype UploadCommand = UploadCommand(
    filename: nat, meta: Metadata, key: Key, doc: Option<DocId>, version: Option<VerId>,
    expectedRow: nat, expectedRev: nat)

  // One version of the catalog, with the identities derived for it.
  datatype ImportItem = ImportItem(
    source: nat, doc: DocId, version: VerId, gen: GenId, uploadOp: OpId, publishOp: OpId, parseTask: TaskId,
    indexTask: TaskId, content: Revision, active: bool, records: seq<Record>)

  datatype Target = Target(doc: DocId, version: VerId, rev: nat, row: nat)

  datatype PublishCommand = PublishCommand(target: Target, digest: Confirmation, key: Key)

  datatype DisableCommand = DisableCommand(target: Target, digest: Confirmation, key: Key)

  datatype RetryCommand = RetryCommand(target: Target, task: TaskId, digest: Confirmation, key: Key)

  datatype ImportCommand = ImportCommand(catalog: CatalogHash, expectedRelease: nat, batch: nat)

  datatype UploadPlan = UploadPlan(
    doc: DocId, version: VerId, rev: nat, row: nat, previous: Option<VerId>, newDocument: bool, newVersion: bool)

  // --- Calls: a request together with what the service supplies, including fresh identities and the clock ---

  datatype UploadCall = UploadCall(
    cmd: UploadCommand, plan: UploadPlan, raw: RawHash, format: Chunker.Format, actor: Actor, owner: Owner,
    op: OpId, task: TaskId)

  datatype PublishCall = PublishCall(
    cmd: PublishCommand, actor: Actor, scope: Scope, index: Option<Index>, owner: Owner, today: int, now: nat,
    op: OpId, gen: GenId, task: TaskId)

  datatype RetryCall = RetryCall(
    cmd: RetryCommand, actor: Actor, scope: Scope, index: Option<Index>, owner: Owner, today: int, now: nat,
    op: OpId, gen: GenId, task: TaskId)

  datatype ImportCall = ImportCall(cmd: ImportCommand, actor: Actor, plan: seq<ImportItem>, index: Index, owner: Owner,
                                   now: nat)

  // --- Snapshots read in one transaction and handed to a later one ---

  datatype RevisionRead = RevisionRead(
    doc: DocId, citation: nat, row: nat, currentRev: nat, state: PublicationState, key: RevKey, content: Revision)

  datatype PublicationRead = PublicationRead(
    revision: RevisionRead, previous: Option<VerId>, spec: nat, parsed: bool, today: int)

  datatype Claim = Claim(task: TaskId, gen: GenId, actor: Actor, record: PublicationRead, index: Index)

  // The digest that binds the confirmation, the generation row and every stored chunk.
  datatype Fingerprint = Fingerprint(conf: Confirmation, gen: Generation, chunks: seq<Record>)

  datatype FinalizeRead = FinalizeRead(
    op: OpId, conf: Confirmation, record: PublicationRead, genId: GenId, gen: Generation, chunks: seq<Record>)

  // --- Errors and receipts ---

  datatype Error =
    | IdempotencyConflict | NotFound | StaleDocument | StaleRevision | StaleConfirmation | SealedVersion
    | SpecConflict | RequiresDraft | ParseNotReady | NotEffective | Expired | DataInvalid | CounterExhausted
    | InProgress | IndexNotConfigured | NotActive | IndexNotReady | NotCurrentPublished | RetryNotEligible
    | RetryIdentityChanged | RetryNotLatest | ParseResultInvalid | Conflict | Unavailable
    | AlreadyImported | ImportSourceConflict | StaleLibrary

  datatype UploadReceipt = UploadReceipt(
    doc: DocId, version: VerId, rev: nat, op: OpId, task: TaskId, row: nat, taskState: TaskState,
    isCurrent: bool, replayed: bool)

  datatype PublishReceipt = PublishReceipt(
    doc: DocId, version: VerId, rev: nat, op: OpId, opState: OpState, gen: GenId, genState: GenState,
    task: Option<TaskId>, reservedRow: nat, replayed: bool)

  datatype FinalReceipt = FinalReceipt(
    op: OpId, doc: DocId, version: VerId, rev: nat, gen: GenId, replaced: Option<VerId>, state: PublicationState,
    isCurrent: bool, row: nat, release: nat, replayed: bool)

  datatype DisableReceipt = DisableReceipt(
    op: OpId, doc: DocId, version: VerId, rev: nat, gen: Option<GenId>, current: Option<VerId>,
    row: nat, release: nat, replayed: bool)

  datatype RetryReceipt = RetryReceipt(
    doc: DocId, version: VerId, rev: nat, op: OpId, opState: OpState, gen: GenId, genState: GenState,
    task: TaskId, taskState: TaskState, reservedRow: nat, retryOf: Option<TaskId>, attempt: nat, replayed: bool)

  // --- Small predicates on rows ---

  predicate IsBuildAction(a: Action) {
    a == PUBLISH || a == RETRY_INDEX
  }

  predicate ActiveOp(o: Operation) {
    IsBuildAction(o.action) && (o.state == OpConfirmed || o.state == OpExecuting)
  }

  predicate ActiveTask(t: Task) {
    t.state == Queued || t.state == Running
  }

  function Citation(v: VerId, row: Version): nat {
    if row.origin.Uploaded? then v else row.origin.source
  }

  function HashOf(version: VerId, rev: nat, citation: nat, content: Revision, index: Index): GenHash {
    GenHash(version, rev, citation, content.raw, content.body, content.meta, index)
  }

  /** The confirmation schema: which optional evidence each action must and must not carry. */
  predicate ValidConfirmation(c: Confirmation) {
    && (c.action != UPLOAD ==> c.norm.Some?)
    && (c.action == RETRY_INDEX <==> c.task.Some?)
    && (c.action == DISABLE ==> c.previous == Some(c.version))
    && (c.action == UPLOAD ==> c.gen.None?)
  }
}
