/**
  * The invariant of every reachable state, table by table.
  *
  * Tables refer to each other in cycles: a version names its generation, a generation its version, a task its operation
  * and its generation, an operation its tasks. A clause about all rows of a table is therefore triggered by the
  * predicate on the row alone, so that naming one row in a proof does not unfold every row that it refers to. The
  * lemmas after the clauses turn a clause into the same statement for all rows.
  */
module KnowledgeInvariant {
  import opened Wrappers
  import opened KnowledgeTypes
  import opened KnowledgeSteps

  type Docs = map<DocId, Document>
  type Vers = map<VerId, Version>
  type Revs = map<RevKey, Revision>
  type Ops = map<OpId, Operation>
  type Tasks = map<TaskId, Task>
  type Gens = map<GenId, Generation>
  type Chunks = map<GenId, seq<Record>>

  // --- Documents, versions, revisions ---

  /** The current pointer names a PUBLISHED version of the same document. */
  ghost predicate DocsOk(docs: Docs, vers: Vers) {
    forall d :: d in docs ==>
      && docs[d].rowVersion <= MAX_COUNTER
      && (docs[d].current.Some? ==> docs[d].current.value in vers && vers[docs[d].current.value].doc == d
                                    && vers[docs[d].current.value].state == Published)
  }

  /** A version is PUBLISHED exactly when its document points at it. */
  ghost predicate PointersOk(docs: Docs, vers: Vers) {
    forall v :: v in vers ==>
      && vers[v].doc in docs
      && (vers[v].state == Published <==> docs[vers[v].doc].current == Some(v))
  }

  // A draft has no publication fields; a sealed version is sealed on its last revision and a READY generation of it.
  predicate Sealed(v: VerId, row: Version, gens: Gens) {
    if row.state == Draft then row.publishedRev.None? && row.publishedGen.None? && row.origin.Uploaded?
    else
      && row.publishedRev == Some(row.currentRev) && row.publishedGen.Some? && row.publishedGen.value in gens
      && gens[row.publishedGen.value].version == v && gens[row.publishedGen.value].rev == row.currentRev
      && gens[row.publishedGen.value].state == Ready
      && (row.origin.Imported? ==> row.currentRev == 1)
      && (row.state == Historical <==> row.origin.Imported? && !row.origin.active)
  }

  ghost predicate VersOk(vers: Vers, revs: Revs, gens: Gens) {
    forall v :: v in vers ==>
      vers[v].currentRev >= 1 && RevKey(v, vers[v].currentRev) in revs && Sealed(v, vers[v], gens)
  }

  ghost predicate RevsOk(vers: Vers, revs: Revs) {
    forall k :: k in revs ==>
      k.version in vers && 1 <= k.rev <= vers[k.version].currentRev && revs[k].meta.spec == vers[k.version].spec
  }

  predicate SameSpec(v: Version, w: Version) {
    v.doc == w.doc && v.spec == w.spec
  }

  ghost predicate SpecsUnique(vers: Vers) {
    forall v, w {:trigger SameSpec(vers[v], vers[w])} :: v in vers && w in vers && SameSpec(vers[v], vers[w]) ==> v == w
  }

  // --- Generations and their chunks ---

  ghost predicate GenOk(vers: Vers, revs: Revs, chunks: Chunks, g: GenId, row: Generation) {
    && row.version in vers && RevKey(row.version, row.rev) in revs && revs[RevKey(row.version, row.rev)].body.Some?
    && row.input == HashOf(row.version, row.rev, Citation(row.version, vers[row.version]),
                           revs[RevKey(row.version, row.rev)], row.index)
    && (row.built == CopiedLegacy ==> row.state == Ready && vers[row.version].origin.Imported?)
    && (row.state != Ready ==> row.chunkCount == 0 && g !in chunks)
    && (row.state == Ready ==> g in chunks && row.chunkCount == |chunks[g]| > 0)
  }

  ghost predicate GensOk(vers: Vers, revs: Revs, gens: Gens, chunks: Chunks) {
    && (forall g {:trigger GenOk(vers, revs, chunks, g, gens[g])} :: g in gens ==>
        GenOk(vers, revs, chunks, g, gens[g]))
    && chunks.Keys <= gens.Keys
  }

  /** A READY generation that was built here stores the chunking of its revision's body. */
  ghost predicate EvidenceOk(vers: Vers, revs: Revs, gens: Gens, chunks: Chunks) {
    forall g :: g in gens && gens[g].state == Ready && gens[g].built == Generated ==>
      && gens[g].version in vers && RevKey(gens[g].version, gens[g].rev) in revs && g in chunks
      && Evidence(Citation(gens[g].version, vers[gens[g].version]), revs[RevKey(gens[g].version, gens[g].rev)], g,
                  chunks[g])
  }

  // --- Operations ---

  /** The part of an operation that can only become true. */
  ghost predicate OpOk(vers: Vers, revs: Revs, gens: Gens, o: Operation) {
    && o.version in vers && RevKey(o.version, o.rev) in revs
    && ValidConfirmation(o.conf) && o.conf.actor == o.actor && o.conf.action == o.action && o.conf.version == o.version
    && o.conf.rev == o.rev && o.conf.doc == vers[o.version].doc
    && (!IsBuildAction(o.action) ==> o.state == OpSucceeded && o.result == Some(o.version))
    && (IsBuildAction(o.action) ==> BuildOpOk(revs, gens, o))
    && (o.action == PUBLISH && o.state == OpSucceeded ==>
          o.result == Some(o.version) && vers[o.version].state != Draft
          && vers[o.version].publishedRev == Some(o.rev) && vers[o.version].publishedGen == o.conf.gen)
    && (o.action == RETRY_INDEX && o.state == OpSucceeded ==>
        o.result == o.conf.gen && gens[o.conf.gen.value].state == Ready)
    && (o.action == DISABLE ==>
          vers[o.version].state == Disabled && vers[o.version].publishedRev == Some(o.rev)
            && vers[o.version].publishedGen == o.conf.gen)
  }

  // A build operation is bound to one generation of its revision and to the revision's content.
  predicate BuildOpOk(revs: Revs, gens: Gens, o: Operation)
    requires RevKey(o.version, o.rev) in revs
  {
    var content := revs[RevKey(o.version, o.rev)];
    && o.conf.gen.Some? && o.conf.gen.value in gens
    && gens[o.conf.gen.value].version == o.version && gens[o.conf.gen.value].rev == o.rev
    && content.body.Some? && o.conf.raw == content.raw && o.conf.norm == content.body && o.conf.meta == content.meta
  }

  ghost predicate OpsOk(vers: Vers, revs: Revs, gens: Gens, ops: Ops) {
    forall o {:trigger OpOk(vers, revs, gens, ops[o])} :: o in ops ==> OpOk(vers, revs, gens, ops[o])
  }

  /** Unfinished work is always on the current revision of a draft. */
  ghost predicate ActiveOk(vers: Vers, ops: Ops) {
    forall o :: o in ops && ActiveOp(ops[o]) ==>
      ops[o].version in vers && vers[ops[o].version].state == Draft && vers[ops[o].version].currentRev == ops[o].rev
  }

  predicate SameDoc(vers: Vers, v: VerId, w: VerId) {
    v in vers && w in vers && vers[v].doc == vers[w].doc
  }

  /** A document has at most one unfinished build operation. */
  ghost predicate OneActive(vers: Vers, ops: Ops) {
    forall o, p {:trigger SameDoc(vers, ops[o].version, ops[p].version)} ::
      o in ops && p in ops && ActiveOp(ops[o]) && ActiveOp(ops[p]) && SameDoc(vers, ops[o].version, ops[p].version) ==>
        o == p
  }

  predicate SameKey(o: Operation, p: Operation) {
    o.actor == p.actor && o.action == p.action && o.key == p.key
  }

  ghost predicate KeysUnique(ops: Ops) {
    forall o, p {:trigger SameKey(ops[o], ops[p])} :: o in ops && p in ops && SameKey(ops[o], ops[p]) ==> o == p
  }

  predicate Finished(o: Operation, action: Action) {
    o.action == action && o.state == OpSucceeded
  }

  predicate FinishedAlike(o: Operation, p: Operation) {
    (o.action == PUBLISH || o.action == DISABLE) && Finished(o, o.action) && Finished(p, o.action)
      && o.version == p.version
  }

  // A version is published at most once and disabled at most once.
  ghost predicate FinishedOnce(ops: Ops) {
    forall o, p {:trigger FinishedAlike(ops[o], ops[p])} ::
      o in ops && p in ops && FinishedAlike(ops[o], ops[p]) ==> o == p
  }

  ghost predicate HasFinished(ops: Ops, v: VerId, action: Action) {
    exists o :: o in ops && Finished(ops[o], action) && ops[o].version == v
  }

  // The operations that brought a version to its state.
  ghost predicate SealedBy(ops: Ops, v: VerId, row: Version) {
    && (row.state != Draft ==> HasFinished(ops, v, PUBLISH))
    && (row.state == Disabled ==> HasFinished(ops, v, DISABLE))
  }

  ghost predicate SealedByOps(vers: Vers, ops: Ops) {
    forall v {:trigger SealedBy(ops, v, vers[v])} :: v in vers ==> SealedBy(ops, v, vers[v])
  }

  // --- Tasks, in lockstep with operations and generations ---

  /** A task, its operation and its generation move together. */
  predicate Lockstep(t: Task, op: OpState, gen: GenState) {
    match t.state
    case Queued => op == OpConfirmed && gen == Building
    case Running => op == OpExecuting && gen == Building
    case TaskSucceeded => gen == Ready && op != OpConfirmed && (t.action == RETRY_INDEX ==> op == OpSucceeded)
    case TaskFailed => op == OpFailed && gen == GenFailed
    case Interrupted => op == OpFailed && gen == GenFailed
    case TaskStale => op == OpStale && gen == GenFailed
  }

  predicate TaskOk(ops: Ops, gens: Gens, t: Task) {
    && t.op in ops && ops[t.op].version == t.version && ops[t.op].rev == t.rev && ops[t.op].action == t.action
    && if t.kind == PARSE then t.gen.None? && t.action == UPLOAD
       else
         && IsBuildAction(t.action) && t.gen.Some? && t.gen.value in gens && ops[t.op].conf.gen == t.gen
         && gens[t.gen.value].version == t.version && gens[t.gen.value].rev == t.rev
         && Lockstep(t, ops[t.op].state, gens[t.gen.value].state)
         && (t.state in {TaskFailed, Interrupted, TaskStale} ==> t.error.Some? && gens[t.gen.value].built == Generated)
  }

  ghost predicate TasksOk(ops: Ops, gens: Gens, tasks: Tasks) {
    forall t {:trigger TaskOk(ops, gens, tasks[t])} :: t in tasks ==> TaskOk(ops, gens, tasks[t])
  }

  predicate SameGen(t: Task, u: Task) {
    t.gen.Some? && t.gen == u.gen
  }

  predicate SameWork(t: Task, u: Task) {
    t.op == u.op && t.kind == u.kind
  }

  // One task per generation, and one of a kind per operation.
  ghost predicate TasksUnique(tasks: Tasks) {
    && (forall t, u {:trigger SameGen(tasks[t], tasks[u])} ::
          t in tasks && u in tasks && SameGen(tasks[t], tasks[u]) ==> t == u)
    && (forall t, u {:trigger SameWork(tasks[t], tasks[u])} ::
          t in tasks && u in tasks && SameWork(tasks[t], tasks[u]) ==> t == u)
  }

  predicate ParseAlike(t: Task, u: Task) {
    t.kind == PARSE && u.kind == PARSE && t.version == u.version && t.rev == u.rev
  }

  // One parse task per revision.
  ghost predicate ParsesUnique(revs: Revs, tasks: Tasks) {
    && (forall t :: t in tasks ==> RevKey(tasks[t].version, tasks[t].rev) in revs)
    && (forall t, u {:trigger ParseAlike(tasks[t], tasks[u])} ::
          t in tasks && u in tasks && ParseAlike(tasks[t], tasks[u]) ==> t == u)
  }

  ghost predicate Builds(tasks: Tasks, t: TaskId, g: GenId) {
    t in tasks && tasks[t].kind == INDEX && tasks[t].gen == Some(g) && ActiveTask(tasks[t])
  }

  /** A BUILDING generation has a live task. */
  ghost predicate BuildingOk(gens: Gens, tasks: Tasks) {
    forall g :: g in gens && gens[g].state == Building ==> exists t :: Builds(tasks, t, g)
  }

  ghost predicate HasTask(tasks: Tasks, o: OpId, kind: TaskType) {
    exists t :: IsTaskOf(tasks, t, o, kind)
  }

  /** Which operations have a task; a publication without one reuses a READY generation. */
  ghost predicate HasWork(gens: Gens, tasks: Tasks, o: OpId, row: Operation) {
    && (row.action == UPLOAD ==> HasTask(tasks, o, PARSE))
    && (row.action == RETRY_INDEX ==> HasTask(tasks, o, INDEX))
    && (row.action == PUBLISH ==>
          HasTask(tasks, o, INDEX)
          || (row.state != OpExecuting && row.conf.gen.Some? && row.conf.gen.value in gens
              && gens[row.conf.gen.value].state == Ready))
  }

  ghost predicate OpsHaveTasks(ops: Ops, gens: Gens, tasks: Tasks) {
    forall o {:trigger HasWork(gens, tasks, o, ops[o])} :: o in ops ==> HasWork(gens, tasks, o, ops[o])
  }

  // --- Retry chains ---

  /** The link from a retry to the task it retries. */
  predicate RetryOk(ops: Ops, tasks: Tasks, t: Task) {
    if t.retryOf.None? then t.attempt == 1 && t.action != RETRY_INDEX
    else
      && ParentOk(tasks, t) && t.kind == INDEX && t.action == RETRY_INDEX
      && t.op in ops && ops[t.op].conf.task == t.retryOf
  }

  ghost predicate RetriesOk(ops: Ops, tasks: Tasks) {
    forall t {:trigger RetryOk(ops, tasks, tasks[t])} :: t in tasks ==> RetryOk(ops, tasks, tasks[t])
  }

  predicate SameParent(t: Task, u: Task) {
    t.retryOf.Some? && t.retryOf == u.retryOf
  }

  ghost predicate RetriesUnique(tasks: Tasks) {
    forall t, u {:trigger SameParent(tasks[t], tasks[u])} ::
      t in tasks && u in tasks && SameParent(tasks[t], tasks[u]) ==> t == u
  }

  // --- Conservation ---

  predicate FromImport(row: Version, action: Action) {
    row.origin.Imported? && (action == UPLOAD || action == PUBLISH)
  }

  // The accepted intents of a document, without the import's own records.
  ghost function Intents(vers: Vers, ops: Ops, d: DocId): set<OpId> {
    set o | o in ops && ops[o].version in vers && vers[ops[o].version].doc == d
      && !FromImport(vers[ops[o].version], ops[o].action)
  }

  ghost function Finalized(vers: Vers, ops: Ops, d: DocId): set<OpId> {
    set o | o in ops && ops[o].version in vers && vers[ops[o].version].doc == d && vers[ops[o].version].origin.Uploaded?
            && Finished(ops[o], PUBLISH)
  }

  ghost predicate IsImported(vers: Vers, d: DocId) {
    exists v :: v in vers && vers[v].doc == d && vers[v].origin.Imported?
  }

  /** The counter of a document counts its accepted intents and its finalized publications. */
  ghost predicate RowsCounted(docs: Docs, vers: Vers, ops: Ops) {
    forall d {:trigger Intents(vers, ops, d)} {:trigger Finalized(vers, ops, d)} :: d in docs ==>
      docs[d].rowVersion == |Intents(vers, ops, d)| + |Finalized(vers, ops, d)| + if IsImported(vers, d) then 1 else 0
  }

  ghost function SealedUploads(vers: Vers): set<VerId> {
    set v | v in vers && vers[v].origin.Uploaded? && vers[v].state != Draft
  }

  ghost function DisabledVersions(vers: Vers): set<VerId> {
    set v | v in vers && vers[v].state == Disabled
  }

  /** The release counter counts published uploads, disabled versions and the import. */
  ghost predicate ReleaseCounted(release: nat, catalog: Option<CatalogHash>, vers: Vers) {
    release == |SealedUploads(vers)| + |DisabledVersions(vers)| + (if catalog.Some? then 1 else 0)
  }

  ghost predicate Inv(s: State) {
    && DocsOk(s.docs, s.vers) && PointersOk(s.docs, s.vers)
    && VersOk(s.vers, s.revs, s.gens) && RevsOk(s.vers, s.revs) && SpecsUnique(s.vers)
    && GensOk(s.vers, s.revs, s.gens, s.chunks) && EvidenceOk(s.vers, s.revs, s.gens, s.chunks)
    && OpsOk(s.vers, s.revs, s.gens, s.ops) && ActiveOk(s.vers, s.ops) && OneActive(s.vers, s.ops)
    && KeysUnique(s.ops) && FinishedOnce(s.ops) && SealedByOps(s.vers, s.ops)
    && TasksOk(s.ops, s.gens, s.tasks) && TasksUnique(s.tasks) && ParsesUnique(s.revs, s.tasks)
    && BuildingOk(s.gens, s.tasks) && OpsHaveTasks(s.ops, s.gens, s.tasks)
    && RetriesOk(s.ops, s.tasks) && RetriesUnique(s.tasks)
    && RowsCounted(s.docs, s.vers, s.ops) && ReleaseCounted(s.release, s.catalog, s.vers)
  }

  // --- The clauses of a table, for all of its rows ---

  lemma EachOp(vers: Vers, revs: Revs, gens: Gens, ops: Ops)
    requires OpsOk(vers, revs, gens, ops)
    ensures forall o :: o in ops ==> OpOk(vers, revs, gens, ops[o])
  {
  }

  lemma EachTask(ops: Ops, gens: Gens, tasks: Tasks)
    requires TasksOk(ops, gens, tasks)
    ensures forall t :: t in tasks ==> TaskOk(ops, gens, tasks[t])
  {
  }

  lemma EachSealed(vers: Vers, ops: Ops)
    requires SealedByOps(vers, ops)
    ensures forall v :: v in vers ==> SealedBy(ops, v, vers[v])
  {
  }

  lemma EachWork(ops: Ops, gens: Gens, tasks: Tasks)
    requires OpsHaveTasks(ops, gens, tasks)
    ensures forall o :: o in ops ==> HasWork(gens, tasks, o, ops[o])
  {
  }

  lemma TasksApart(tasks: Tasks)
    requires TasksUnique(tasks)
    ensures forall t, u :: t in tasks && u in tasks && (SameGen(tasks[t], tasks[u]) || SameWork(tasks[t], tasks[u])) ==>
            t == u
  {
  }

  lemma EachGen(vers: Vers, revs: Revs, gens: Gens, chunks: Chunks)
    requires GensOk(vers, revs, gens, chunks)
    ensures forall g :: g in gens ==> GenOk(vers, revs, chunks, g, gens[g])
  {
  }

  lemma SpecsApart(vers: Vers)
    requires SpecsUnique(vers)
    ensures forall v, w :: v in vers && w in vers && SameSpec(vers[v], vers[w]) ==> v == w
  {
  }

  lemma KeysApart(ops: Ops)
    requires KeysUnique(ops)
    ensures forall o, p :: o in ops && p in ops && SameKey(ops[o], ops[p]) ==> o == p
  {
  }

  lemma ParsesApart(revs: Revs, tasks: Tasks)
    requires ParsesUnique(revs, tasks)
    ensures forall t, u :: t in tasks && u in tasks && ParseAlike(tasks[t], tasks[u]) ==> t == u
  {
  }

  lemma RetriesApart(tasks: Tasks)
    requires RetriesUnique(tasks)
    ensures forall t, u :: t in tasks && u in tasks && SameParent(tasks[t], tasks[u]) ==> t == u
  {
  }

  const EMPTY: State := State(0, None, map[], map[], map[], map[], map[], map[], map[])

  lemma InitInv()
    ensures Inv(EMPTY)
  {
    assert SealedUploads(EMPTY.vers) == {};
    assert DisabledVersions(EMPTY.vers) == {};
  }
}
