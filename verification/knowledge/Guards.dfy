/** Which requests are accepted. */
module KnowledgeGuards {
  import opened Wrappers
  import opened KnowledgeTypes
  import opened KnowledgeSteps

  // --- What one step may change ---

  /** At most the row of one key is written. */
  ghost predicate OnlyRow<K(!new), V>(a: map<K, V>, b: map<K, V>, k: K) {
    k in b && b.Keys == a.Keys + {k} && forall x :: x in a && x != k ==> b[x] == a[x]
  }

  // The key has not been used, by this actor for this action.
  ghost predicate NewKey(s: State, actor: Actor, action: Action, key: Key) {
    forall o :: o in s.ops ==> !(s.ops[o].actor == actor && s.ops[o].action == action && s.ops[o].key == key)
  }

  lemma NewKeyFindsNothing(s: State, actor: Actor, action: Action, key: Key)
    ensures NewKey(s, actor, action, key) <==> FindOp(s.ops, actor, action, key).None?
  {
    forall o: OpId
      ensures HasKey(s.ops, o, actor, action, key) <==>
              o in s.ops && s.ops[o].actor == actor && s.ops[o].action == action && s.ops[o].key == key
    {
    }
    hide HasKey;
  }

  // The rows that a request names, visible in the scope of its actor.
  predicate Shown(s: State, t: Target, scope: Scope) {
    && t.doc in s.docs && t.version in s.vers && s.vers[t.version].doc == t.doc
    && RevKey(t.version, t.rev) in s.revs && s.revs[RevKey(t.version, t.rev)].meta.scope == scope
  }

  // No publication and no retry is CONFIRMED or EXECUTING on the document.
  ghost predicate Idle(s: State, d: DocId) {
    forall o :: o in s.ops && s.ops[o].version in s.vers && s.vers[s.ops[o].version].doc == d
                && (s.ops[o].action == PUBLISH || s.ops[o].action == RETRY_INDEX) ==>
      s.ops[o].state != OpConfirmed && s.ops[o].state != OpExecuting
  }

  lemma IdleIff(s: State, d: DocId)
    ensures Idle(s, d) <==> !PendingOn(s, d)
  {
  }

  // --- Publications ---

  // The current revision of a draft, parsed, valid on the day, and not moved on since the target was read.
  ghost predicate Publishable(s: State, t: Target, today: int)
    requires t.doc in s.docs && t.version in s.vers && RevKey(t.version, t.rev) in s.revs
  {
    var content := s.revs[RevKey(t.version, t.rev)];
    && s.vers[t.version].state == Draft && s.vers[t.version].currentRev == t.rev
    && s.docs[t.doc].rowVersion == t.row && s.docs[t.doc].current != Some(t.version)
    && s.vers[t.version].spec == content.meta.spec && content.body.Some?
    && (exists p :: p in s.tasks && s.tasks[p].version == t.version && s.tasks[p].rev == t.rev
                    && s.tasks[p].kind == PARSE && s.tasks[p].state == TaskSucceeded)
    && content.meta.effective <= today && (content.meta.expiry.Some? ==> today <= content.meta.expiry.value)
  }

  // What the user was shown, and confirms.
  function Shows(s: State, t: Target, actor: Actor): Confirmation
    requires t.doc in s.docs && RevKey(t.version, t.rev) in s.revs
  {
    var content := s.revs[RevKey(t.version, t.rev)];
    Confirmation(actor, PUBLISH, t.doc, t.version, t.rev, content.raw, content.body, content.meta, t.row,
                 s.docs[t.doc].current, None, None)
  }

  lemma CandidateIs(s: State, t: Target, actor: Actor, scope: Scope, today: int)
    ensures PublicationCandidate(s, t.doc, t.version, t.rev, scope, today).Ok? <==> Shown(s, t, scope)
    ensures Shown(s, t, scope) ==>
              var conf := PublicationConfirmation(
                PublicationCandidate(s, t.doc, t.version, t.rev, scope, today).value, t, actor);
              && (conf.Ok? <==> Publishable(s, t, today)) && (conf.Ok? ==> conf.value == Shows(s, t, actor))
  {
  }

  // The generation of the same input that a publication can reuse: the one created first.
  ghost predicate Reuses(s: State, p: PublishCall, g: GenId)
    requires Shown(s, p.cmd.target, p.scope) && p.index.Some?
  {
    && SameInput(s, p, g)
    && forall h: GenId :: SameInput(s, p, h) ==>
         s.gens[g].created < s.gens[h].created || (s.gens[g].created == s.gens[h].created && g <= h)
  }

  predicate SameInput(s: State, p: PublishCall, g: GenId)
    requires Shown(s, p.cmd.target, p.scope) && p.index.Some?
  {
    var t := p.cmd.target;
    var content := s.revs[RevKey(t.version, t.rev)];
    && g in s.gens && s.gens[g].version == t.version && s.gens[g].rev == t.rev && s.gens[g].state == Ready
    && s.gens[g].index == p.index.value
    && s.gens[g].input == GenHash(t.version, t.rev, Citation(t.version, s.vers[t.version]), content.raw, content.body,
                                  content.meta, p.index.value)
  }

  /** A publication is accepted exactly when all of this holds. */
  ghost predicate PublicationGuards(s: State, p: PublishCall) {
    && NewKey(s, p.actor, PUBLISH, p.cmd.key) && Shown(s, p.cmd.target, p.scope)
    && Publishable(s, p.cmd.target, p.today) && p.cmd.digest == Shows(s, p.cmd.target, p.actor)
    && s.docs[p.cmd.target.doc].rowVersion < MAX_COUNTER && Idle(s, p.cmd.target.doc) && p.index.Some?
    && p.op !in s.ops
    && ((exists g: GenId :: Reuses(s, p, g)) || (p.gen !in s.gens && p.task !in s.tasks))
  }

  // What an accepted publication leaves behind.
  ghost predicate PublicationRows(s: State, p: PublishCall, s': State)
    requires PublicationGuards(s, p)
  {
    var t := p.cmd.target;
    && OnlyRow(s.ops, s'.ops, p.op) && OnlyRow(s.docs, s'.docs, t.doc)
    && s'.docs[t.doc] == Document(s.docs[t.doc].current, s.docs[t.doc].rowVersion + 1)
    && s'.vers == s.vers && s'.revs == s.revs && s'.chunks == s.chunks && s'.release == s.release
    && s'.catalog == s.catalog
    && s'.ops[p.op] == Operation(p.actor, PUBLISH, t.version, t.rev, p.cmd.key, PublishInput(p.cmd),
                                 Shows(s, t, p.actor).(gen := s'.ops[p.op].conf.gen), OpConfirmed, None, None)
    && if exists g: GenId :: Reuses(s, p, g)
       then
         && (exists g: GenId :: Reuses(s, p, g) && s'.ops[p.op].conf.gen == Some(g))
         && s'.gens == s.gens && s'.tasks == s.tasks
       else
         && s'.ops[p.op].conf.gen == Some(p.gen) && OnlyRow(s.gens, s'.gens, p.gen)
         && OnlyRow(s.tasks, s'.tasks, p.task) && NewBuild(s, s', p)
  }

  // A generation under construction and the task that is to build it.
  ghost predicate NewBuild(s: State, s': State, p: PublishCall)
    requires PublicationGuards(s, p) && p.gen in s'.gens && p.task in s'.tasks
  {
    var (t, index) := (p.cmd.target, p.index.value);
    var content := s.revs[RevKey(t.version, t.rev)];
    && s'.gens[p.gen] == Generation(t.version, t.rev, index,
                                    GenHash(t.version, t.rev, Citation(t.version, s.vers[t.version]), content.raw,
                                            content.body, content.meta, index),
                                    Generated, p.now, Building, 0, None)
    && s'.tasks[p.task] == Task(p.op, PUBLISH, t.version, t.rev, INDEX, Some(p.gen), Queued, p.owner, 1, None, None)
  }

  lemma ReusesIff(s: State, p: PublishCall)
    requires Shown(s, p.cmd.target, p.scope) && p.index.Some?
    ensures var t := p.cmd.target;
            var hash := HashOf(t.version, t.rev, Citation(t.version, s.vers[t.version]),
                               s.revs[RevKey(t.version, t.rev)], p.index.value);
            var first := FirstReusable(s.gens, t.version, t.rev, hash, p.index.value);
            && (first.Some? <==> exists g: GenId :: Reuses(s, p, g)) && (first.Some? ==> Reuses(s, p, first.value))
  {
    var t := p.cmd.target;
    var hash := HashOf(t.version, t.rev, Citation(t.version, s.vers[t.version]), s.revs[RevKey(t.version, t.rev)],
                       p.index.value);
    forall g
      ensures SameInput(s, p, g) <==> Reusable(s.gens, g, t.version, t.rev, hash, p.index.value)
    {
    }
    hide SameInput, Reusable;
    forall g
      ensures Reuses(s, p, g) <==> IsFirstReusable(s.gens, g, t.version, t.rev, hash, p.index.value)
    {
    }
  }

  function InputHash(s: State, p: PublishCall): GenHash
    requires Shown(s, p.cmd.target, p.scope) && p.index.Some?
  {
    var t := p.cmd.target;
    HashOf(t.version, t.rev, Citation(t.version, s.vers[t.version]), s.revs[RevKey(t.version, t.rev)], p.index.value)
  }

  lemma PublicationInserts(s: State, p: PublishCall) returns (ready: Option<GenId>)
    requires PublicationGuards(s, p)
    ensures var t := p.cmd.target;
            && (ready.Some? <==> exists g: GenId :: Reuses(s, p, g)) && (ready.Some? ==> Reuses(s, p, ready.value))
            && AcceptPublication(s, p).0 == InsertPublication(s, p, Shows(s, t, p.actor), InputHash(s, p), ready)
  {
    var t := p.cmd.target;
    NewKeyFindsNothing(s, p.actor, PUBLISH, p.cmd.key);
    CandidateIs(s, t, p.actor, p.scope, p.today);
    CandidateHolds(s, t, p.scope, p.today);
    IdleIff(s, t.doc);
    ReusesIff(s, p);
    ready := FirstReusable(s.gens, t.version, t.rev, InputHash(s, p), p.index.value);
    hide FindOp, NewKey, PublicationCandidate, PublicationConfirmation, PendingOn, Idle, Publishable, FirstReusable,
      Reuses, PublicationResult, InsertPublication;
  }

  lemma CandidateHolds(s: State, t: Target, scope: Scope, today: int)
    requires Shown(s, t, scope)
    ensures var record := PublicationCandidate(s, t.doc, t.version, t.rev, scope, today).value;
            && record.revision.citation == Citation(t.version, s.vers[t.version])
            && record.revision.content == s.revs[RevKey(t.version, t.rev)]
  {
    hide Parsed;
  }

  lemma InsertedRows(s: State, p: PublishCall, ready: Option<GenId>)
    requires PublicationGuards(s, p)
    requires ready.Some? <==> exists g: GenId :: Reuses(s, p, g)
    requires ready.Some? ==> Reuses(s, p, ready.value)
    ensures PublicationRows(s, p, InsertPublication(s, p, Shows(s, p.cmd.target, p.actor), InputHash(s, p), ready))
  {
    hide NewKey, Publishable, Idle, Reuses;
  }

  lemma PublicationRefused(s: State, p: PublishCall)
    requires !PublicationGuards(s, p)
    ensures AcceptPublication(s, p).0 == s
  {
    var t := p.cmd.target;
    NewKeyFindsNothing(s, p.actor, PUBLISH, p.cmd.key);
    CandidateIs(s, t, p.actor, p.scope, p.today);
    IdleIff(s, t.doc);
    if Shown(s, t, p.scope) && p.index.Some? {
      CandidateHolds(s, t, p.scope, p.today);
      ReusesIff(s, p);
    }
    hide FindOp, NewKey, PublicationCandidate, PublicationConfirmation, PendingOn, Idle, Publishable, FirstReusable,
      Reuses, PublicationResult, InsertPublication;
  }

  /**
    * A publication is accepted exactly under its guards: it then reserves the document's next counter value and, unless
    * it reuses a READY generation of the same input, queues one build. Otherwise nothing changes.
    */
  lemma PublicationAccepted(s: State, p: PublishCall)
    ensures var s' := AcceptPublication(s, p).0;
            if PublicationGuards(s, p) then PublicationRows(s, p, s') else s' == s
  {
    hide AcceptPublication, PublicationGuards, PublicationRows, InsertPublication, FirstReusable;
    if PublicationGuards(s, p) {
      var ready := PublicationInserts(s, p);
      InsertedRows(s, p, ready);
    } else {
      PublicationRefused(s, p);
    }
  }

  // --- Retries ---

  // A failed build of the revision that has not been retried.
  ghost predicate Retriable(s: State, r: RetryCall)
    requires Shown(s, r.cmd.target, r.scope) && r.index.Some?
  {
    var t := r.cmd.target;
    && r.cmd.task in s.tasks
    && var task := s.tasks[r.cmd.task];
       && task.version == t.version && task.rev == t.rev && task.kind == INDEX
       && (task.action == PUBLISH || task.action == RETRY_INDEX)
       && (task.state == TaskFailed || task.state == Interrupted) && task.error.Some? && task.attempt < MAX_COUNTER
       && task.op in s.ops && s.ops[task.op].state == OpFailed && task.gen.Some? && task.gen.value in s.gens
       && FailedBuild(s, r, s.gens[task.gen.value]) && SameConfirmation(s, r, s.ops[task.op], task)
       && forall u :: u in s.tasks ==> s.tasks[u].retryOf != Some(r.cmd.task)
  }

  // The failed generation is of the revision as it still is, and of the configured index.
  predicate FailedBuild(s: State, r: RetryCall, gen: Generation)
    requires Shown(s, r.cmd.target, r.scope) && r.index.Some?
  {
    var t := r.cmd.target;
    var content := s.revs[RevKey(t.version, t.rev)];
    && gen.state == GenFailed && gen.built == Generated && gen.version == t.version && gen.rev == t.rev
    && gen.index == r.index.value
    && gen.input == GenHash(t.version, t.rev, Citation(t.version, s.vers[t.version]), content.raw, content.body,
                            content.meta, r.index.value)
  }

  // The original confirmation is in order and about the same text.
  predicate SameConfirmation(s: State, r: RetryCall, o: Operation, task: Task)
    requires Shown(s, r.cmd.target, r.scope)
  {
    var t := r.cmd.target;
    var content := s.revs[RevKey(t.version, t.rev)];
    && ValidConfirmation(o.conf) && o.conf.actor == o.actor && o.conf.action == task.action && o.conf.doc == t.doc
    && o.conf.version == t.version && o.conf.rev == t.rev && o.conf.gen == task.gen && o.conf.task == task.retryOf
    && o.conf.raw == content.raw && o.conf.norm == content.body && o.conf.meta == content.meta
  }

  /** A retry is accepted exactly when all of this holds. */
  ghost predicate RetryGuards(s: State, r: RetryCall) {
    && NewKey(s, r.actor, RETRY_INDEX, r.cmd.key) && Shown(s, r.cmd.target, r.scope) && r.index.Some?
    && Publishable(s, r.cmd.target, r.today) && Retriable(s, r)
    && r.cmd.digest == Shows(s, r.cmd.target, r.actor).(action := RETRY_INDEX, task := Some(r.cmd.task),
                                                        gen := s.tasks[r.cmd.task].gen)
    && s.docs[r.cmd.target.doc].rowVersion < MAX_COUNTER && Idle(s, r.cmd.target.doc)
    && r.op !in s.ops && r.gen !in s.gens && r.task !in s.tasks
  }

  // What an accepted retry leaves behind: one more attempt, on a generation of its own.
  ghost predicate RetryRows(s: State, r: RetryCall, s': State)
    requires RetryGuards(s, r)
  {
    var (t, index) := (r.cmd.target, r.index.value);
    var content := s.revs[RevKey(t.version, t.rev)];
    && OnlyRow(s.ops, s'.ops, r.op) && OnlyRow(s.docs, s'.docs, t.doc)
    && OnlyRow(s.gens, s'.gens, r.gen) && OnlyRow(s.tasks, s'.tasks, r.task)
    && s'.docs[t.doc] == Document(s.docs[t.doc].current, s.docs[t.doc].rowVersion + 1)
    && s'.vers == s.vers && s'.revs == s.revs && s'.chunks == s.chunks && s'.release == s.release
    && s'.catalog == s.catalog
    && s'.ops[r.op] == Operation(r.actor, RETRY_INDEX, t.version, t.rev, r.cmd.key, RetryInput(r.cmd),
                                 Shows(s, t, r.actor).(action := RETRY_INDEX, task := Some(r.cmd.task),
                                                       gen := Some(r.gen)),
                                 OpConfirmed, None, None)
    && s'.tasks[r.task] == Task(r.op, RETRY_INDEX, t.version, t.rev, INDEX, Some(r.gen), Queued, r.owner,
                                s.tasks[r.cmd.task].attempt + 1, Some(r.cmd.task), None)
    && s'.gens[r.gen] == Generation(t.version, t.rev, index,
                                    GenHash(t.version, t.rev, Citation(t.version, s.vers[t.version]), content.raw,
                                            content.body, content.meta, index),
                                    Generated, r.now, Building, 0, None)
  }

  lemma SourceIs(s: State, r: RetryCall)
    requires Shown(s, r.cmd.target, r.scope) && r.index.Some?
    ensures var conf := RetrySource(s, r.cmd.target, r.cmd.task, r.actor, r.scope, r.index.value, r.today);
            && (conf.Ok? <==> Publishable(s, r.cmd.target, r.today) && Retriable(s, r)
                              && s.docs[r.cmd.target.doc].rowVersion < MAX_COUNTER && Idle(s, r.cmd.target.doc))
            && (conf.Ok? ==> conf.value == Shows(s, r.cmd.target, r.actor).(action := RETRY_INDEX,
                                                                            task := Some(r.cmd.task),
                                                                            gen := s.tasks[r.cmd.task].gen))
  {
    var t := r.cmd.target;
    CandidateIs(s, t, r.actor, r.scope, r.today);
    CandidateHolds(s, t, r.scope, r.today);
    CandidateRow(s, t, r.scope, r.today);
    IdleIff(s, t.doc);
    RetriedIff(s, r.cmd.task);
    ShowsHolds(s, t, r.actor);
    hide PublicationCandidate, PublicationConfirmation, PendingOn, Idle, Publishable, HasRetry;
  }

  lemma ShowsHolds(s: State, t: Target, actor: Actor)
    requires t.doc in s.docs && RevKey(t.version, t.rev) in s.revs
    ensures var content := s.revs[RevKey(t.version, t.rev)];
            && Shows(s, t, actor).raw == content.raw && Shows(s, t, actor).norm == content.body
            && Shows(s, t, actor).meta == content.meta
  {
  }

  lemma CandidateRow(s: State, t: Target, scope: Scope, today: int)
    requires Shown(s, t, scope)
    ensures var record := PublicationCandidate(s, t.doc, t.version, t.rev, scope, today).value;
            record.revision.row == s.docs[t.doc].rowVersion
  {
    hide Parsed;
  }

  lemma RetriedIff(s: State, t: TaskId)
    ensures HasRetry(s.tasks, t) <==> exists u :: u in s.tasks && s.tasks[u].retryOf == Some(t)
  {
  }

  function RetryHash(s: State, r: RetryCall): GenHash
    requires Shown(s, r.cmd.target, r.scope) && r.index.Some?
  {
    var t := r.cmd.target;
    HashOf(t.version, t.rev, Citation(t.version, s.vers[t.version]), s.revs[RevKey(t.version, t.rev)], r.index.value)
  }

  lemma RetryInserts(s: State, r: RetryCall)
    requires RetryGuards(s, r)
    ensures AcceptRetry(s, r).0
            == InsertRetry(s, r, r.cmd.digest, RetryHash(s, r), s.tasks[r.cmd.task].attempt + 1)
  {
    NewKeyFindsNothing(s, r.actor, RETRY_INDEX, r.cmd.key);
    SourceIs(s, r);
    hide FindOp, NewKey, RetrySource, Idle, Publishable, RetryResult, FailedBuild, SameConfirmation, InsertRetry;
  }

  lemma InsertedRetryRows(s: State, r: RetryCall)
    requires RetryGuards(s, r)
    ensures RetryRows(s, r, InsertRetry(s, r, r.cmd.digest, RetryHash(s, r), s.tasks[r.cmd.task].attempt + 1))
  {
    hide NewKey, Publishable, Idle, FailedBuild, SameConfirmation;
  }

  lemma RetryRefused(s: State, r: RetryCall)
    requires !RetryGuards(s, r)
    ensures AcceptRetry(s, r).0 == s
  {
    NewKeyFindsNothing(s, r.actor, RETRY_INDEX, r.cmd.key);
    if Shown(s, r.cmd.target, r.scope) && r.index.Some? {
      SourceIs(s, r);
    }
    hide FindOp, NewKey, RetrySource, Idle, Publishable, RetryResult, Retriable, InsertRetry;
  }

  /** A retry is accepted exactly under its guards, as one more attempt at the failed task; else nothing changes. */
  lemma RetryAccepted(s: State, r: RetryCall)
    ensures if RetryGuards(s, r) then RetryRows(s, r, AcceptRetry(s, r).0) else AcceptRetry(s, r).0 == s
  {
    hide AcceptRetry, RetryGuards, RetryRows, InsertRetry;
    if RetryGuards(s, r) {
      RetryInserts(s, r);
      InsertedRetryRows(s, r);
    } else {
      RetryRefused(s, r);
    }
  }

  // --- Uploads ---

  // The document that an upload goes to is still as the user saw it, and has room.
  predicate Untouched(s: State, cmd: UploadCommand) {
    && cmd.doc.Some? && cmd.doc.value in s.docs && s.docs[cmd.doc.value].rowVersion == cmd.expectedRow < MAX_COUNTER
  }

  // A new document, a new version of a document, or a new revision of a draft.
  ghost predicate Goes(s: State, cmd: UploadCommand, plan: UploadPlan) {
    if cmd.doc.None? then
      && plan.newDocument && plan.newVersion && plan.doc !in s.docs && plan.version !in s.vers && plan.rev == 1
    else if cmd.version.None? then
      && Untouched(s, cmd) && !plan.newDocument && plan.newVersion && plan.doc == cmd.doc.value
      && plan.version !in s.vers && plan.rev == 1
      && forall v :: v in s.vers && s.vers[v].doc == cmd.doc.value ==> s.vers[v].spec != cmd.meta.spec
    else
      && Untouched(s, cmd) && !plan.newDocument && !plan.newVersion && plan.doc == cmd.doc.value
      && plan.version == cmd.version.value && plan.version in s.vers
      && var v := s.vers[plan.version];
         v.doc == plan.doc && v.state == Draft && v.currentRev == cmd.expectedRev && v.spec == cmd.meta.spec
           && plan.rev == v.currentRev + 1
  }

  /** An upload is accepted exactly when all of this holds. */
  ghost predicate UploadGuards(s: State, u: UploadCall) {
    && NewKey(s, u.actor, UPLOAD, u.cmd.key) && Goes(s, u.cmd, u.plan)
    && RevKey(u.plan.version, u.plan.rev) !in s.revs && u.op !in s.ops && u.task !in s.tasks
  }

  // Rows other than the new one stay as they are, unless they belong to unfinished work that ends.
  ghost predicate EndsOps(a: map<OpId, Operation>, b: map<OpId, Operation>, v: VerId, ends: bool, o: OpId) {
    && b.Keys == a.Keys + {o}
    && forall x :: x in a && x != o ==>
         b[x] == if ends && a[x].version == v && ActiveOp(a[x]) then a[x].(state := OpStale, error := Some(StaleInput))
                 else a[x]
  }

  ghost predicate EndsTasks(a: map<TaskId, Task>, b: map<TaskId, Task>, v: VerId, ends: bool, t: TaskId) {
    && b.Keys == a.Keys + {t}
    && forall x :: x in a && x != t ==>
         b[x] == if ends && a[x].version == v && ActiveTask(a[x])
                 then a[x].(state := TaskStale, error := Some(StaleInput)) else a[x]
  }

  ghost predicate EndsGens(a: map<GenId, Generation>, b: map<GenId, Generation>, v: VerId, ends: bool) {
    && b.Keys == a.Keys
    && forall x :: x in a ==>
         b[x] == if ends && a[x].version == v && a[x].state == Building
                 then a[x].(state := GenFailed, error := Some(StaleInput)) else a[x]
  }

  // A new revision ends all unfinished work on its version; a new version has none.
  ghost predicate EndsWork(s: State, u: UploadCall, s': State) {
    && EndsOps(s.ops, s'.ops, u.plan.version, !u.plan.newVersion, u.op)
    && EndsTasks(s.tasks, s'.tasks, u.plan.version, !u.plan.newVersion, u.task)
    && EndsGens(s.gens, s'.gens, u.plan.version, !u.plan.newVersion)
  }

  // The tables that only get rows.
  ghost predicate UploadTables(s: State, u: UploadCall, s': State)
    requires UploadGuards(s, u)
  {
    var p := u.plan;
    && OnlyRow(s.docs, s'.docs, p.doc) && OnlyRow(s.vers, s'.vers, p.version)
    && OnlyRow(s.revs, s'.revs, RevKey(p.version, p.rev))
    && s'.chunks == s.chunks && s'.release == s.release && s'.catalog == s.catalog
    && s'.docs[p.doc] == (if p.newDocument then Document(None, 1)
                          else Document(s.docs[p.doc].current, s.docs[p.doc].rowVersion + 1))
    && s'.vers[p.version] == (if p.newVersion then Version(p.doc, u.cmd.meta.spec, Uploaded, 1, Draft, None, None)
                              else s.vers[p.version].(currentRev := s.vers[p.version].currentRev + 1))
    && s'.revs[RevKey(p.version, p.rev)] == Revision(u.raw, u.format, u.cmd.meta, None)
  }

  // What an accepted upload leaves behind: an unparsed revision, its finished operation, and a queued parse.
  ghost predicate UploadRows(s: State, u: UploadCall, s': State)
    requires UploadGuards(s, u)
  {
    var p := u.plan;
    && UploadTables(s, u, s') && EndsWork(s, u, s')
    && s'.ops[u.op] == Operation(u.actor, UPLOAD, p.version, p.rev, u.cmd.key, UploadInput(u.cmd, u.raw),
                                 Confirmation(u.actor, UPLOAD, p.doc, p.version, p.rev, u.raw, None, u.cmd.meta, p.row,
                                              p.previous, None, None),
                                 OpSucceeded, Some(p.version), None)
    && s'.tasks[u.task] == Task(u.op, UPLOAD, p.version, p.rev, PARSE, None, Queued, u.owner, 1, None, None)
  }

  // The document, and the draft when one is named, are still as the user saw them.
  ghost predicate AsSeen(s: State, cmd: UploadCommand) {
    cmd.doc.Some? ==>
      && cmd.doc.value in s.docs && s.docs[cmd.doc.value].rowVersion == cmd.expectedRow
      && if cmd.version.None?
         then forall v :: v in s.vers && s.vers[v].doc == cmd.doc.value ==> s.vers[v].spec != cmd.meta.spec
         else
           && cmd.version.value in s.vers
           && var v := s.vers[cmd.version.value];
              v.doc == cmd.doc.value && v.state == Draft && v.currentRev == cmd.expectedRev && v.spec == cmd.meta.spec
  }

  /**
    * A plan is made exactly for what is as the user saw it. With identities that are not taken, and with room, it is
    * accepted in the same state, and it names the current version of the document.
    */
  lemma PlanIsMade(s: State, cmd: UploadCommand, newDoc: DocId, newVersion: VerId)
    requires ValidCommand(cmd) && newDoc !in s.docs && newVersion !in s.vers
    ensures var plan := PlanUpload(s, cmd, newDoc, newVersion);
            && (plan.Ok? <==> AsSeen(s, cmd))
            && (plan.Ok? && (cmd.doc.Some? ==> s.docs[cmd.doc.value].rowVersion < MAX_COUNTER) ==>
                  Goes(s, cmd, plan.value))
            && (plan.Ok? ==>
                  && plan.value.row == (if cmd.doc.None? then 0 else s.docs[cmd.doc.value].rowVersion)
                  && plan.value.previous == if cmd.doc.None? then None else s.docs[cmd.doc.value].current)
  {
  }

  lemma RefusalIff(s: State, u: UploadCall)
    requires ValidCommand(u.cmd) && PlanMatches(u.cmd, u.plan)
    ensures UploadRefusal(s, u).None? <==>
            && Goes(s, u.cmd, u.plan) && RevKey(u.plan.version, u.plan.rev) !in s.revs && u.op !in s.ops
            && u.task !in s.tasks
  {
  }

  lemma UploadInserts(s: State, u: UploadCall)
    requires ValidCommand(u.cmd) && PlanMatches(u.cmd, u.plan)
    ensures AcceptUpload(s, u).0
            == if UploadGuards(s, u)
               then InsertUpload(if u.plan.newVersion then s else EndVersion(s, u.plan.version), u) else s
  {
    NewKeyFindsNothing(s, u.actor, UPLOAD, u.cmd.key);
    RefusalIff(s, u);
    hide FindOp, NewKey, UploadRefusal, UploadResult, InsertUpload, EndVersion;
  }

  lemma EndVersionKeeps(s: State, v: VerId)
    ensures var s' := EndVersion(s, v);
            && s'.docs == s.docs && s'.vers == s.vers && s'.revs == s.revs && s'.chunks == s.chunks
            && s'.release == s.release && s'.catalog == s.catalog
  {
    hide EndTasks, EndOps, EndGens, ActiveTasksOn, ActiveOpsOn, BuildingOn;
  }

  lemma EndVersionEnds(s: State, v: VerId, o: OpId, op: Operation, t: TaskId, task: Task)
    ensures EndsOps(s.ops, EndVersion(s, v).ops[o := op], v, true, o)
    ensures EndsTasks(s.tasks, EndVersion(s, v).tasks[t := task], v, true, t)
    ensures EndsGens(s.gens, EndVersion(s, v).gens, v, true)
  {
    OpsEnd(s, v, o, op);
    TasksEnd(s, v, t, task);
    GensEnd(s, v);
    hide EndTasks, EndOps, EndGens, ActiveTasksOn, ActiveOpsOn, BuildingOn, EndsOps, EndsTasks, EndsGens;
  }

  lemma OpsEnd(s: State, v: VerId, o: OpId, op: Operation)
    ensures EndsOps(s.ops, EndOps(s.ops, ActiveOpsOn(s, v), STALE_ENDING)[o := op], v, true, o)
  {
  }

  lemma TasksEnd(s: State, v: VerId, t: TaskId, task: Task)
    ensures EndsTasks(s.tasks, EndTasks(s.tasks, ActiveTasksOn(s, v), STALE_ENDING)[t := task], v, true, t)
  {
  }

  lemma GensEnd(s: State, v: VerId)
    ensures EndsGens(s.gens, EndGens(s.gens, BuildingOn(s, v), STALE_ENDING), v, true)
  {
  }

  lemma NothingEnds(s: State, v: VerId, o: OpId, op: Operation, t: TaskId, task: Task)
    ensures EndsOps(s.ops, s.ops[o := op], v, false, o) && EndsTasks(s.tasks, s.tasks[t := task], v, false, t)
    ensures EndsGens(s.gens, s.gens, v, false)
  {
  }

  lemma UploadEndsWork(s: State, u: UploadCall)
    requires Goes(s, u.cmd, u.plan)
    ensures EndsWork(s, u, InsertUpload(if u.plan.newVersion then s else EndVersion(s, u.plan.version), u))
  {
    GoesSomewhere(s, u);
    EndVersionKeeps(s, u.plan.version);
    EndVersionEnds(s, u.plan.version, u.op, UploadOp(u), u.task, UploadTask(u));
    NothingEnds(s, u.plan.version, u.op, UploadOp(u), u.task, UploadTask(u));
    hide Goes, UploadDocs, UploadVersions, EndVersion, UploadOp, UploadTask, EndsOps, EndsTasks, EndsGens;
  }

  lemma InsertedUploadRows(s: State, u: UploadCall)
    requires UploadGuards(s, u)
    ensures UploadRows(s, u, InsertUpload(if u.plan.newVersion then s else EndVersion(s, u.plan.version), u))
  {
    UploadEndsWork(s, u);
    EndVersionKeeps(s, u.plan.version);
    hide NewKey, EndsWork, EndVersion;
    InsertedUploadTables(s, if u.plan.newVersion then s else EndVersion(s, u.plan.version), u);
  }

  lemma InsertedUploadTables(s: State, s1: State, u: UploadCall)
    requires UploadGuards(s, u) && s1 == s.(ops := s1.ops, tasks := s1.tasks, gens := s1.gens)
    ensures UploadTables(s, u, InsertUpload(s1, u))
    ensures var s' := InsertUpload(s1, u);
            && u.op in s'.ops && s'.ops[u.op] == UploadOp(u) && u.task in s'.tasks && s'.tasks[u.task] == UploadTask(u)
  {
    hide NewKey;
  }

  lemma GoesSomewhere(s: State, u: UploadCall)
    requires Goes(s, u.cmd, u.plan)
    ensures (u.plan.newDocument || u.plan.doc in s.docs) && (u.plan.newVersion || u.plan.version in s.vers)
  {
  }

  /**
    * An upload is accepted exactly under its guards; the revision it adds ends all unfinished work on the same version.
    * Otherwise nothing changes.
    */
  lemma UploadAccepted(s: State, u: UploadCall)
    requires ValidCommand(u.cmd) && PlanMatches(u.cmd, u.plan)
    ensures if UploadGuards(s, u) then UploadRows(s, u, AcceptUpload(s, u).0) else AcceptUpload(s, u).0 == s
  {
    hide AcceptUpload, UploadGuards, UploadRows, InsertUpload, EndVersion;
    UploadInserts(s, u);
    if UploadGuards(s, u) {
      InsertedUploadRows(s, u);
    }
  }

  // --- Disables ---

  // The version is the current one of its document, on the revision it was published with.
  predicate Current(s: State, t: Target)
    requires t.doc in s.docs && t.version in s.vers && RevKey(t.version, t.rev) in s.revs
  {
    var v := s.vers[t.version];
    && v.state == Published && s.docs[t.doc].current == Some(t.version) && s.docs[t.doc].rowVersion == t.row
    && v.publishedRev == Some(t.rev) && v.currentRev == t.rev && v.publishedGen.Some?
    && s.revs[RevKey(t.version, t.rev)].meta.spec == v.spec && s.revs[RevKey(t.version, t.rev)].body.Some?
  }

  /** A disable is accepted exactly when all of this holds. */
  ghost predicate DisableGuards(s: State, cmd: DisableCommand, actor: Actor, scope: Scope, opId: OpId) {
    var t := cmd.target;
    && NewKey(s, actor, DISABLE, cmd.key) && Shown(s, t, scope) && Current(s, t)
    && cmd.digest == Shows(s, t, actor).(action := DISABLE, gen := s.vers[t.version].publishedGen)
    && s.docs[t.doc].rowVersion < MAX_COUNTER && s.release < MAX_COUNTER && opId !in s.ops
  }

  // A publication or retry in flight on the document.
  predicate PendingOp(s: State, o: OpId, d: DocId) {
    && o in s.ops && (s.ops[o].action == PUBLISH || s.ops[o].action == RETRY_INDEX)
    && (s.ops[o].state == OpConfirmed || s.ops[o].state == OpExecuting)
    && s.ops[o].version in s.vers && s.vers[s.ops[o].version].doc == d
  }

  // What an accepted disable leaves behind: no current version, and no work in flight on the document.
  ghost predicate DisableRows(s: State, cmd: DisableCommand, actor: Actor, scope: Scope, opId: OpId, s': State)
    requires DisableGuards(s, cmd, actor, scope, opId)
  {
    var t := cmd.target;
    && OnlyRow(s.docs, s'.docs, t.doc) && OnlyRow(s.vers, s'.vers, t.version)
    && s'.docs[t.doc] == Document(None, s.docs[t.doc].rowVersion + 1)
    && s'.vers[t.version] == s.vers[t.version].(state := Disabled)
    && s'.revs == s.revs && s'.chunks == s.chunks && s'.release == s.release + 1 && s'.catalog == s.catalog
    && s'.ops.Keys == s.ops.Keys + {opId} && s'.tasks.Keys == s.tasks.Keys && s'.gens.Keys == s.gens.Keys
    && s'.ops[opId] == Operation(actor, DISABLE, t.version, t.rev, cmd.key, DisableInput(cmd), cmd.digest, OpSucceeded,
                                 Some(t.version), None)
    && (forall o :: o in s.ops ==>
          s'.ops[o] == if PendingOp(s, o, t.doc) then s.ops[o].(state := OpStale, error := Some(StaleInput))
                       else s.ops[o])
    && (forall k :: k in s.tasks ==>
          s'.tasks[k] == if PendingOp(s, s.tasks[k].op, t.doc) && s.tasks[k].kind == INDEX && ActiveTask(s.tasks[k])
                         then s.tasks[k].(state := TaskStale, error := Some(StaleInput)) else s.tasks[k])
    && (forall g :: g in s.gens ==>
          s'.gens[g] == if s.gens[g].state == Building && BuiltByPending(s, g, t.doc)
                        then s.gens[g].(state := GenFailed, error := Some(StaleInput)) else s.gens[g])
  }

  ghost predicate BuiltByPending(s: State, g: GenId, d: DocId) {
    exists k :: k in s.tasks && s.tasks[k].kind == INDEX && s.tasks[k].gen == Some(g) && PendingOp(s, s.tasks[k].op, d)
  }

  lemma SnapshotIs(s: State, t: Target, actor: Actor)
    requires t.doc in s.docs && t.version in s.vers && RevKey(t.version, t.rev) in s.revs
    ensures DisableSnapshot(s, t, actor).Ok? <==> Current(s, t)
    ensures Current(s, t) ==>
              DisableSnapshot(s, t, actor).value
                == Shows(s, t, actor).(action := DISABLE, gen := s.vers[t.version].publishedGen)
  {
  }

  lemma DisableWithdraws(s: State, cmd: DisableCommand, actor: Actor, scope: Scope, opId: OpId)
    ensures Disable(s, cmd, actor, scope, opId).0
            == if DisableGuards(s, cmd, actor, scope, opId)
               then WithdrawVersion(InvalidatePending(s, cmd.target.doc), cmd.target.doc, opId, cmd.key,
                                    DisableInput(cmd), cmd.digest)
               else s
  {
    var t := cmd.target;
    NewKeyFindsNothing(s, actor, DISABLE, cmd.key);
    if Shown(s, t, scope) {
      SnapshotIs(s, t, actor);
    }
    hide FindOp, NewKey, DisableSnapshot, Current, DisableReceiptOf, InvalidatePending, WithdrawVersion;
  }

  lemma PendingIs(s: State, d: DocId)
    ensures forall o :: o in PendingOps(s, d) <==> PendingOp(s, o, d)
    ensures forall k :: k in PendingTasks(s, PendingOps(s, d)) <==>
                        k in s.tasks && PendingOp(s, s.tasks[k].op, d) && s.tasks[k].kind == INDEX
                        && ActiveTask(s.tasks[k])
    ensures forall g :: g in PendingGens(s, PendingOps(s, d)) <==>
                        g in s.gens && s.gens[g].state == Building && BuiltByPending(s, g, d)
  {
  }

  lemma WithdrawnRows(s: State, cmd: DisableCommand, actor: Actor, scope: Scope, opId: OpId)
    requires DisableGuards(s, cmd, actor, scope, opId)
    ensures DisableRows(s, cmd, actor, scope, opId,
                        WithdrawVersion(InvalidatePending(s, cmd.target.doc), cmd.target.doc, opId, cmd.key,
                                        DisableInput(cmd), cmd.digest))
  {
    PendingIs(s, cmd.target.doc);
    hide NewKey, PendingOps, PendingTasks, PendingGens, PendingOp, BuiltByPending;
  }

  /**
    * A disable is accepted exactly under its guards; it withdraws the version and ends all work in flight on its
    * document. Otherwise nothing changes.
    */
  lemma DisableAccepted(s: State, cmd: DisableCommand, actor: Actor, scope: Scope, opId: OpId)
    ensures var s' := Disable(s, cmd, actor, scope, opId).0;
            if DisableGuards(s, cmd, actor, scope, opId) then DisableRows(s, cmd, actor, scope, opId, s') else s' == s
  {
    hide Disable, DisableGuards, DisableRows, WithdrawVersion, InvalidatePending;
    DisableWithdraws(s, cmd, actor, scope, opId);
    if DisableGuards(s, cmd, actor, scope, opId) {
      WithdrawnRows(s, cmd, actor, scope, opId);
    }
  }
}
