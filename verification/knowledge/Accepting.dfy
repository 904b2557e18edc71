/**
  * Accepting a publication or a retry: the checks made inside the transaction establish exactly what the insertion of
  * the operation, the generation and the task needs.
  */
module KnowledgeAccepting {
  import opened Wrappers
  import opened KnowledgeTypes
  import opened KnowledgeSteps
  import opened KnowledgeInvariant
  import opened KnowledgeMonotone
  import opened KnowledgeBuilding

  // A confirmation that binds the current draft revision of a document.
  ghost predicate Binds(s: State, conf: Confirmation) {
    && conf.doc in s.docs && conf.version in s.vers && s.vers[conf.version].doc == conf.doc
    && s.vers[conf.version].state == Draft && s.vers[conf.version].currentRev == conf.rev
    && RevKey(conf.version, conf.rev) in s.revs && ValidConfirmation(conf)
    && var content := s.revs[RevKey(conf.version, conf.rev)];
       content.body.Some? && conf.raw == content.raw && conf.norm == content.body && conf.meta == content.meta
  }

  lemma ConfirmationBinds(s: State, target: Target, actor: Actor, scope: Scope, today: int)
    requires PublicationCandidate(s, target.doc, target.version, target.rev, scope, today).Ok?
    requires PublicationConfirmation(PublicationCandidate(s, target.doc, target.version, target.rev, scope,
                                                          today).value, target, actor).Ok?
    ensures var conf := PublicationConfirmation(PublicationCandidate(s, target.doc, target.version, target.rev, scope,
                                                                     today).value, target, actor).value;
            && Binds(s, conf) && conf.actor == actor && conf.action == PUBLISH && conf.task.None? && conf.gen.None?
            && conf.doc == target.doc && conf.version == target.version && conf.rev == target.rev
            && conf.expectedRow == target.row == s.docs[target.doc].rowVersion
               && conf.previous == s.docs[target.doc].current
  {
  }

  lemma NothingPending(s: State, conf: Confirmation)
    requires Binds(s, conf) && !PendingOn(s, conf.doc)
    ensures forall o :: o in s.ops && ActiveOp(s.ops[o]) ==> !SameDoc(s.vers, s.ops[o].version, conf.version)
  {
  }

  // What both acceptances have checked.
  ghost predicate Acceptable(s: State, opId: OpId, key: Key, conf: Confirmation) {
    && Binds(s, conf) && IsBuildAction(conf.action) && !PendingOn(s, conf.doc) && opId !in s.ops
    && s.docs[conf.doc].rowVersion < MAX_COUNTER
    && forall o :: !HasKey(s.ops, o, conf.actor, conf.action, key)
  }

  lemma AcceptableInserts(s: State, opId: OpId, key: Key, input: Input, conf: Confirmation, gens': Gens)
    requires Acceptable(s, opId, key, conf) && conf.gen.Some? && conf.gen.value in gens'
    requires gens'[conf.gen.value].version == conf.version && gens'[conf.gen.value].rev == conf.rev
    ensures OpInsertable(s, opId, BuildOp(key, input, conf), gens')
  {
    NothingPending(s, conf);
    hide PendingOn;
  }

  lemma AcceptableBuilds(s: State, opId: OpId, key: Key, input: Input, conf: Confirmation, index: Index, now: nat,
                         genId: GenId, taskId: TaskId, owner: Owner, attempt: nat)
    requires Acceptable(s, opId, key, conf) && conf.gen == Some(genId) && genId !in s.gens && taskId !in s.tasks
             && s.chunks.Keys <= s.gens.Keys
    requires if conf.action == PUBLISH then attempt == 1
             else ParentOk(s.tasks, BuildTask(opId, conf, owner, attempt)) && !HasRetry(s.tasks, conf.task.value)
    ensures var hash := HashOf(conf.version, conf.rev, Citation(conf.version, s.vers[conf.version]),
                               s.revs[RevKey(conf.version, conf.rev)], index);
            BuildInsertable(s, opId, BuildOp(key, input, conf), genId, BuildGen(conf, hash, now), taskId,
                            BuildTask(opId, conf, owner, attempt))
  {
    var hash := HashOf(conf.version, conf.rev, Citation(conf.version, s.vers[conf.version]),
                       s.revs[RevKey(conf.version, conf.rev)], index);
    var gen := BuildGen(conf, hash, now);
    AcceptableInserts(s, opId, key, input, conf, s.gens[genId := gen]);
    hide PendingOn, OpInsertable, HasRetry;
    assert GenOk(s.vers, s.revs, s.chunks, genId, gen);
  }

  lemma PublishCheckAccepts(s: State, p: PublishCall)
    requires PublishCheck(s, p).Ok? && FindOp(s.ops, p.actor, PUBLISH, p.cmd.key).None? && p.op !in s.ops
    ensures var (record, conf) := PublishCheck(s, p).value;
            && Acceptable(s, p.op, p.cmd.key, conf) && conf.doc in s.docs && conf.action == PUBLISH
               && conf.actor == p.actor && conf.task.None?
            && p.index.Some? && conf.doc == p.cmd.target.doc && conf.expectedRow == s.docs[conf.doc].rowVersion
            && conf.previous == s.docs[conf.doc].current
            && record.revision.citation == Citation(conf.version, s.vers[conf.version])
            && record.revision.content == s.revs[RevKey(conf.version, conf.rev)]
  {
    ConfirmationBinds(s, p.cmd.target, p.actor, p.scope, p.today);
    hide PublicationConfirmation, PendingOn, Binds;
  }

  lemma WithGen(s: State, opId: OpId, key: Key, conf: Confirmation, g: GenId)
    requires Acceptable(s, opId, key, conf)
    ensures Acceptable(s, opId, key, conf.(gen := Some(g)))
  {
    hide PendingOn;
  }

  lemma InsertPublicationKeeps(s: State, p: PublishCall, conf: Confirmation, hash: GenHash, ready: Option<GenId>,
                               s': State)
    requires Inv(s) && Acceptable(s, p.op, p.cmd.key, conf) && conf.action == PUBLISH && conf.task.None?
             && p.index.Some?
    requires hash == HashOf(conf.version, conf.rev, Citation(conf.version, s.vers[conf.version]),
                            s.revs[RevKey(conf.version, conf.rev)], p.index.value)
    requires ready.Some? ==> Reusable(s.gens, ready.value, conf.version, conf.rev, hash, p.index.value)
    requires ready.None? ==> p.gen !in s.gens && p.task !in s.tasks
    requires s' == InsertPublication(s, p, conf, hash, ready)
    ensures Inv(s') && Monotone(s, s')
  {
    hide Inv, Acceptable, OpInsertable, BuildInsertable, Monotone;
    var g := if ready.Some? then ready.value else p.gen;
    var stored := conf.(gen := Some(g));
    WithGen(s, p.op, p.cmd.key, conf, g);
    var row := BuildOp(p.cmd.key, PublishInput(p.cmd), stored);
    if ready.Some? {
      AcceptableInserts(s, p.op, p.cmd.key, PublishInput(p.cmd), stored, s.gens);
      InsertOpKeeps(s, p.op, row, s');
    } else {
      ChunksHaveGens(s);
      AcceptableBuilds(s, p.op, p.cmd.key, PublishInput(p.cmd), stored, p.index.value, p.now, p.gen, p.task, p.owner,
                       1);
      InsertBuildKeeps(s, p.op, row, p.gen, BuildGen(stored, hash, p.now), p.task, BuildTask(p.op, stored, p.owner, 1),
                       s');
    }
  }

  lemma ChunksHaveGens(s: State)
    requires Inv(s)
    ensures s.chunks.Keys <= s.gens.Keys
  {
  }

  lemma AcceptPublicationKeeps(s: State, p: PublishCall)
    requires Inv(s)
    ensures Inv(AcceptPublication(s, p).0) && Monotone(s, AcceptPublication(s, p).0)
  {
    hide Inv, Monotone, PublishCheck, InsertPublication, PublicationResult, Acceptable, Reusable;
    MonotoneSame(s);
    if FindOp(s.ops, p.actor, PUBLISH, p.cmd.key).None? && PublishCheck(s, p).Ok? && p.op !in s.ops {
      PublishCheckAccepts(s, p);
      var (record, conf) := PublishCheck(s, p).value;
      var hash := HashOf(conf.version, conf.rev, record.revision.citation, record.revision.content, p.index.value);
      var ready := FirstReusable(s.gens, conf.version, conf.rev, hash, p.index.value);
      if ready.Some? || (p.gen !in s.gens && p.task !in s.tasks) {
        InsertPublicationKeeps(s, p, conf, hash, ready, InsertPublication(s, p, conf, hash, ready));
      }
    }
  }

  lemma RetrySourceAccepts(s: State, r: RetryCall)
    requires r.index.Some?
    requires RetrySource(s, r.cmd.target, r.cmd.task, r.actor, r.scope, r.index.value, r.today).Ok?
    requires FindOp(s.ops, r.actor, RETRY_INDEX, r.cmd.key).None? && r.op !in s.ops
    ensures var conf := RetrySource(s, r.cmd.target, r.cmd.task, r.actor, r.scope, r.index.value, r.today).value;
            && Acceptable(s, r.op, r.cmd.key, conf) && conf.doc in s.docs && conf.action == RETRY_INDEX
               && conf.task == Some(r.cmd.task) && conf.actor == r.actor
            && conf.doc == r.cmd.target.doc && conf.version == r.cmd.target.version && conf.rev == r.cmd.target.rev
            && conf.expectedRow == s.docs[conf.doc].rowVersion && conf.previous == s.docs[conf.doc].current
            && r.cmd.task in s.tasks && !HasRetry(s.tasks, r.cmd.task)
            && ParentOk(s.tasks, BuildTask(r.op, conf, r.owner, s.tasks[r.cmd.task].attempt + 1))
  {
    ConfirmationBinds(s, r.cmd.target, r.actor, r.scope, r.today);
    hide PublicationConfirmation, PendingOn, HasRetry;
  }

  lemma InsertRetryKeeps(s: State, r: RetryCall, conf: Confirmation, hash: GenHash, attempt: nat, s': State)
    requires Inv(s) && Acceptable(s, r.op, r.cmd.key, conf) && conf.action == RETRY_INDEX && r.index.Some?
    requires hash == HashOf(conf.version, conf.rev, Citation(conf.version, s.vers[conf.version]),
                            s.revs[RevKey(conf.version, conf.rev)], r.index.value)
    requires conf.task == Some(r.cmd.task) && !HasRetry(s.tasks, r.cmd.task)
             && ParentOk(s.tasks, BuildTask(r.op, conf, r.owner, attempt))
    requires r.gen !in s.gens && r.task !in s.tasks
    requires s' == InsertRetry(s, r, conf, hash, attempt)
    ensures Inv(s') && Monotone(s, s')
  {
    hide Inv, Acceptable, OpInsertable, BuildInsertable, Monotone, HasRetry;
    var stored := conf.(gen := Some(r.gen));
    WithGen(s, r.op, r.cmd.key, conf, r.gen);
    ChunksHaveGens(s);
    AcceptableBuilds(s, r.op, r.cmd.key, RetryInput(r.cmd), stored, r.index.value, r.now, r.gen, r.task, r.owner,
                     attempt);
    InsertBuildKeeps(s, r.op, BuildOp(r.cmd.key, RetryInput(r.cmd), stored),
                     r.gen, BuildGen(stored, hash, r.now), r.task,
                     BuildTask(r.op, stored, r.owner, attempt), s');
  }

  lemma AcceptRetryKeeps(s: State, r: RetryCall)
    requires Inv(s)
    ensures Inv(AcceptRetry(s, r).0) && Monotone(s, AcceptRetry(s, r).0)
  {
    hide Inv, Monotone, RetrySource, InsertRetry, RetryResult, Acceptable, ParentOk, HasRetry;
    MonotoneSame(s);
    var t := r.cmd.target;
    if FindOp(s.ops, r.actor, RETRY_INDEX, r.cmd.key).None? && r.index.Some?
       && Visible(s, t.doc, t.version, t.rev, r.scope)
       && RetrySource(s, t, r.cmd.task, r.actor, r.scope, r.index.value, r.today).Ok? && r.op !in s.ops {
      RetrySourceAccepts(s, r);
      var conf := RetrySource(s, t, r.cmd.task, r.actor, r.scope, r.index.value, r.today).value;
      if r.gen !in s.gens && r.task !in s.tasks {
        var hash := HashOf(t.version, t.rev, Citation(t.version, s.vers[t.version]), s.revs[RevKey(t.version, t.rev)],
                           r.index.value);
        var attempt := s.tasks[r.cmd.task].attempt + 1;
        InsertRetryKeeps(s, r, conf, hash, attempt, InsertRetry(s, r, conf, hash, attempt));
      }
    }
  }
}
