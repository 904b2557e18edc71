/**
  * Disabling a document withdraws its published version, ends all pending work on the document in the same transaction
  * and keeps the invariant.
  */
module KnowledgeWithdrawing {
  import opened Wrappers
  import opened KnowledgeTypes
  import opened KnowledgeSteps
  import opened KnowledgeInvariant
  import opened KnowledgeMonotone
  import opened KnowledgeKept
  import opened KnowledgeWork
  import opened KnowledgeCounting
  import opened KnowledgeInserting

  // What the snapshot has established before the rows are written.
  ghost predicate Withdrawable(s: State, d: DocId, opId: OpId, key: Key, conf: Confirmation) {
    && d in s.docs && conf.version in s.vers && s.vers[conf.version].doc == d && s.vers[conf.version].state == Published
    && s.docs[d].rowVersion < MAX_COUNTER && RevKey(conf.version, conf.rev) in s.revs
    && s.vers[conf.version].publishedRev == Some(conf.rev) && s.vers[conf.version].publishedGen == conf.gen
    && ValidConfirmation(conf) && conf.action == DISABLE && conf.doc == d
    && opId !in s.ops && forall o :: !HasKey(s.ops, o, conf.actor, DISABLE, key)
  }

  ghost predicate Withdraws(vers: Vers, w: VerId, vers': Vers) {
    && w in vers && vers[w].state == Published && vers' == vers[w := vers[w].(state := Disabled)]
  }

  function DisableOp(key: Key, input: Input, conf: Confirmation): Operation {
    Operation(conf.actor, DISABLE, conf.version, conf.rev, key, input, conf, OpSucceeded, Some(conf.version), None)
  }

  lemma DocsAfterWithdraw(docs: Docs, vers: Vers, w: VerId, vers': Vers, docs': Docs)
    requires Withdraws(vers, w, vers') && DocsOk(docs, vers) && PointersOk(docs, vers) && vers[w].doc in docs
    requires docs[vers[w].doc].rowVersion < MAX_COUNTER
    requires docs' == docs[vers[w].doc := Document(None, docs[vers[w].doc].rowVersion + 1)]
    ensures DocsOk(docs', vers') && PointersOk(docs', vers') && DocsKept(docs, docs')
  {
  }

  lemma VersionsAfterWithdraw(vers: Vers, revs: Revs, gens: Gens, w: VerId, vers': Vers)
    requires Withdraws(vers, w, vers') && VersOk(vers, revs, gens) && RevsOk(vers, revs) && SpecsUnique(vers)
    ensures VersOk(vers', revs, gens) && RevsOk(vers', revs) && SpecsUnique(vers')
  {
    SpecsApart(vers);
    assert Sealed(w, vers[w], gens);
  }

  lemma VersionsKeptAfterWithdraw(vers: Vers, w: VerId, vers': Vers)
    requires Withdraws(vers, w, vers')
    ensures VersKept(vers, vers') && VersionsGrow(vers, vers') && SameDocs(vers, vers')
    ensures SealedUploads(vers') == SealedUploads(vers)
    ensures DisabledVersions(vers') == DisabledVersions(vers) + {w} && w !in DisabledVersions(vers)
  {
  }

  lemma OpsAfterWithdraw(s: State, opId: OpId, row: Operation, vers': Vers)
    requires Withdraws(s.vers, row.version, vers') && VersKept(s.vers, vers') && OpsOk(s.vers, s.revs, s.gens, s.ops)
    requires OpOk(vers', s.revs, s.gens, row)
    ensures OpsOk(vers', s.revs, s.gens, s.ops[opId := row])
  {
    OpsOkKept(s.vers, s.revs, s.gens, vers', s.revs, s.gens, s.ops);
    hide VersKept, OpOk;
  }

  lemma IntentsAfterWithdraw(vers: Vers, ops: Ops, opId: OpId, row: Operation, vers': Vers)
    requires Withdraws(vers, row.version, vers') && SameDocs(vers, vers') && opId !in ops && row.action == DISABLE
             && row.state == OpSucceeded
    requires ActiveOk(vers, ops) && OneActive(vers, ops) && KeysUnique(ops)
    requires forall o :: !HasKey(ops, o, row.actor, row.action, row.key)
    ensures var ops' := ops[opId := row];
            ActiveOk(vers', ops') && OneActive(vers', ops') && KeysUnique(ops')
  {
    KeysInsert(ops, opId, row);
    assert forall o :: o in ops && ActiveOp(ops[o]) ==> ops[o].version != row.version;
    hide KeysUnique;
    ActiveInsert(vers, ops, vers', opId, row);
  }

  lemma FinishedAfterWithdraw(vers: Vers, revs: Revs, gens: Gens, ops: Ops, opId: OpId, row: Operation, vers': Vers)
    requires Withdraws(vers, row.version, vers') && opId !in ops && row.action == DISABLE && row.state == OpSucceeded
    requires OpsOk(vers, revs, gens, ops) && FinishedOnce(ops) && SealedByOps(vers, ops)
    ensures FinishedOnce(ops[opId := row]) && SealedByOps(vers', ops[opId := row])
  {
    EachSealed(vers, ops);
    var ops' := ops[opId := row];
    forall o | o in ops && Finished(ops[o], DISABLE)
      ensures ops[o].version != row.version
    {
      assert OpOk(vers, revs, gens, ops[o]);
    }
    hide OpsOk;
    FinishedInsert(ops, opId, row);
    hide FinishedOnce;
    forall v: VerId, action: Action | HasFinished(ops, v, action)
      ensures HasFinished(ops', v, action)
    {
      HasFinishedExtends(ops, ops', v, action);
    }
    assert Finished(ops'[opId], DISABLE);
  }

  lemma LinksAfterWithdraw(s: State, opId: OpId, row: Operation)
    requires opId !in s.ops && row.action == DISABLE
    requires TasksOk(s.ops, s.gens, s.tasks) && RetriesOk(s.ops, s.tasks) && OpsHaveTasks(s.ops, s.gens, s.tasks)
    ensures var ops' := s.ops[opId := row];
            TasksOk(ops', s.gens, s.tasks) && RetriesOk(ops', s.tasks) && OpsHaveTasks(ops', s.gens, s.tasks)
  {
    var ops' := s.ops[opId := row];
    forall t | t in s.tasks
      ensures TaskOk(ops', s.gens, s.tasks[t]) && RetryOk(ops', s.tasks, s.tasks[t])
    {
      assert TaskOk(s.ops, s.gens, s.tasks[t]) && RetryOk(s.ops, s.tasks, s.tasks[t]);
    }
    hide TasksOk, RetriesOk;
    OpsHaveTasksInsert(s.ops, s.gens, s.tasks, opId, row, s.gens, s.tasks);
  }

  lemma CountsAfterWithdraw(s: State, opId: OpId, row: Operation, docs': Docs, vers': Vers)
    requires OpsOk(s.vers, s.revs, s.gens, s.ops) && RowsCounted(s.docs, s.vers, s.ops) && VersionsGrow(s.vers, vers')
             && opId !in s.ops
    requires row.version in vers' && row.action == DISABLE && vers'[row.version].doc in s.docs
    requires docs' == s.docs[vers'[row.version].doc := Document(None, s.docs[vers'[row.version].doc].rowVersion + 1)]
    ensures RowsCounted(docs', vers', s.ops[opId := row])
  {
    EachOp(s.vers, s.revs, s.gens, s.ops);
    assert VersionsKnown(s.vers, s.ops);
    hide OpsOk, VersionsKnown, VersionsGrow, RowsCounted;
    IntentCounted(s.docs, s.vers, s.ops, docs', vers', opId, row, vers'[row.version].doc);
  }

  lemma WithdrawVersions(s: State, d: DocId, opId: OpId, key: Key, input: Input, conf: Confirmation, s': State)
    requires Inv(s) && Withdrawable(s, d, opId, key, conf) && s' == WithdrawVersion(s, d, opId, key, input, conf)
    ensures DocsOk(s'.docs, s'.vers) && PointersOk(s'.docs, s'.vers) && VersOk(s'.vers, s'.revs, s'.gens)
    ensures RevsOk(s'.vers, s'.revs) && SpecsUnique(s'.vers) && ReleaseCounted(s'.release, s'.catalog, s'.vers)
    ensures DocsKept(s.docs, s'.docs) && VersKept(s.vers, s'.vers) && RowsCounted(s'.docs, s'.vers, s'.ops)
  {
    hide DocsOk, PointersOk, VersOk, RevsOk, SpecsUnique, GensOk, EvidenceOk, OpsOk, ActiveOk, OneActive, KeysUnique,
      FinishedOnce, SealedByOps, TasksOk, TasksUnique, ParsesUnique, BuildingOk, OpsHaveTasks, RetriesOk, RetriesUnique,
      RowsCounted, VersKept, DocsKept, VersionsGrow, SealedUploads, DisabledVersions;
    var w := conf.version;
    DocsAfterWithdraw(s.docs, s.vers, w, s'.vers, s'.docs);
    VersionsAfterWithdraw(s.vers, s.revs, s.gens, w, s'.vers);
    VersionsKeptAfterWithdraw(s.vers, w, s'.vers);
    CountsAfterWithdraw(s, opId, DisableOp(key, input, conf), s'.docs, s'.vers);
  }

  lemma WithdrawOps(s: State, d: DocId, opId: OpId, key: Key, input: Input, conf: Confirmation, s': State)
    requires Inv(s) && Withdrawable(s, d, opId, key, conf) && s' == WithdrawVersion(s, d, opId, key, input, conf)
    ensures OpsOk(s'.vers, s'.revs, s'.gens, s'.ops) && ActiveOk(s'.vers, s'.ops) && OneActive(s'.vers, s'.ops)
            && KeysUnique(s'.ops)
    ensures FinishedOnce(s'.ops) && SealedByOps(s'.vers, s'.ops)
    ensures TasksOk(s'.ops, s'.gens, s'.tasks) && RetriesOk(s'.ops, s'.tasks) && OpsHaveTasks(s'.ops, s'.gens, s'.tasks)
  {
    hide DocsOk, PointersOk, VersOk, RevsOk, SpecsUnique, GensOk, EvidenceOk, OpsOk, ActiveOk, OneActive, KeysUnique,
      FinishedOnce, SealedByOps, TasksOk, TasksUnique, ParsesUnique, BuildingOk, OpsHaveTasks, RetriesOk, RetriesUnique,
      RowsCounted, ReleaseCounted, VersKept, SameDocs;
    var row := DisableOp(key, input, conf);
    VersionsKeptAfterWithdraw(s.vers, conf.version, s'.vers);
    assert OpOk(s'.vers, s.revs, s.gens, row);
    OpsAfterWithdraw(s, opId, row, s'.vers);
    IntentsAfterWithdraw(s.vers, s.ops, opId, row, s'.vers);
    FinishedAfterWithdraw(s.vers, s.revs, s.gens, s.ops, opId, row, s'.vers);
    LinksAfterWithdraw(s, opId, row);
  }

  lemma WithdrawKeeps(s: State, d: DocId, opId: OpId, key: Key, input: Input, conf: Confirmation, s': State)
    requires Inv(s) && Withdrawable(s, d, opId, key, conf) && s' == WithdrawVersion(s, d, opId, key, input, conf)
    ensures Inv(s') && Monotone(s, s')
  {
    hide DocsOk, PointersOk, VersOk, RevsOk, SpecsUnique, GensOk, EvidenceOk, OpsOk, ActiveOk, OneActive, KeysUnique,
      FinishedOnce, SealedByOps, TasksOk, TasksUnique, ParsesUnique, BuildingOk, OpsHaveTasks, RetriesOk, RetriesUnique,
      RowsCounted, ReleaseCounted, VersKept, DocsKept;
    WithdrawVersions(s, d, opId, key, input, conf, s');
    WithdrawOps(s, d, opId, key, input, conf, s');
    GensOkKept(s.vers, s.revs, s'.vers, s'.revs, s.gens, s.chunks);
    EvidenceOkKept(s.vers, s.revs, s'.vers, s'.revs, s.gens, s.chunks);
  }

  lemma SnapshotIsWithdrawable(s: State, t: Target, actor: Actor, scope: Scope, opId: OpId, key: Key)
    requires Visible(s, t.doc, t.version, t.rev, scope) && DisableSnapshot(s, t, actor).Ok?
    requires FindOp(s.ops, actor, DISABLE, key).None? && opId !in s.ops && s.docs[t.doc].rowVersion < MAX_COUNTER
    ensures Withdrawable(InvalidatePending(s, t.doc), t.doc, opId, key, DisableSnapshot(s, t, actor).value)
  {
    var s1 := InvalidatePending(s, t.doc);
    hide PendingOps, PendingTasks, PendingGens;
    assert forall o :: HasKey(s1.ops, o, actor, DISABLE, key) ==> HasKey(s.ops, o, actor, DISABLE, key);
  }

  /** A disable keeps the invariant. */
  lemma DisableKeeps(s: State, cmd: DisableCommand, actor: Actor, scope: Scope, opId: OpId)
    requires Inv(s)
    ensures Inv(Disable(s, cmd, actor, scope, opId).0) && Monotone(s, Disable(s, cmd, actor, scope, opId).0)
  {
    hide Inv, Monotone, DisableSnapshot, InvalidatePending, WithdrawVersion, DisableReceiptOf, Withdrawable;
    MonotoneSame(s);
    var t := cmd.target;
    var s' := Disable(s, cmd, actor, scope, opId).0;
    if s' != s {
      var conf := DisableSnapshot(s, t, actor).value;
      var s1 := InvalidatePending(s, t.doc);
      SnapshotIsWithdrawable(s, t, actor, scope, opId, cmd.key);
      InvalidateKeeps(s, t.doc);
      WithdrawFacts(s1, t.doc, opId, cmd.key, conf);
      WithdrawKeeps(s1, t.doc, opId, cmd.key, DisableInput(cmd), conf, s');
      MonotoneTrans(s, s1, s');
    }
  }

  lemma WithdrawFacts(s: State, d: DocId, opId: OpId, key: Key, conf: Confirmation)
    requires Withdrawable(s, d, opId, key, conf)
    ensures d in s.docs && conf.version in s.vers
  {
  }
}
