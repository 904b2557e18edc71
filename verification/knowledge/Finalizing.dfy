/**
  * Finalizing a publication: committing supersedes the current version, publishes the prepared one and moves the
  * pointer of the document in one step; rejecting ends the operation alone. Both keep the invariant.
  */
module KnowledgeFinalizing {
  import opened Wrappers
  import opened KnowledgeTypes
  import opened KnowledgeSteps
  import opened KnowledgeInvariant
  import opened KnowledgeMonotone
  import opened KnowledgeKept
  import opened KnowledgeCounting

  // What the re-check inside the transaction has established.
  ghost predicate Switchable(s: State, opId: OpId, g: GenId) {
    && opId in s.ops && s.ops[opId].action == PUBLISH && ActiveOp(s.ops[opId]) && s.ops[opId].version in s.vers
    && var o := s.ops[opId];
       var v := s.vers[o.version];
       v.doc in s.docs && v.state == Draft && v.currentRev == o.rev && o.conf.gen == Some(g)
       && g in s.gens && s.gens[g].state == Ready && s.gens[g].version == o.version && s.gens[g].rev == o.rev
       && s.docs[v.doc].rowVersion < MAX_COUNTER
  }

  // All index work of the operation has succeeded.
  ghost predicate WorkSucceeded(tasks: Tasks, opId: OpId) {
    forall t :: t in tasks && tasks[t].op == opId && tasks[t].kind == INDEX ==> tasks[t].state == TaskSucceeded
  }

  // How the versions of one document change when one of its drafts is published.
  ghost predicate Switches(vers: Vers, w: VerId, g: GenId, vers': Vers) {
    && w in vers && vers[w].state == Draft && vers'.Keys == vers.Keys
    && vers'[w] == vers[w].(state := Published, publishedRev := Some(vers[w].currentRev), publishedGen := Some(g))
    && forall v :: v in vers && v != w ==>
         vers'[v] == if vers[v].doc == vers[w].doc && vers[v].state == Published then vers[v].(state := Superseded)
           else vers[v]
  }

  lemma SwitchedVersions(s: State, opId: OpId, g: GenId, s': State)
    requires Switchable(s, opId, g) && s' == SwitchVersion(s, opId, g)
    ensures Switches(s.vers, s.ops[opId].version, g, s'.vers)
  {
  }

  lemma DocsAfterSwitch(docs: Docs, vers: Vers, w: VerId, g: GenId, vers': Vers, docs': Docs)
    requires Switches(vers, w, g, vers') && DocsOk(docs, vers) && PointersOk(docs, vers)
    requires vers[w].doc in docs && docs[vers[w].doc].rowVersion < MAX_COUNTER
    requires docs' == docs[vers[w].doc := Document(Some(w), docs[vers[w].doc].rowVersion + 1)]
    ensures DocsOk(docs', vers') && PointersOk(docs', vers') && DocsKept(docs, docs')
  {
  }

  lemma SpecsAfterSwitch(vers: Vers, revs: Revs, w: VerId, g: GenId, vers': Vers)
    requires Switches(vers, w, g, vers') && RevsOk(vers, revs) && SpecsUnique(vers)
    ensures RevsOk(vers', revs) && SpecsUnique(vers')
  {
    SpecsApart(vers);
  }

  lemma VersionsKeptAfterSwitch(vers: Vers, revs: Revs, gens: Gens, w: VerId, g: GenId, vers': Vers)
    requires Switches(vers, w, g, vers') && VersOk(vers, revs, gens)
    ensures VersKept(vers, vers') && VersionsGrow(vers, vers') && vers[w].origin.Uploaded?
  {
    assert Sealed(w, vers[w], gens);
    hide VersOk;
  }

  lemma VersionsAfterSwitch(vers: Vers, revs: Revs, gens: Gens, w: VerId, g: GenId, vers': Vers)
    requires Switches(vers, w, g, vers') && VersOk(vers, revs, gens) && RevsOk(vers, revs) && SpecsUnique(vers)
    requires g in gens && gens[g].state == Ready && gens[g].version == w && gens[g].rev == vers[w].currentRev
    ensures VersOk(vers', revs, gens) && RevsOk(vers', revs) && SpecsUnique(vers')
  {
    assert Sealed(w, vers[w], gens);
    hide SpecsUnique, RevsOk;
    SpecsAfterSwitch(vers, revs, w, g, vers');
    forall v | v in vers'
      ensures vers'[v].currentRev >= 1 && RevKey(v, vers'[v].currentRev) in revs && Sealed(v, vers'[v], gens)
    {
      assert Sealed(v, vers[v], gens);
    }
  }

  lemma ReleaseAfterSwitch(vers: Vers, w: VerId, g: GenId, vers': Vers)
    requires Switches(vers, w, g, vers') && vers[w].origin.Uploaded?
    ensures SealedUploads(vers') == SealedUploads(vers) + {w} && w !in SealedUploads(vers)
    ensures DisabledVersions(vers') == DisabledVersions(vers)
  {
  }

  // One PUBLISH operation succeeds.
  ghost predicate OpSucceeds(ops: Ops, opId: OpId, ops': Ops) {
    && opId in ops && ops[opId].action == PUBLISH && ActiveOp(ops[opId])
    && ops' == ops[opId := ops[opId].(state := OpSucceeded, result := Some(ops[opId].version))]
  }

  lemma OpsAfterSwitch(vers: Vers, revs: Revs, gens: Gens, ops: Ops, opId: OpId, g: GenId, vers': Vers, ops': Ops)
    requires OpSucceeds(ops, opId, ops') && OpsOk(vers, revs, gens, ops) && Switches(vers, ops[opId].version, g, vers')
             && VersKept(vers, vers')
    requires vers[ops[opId].version].currentRev == ops[opId].rev && ops[opId].conf.gen == Some(g)
    ensures OpsOk(vers', revs, gens, ops')
  {
    OpsOkKept(vers, revs, gens, vers', revs, gens, ops);
    assert OpOk(vers', revs, gens, ops[opId]);
    hide VersKept;
    forall o | o in ops'
      ensures OpOk(vers', revs, gens, ops'[o])
    {
      if o != opId {
        assert OpOk(vers', revs, gens, ops[o]);
      }
    }
  }

  lemma ActiveAfterSwitch(vers: Vers, ops: Ops, opId: OpId, g: GenId, vers': Vers, ops': Ops)
    requires OpSucceeds(ops, opId, ops') && Switches(vers, ops[opId].version, g, vers')
    requires ActiveOk(vers, ops) && OneActive(vers, ops) && KeysUnique(ops)
    ensures ActiveOk(vers', ops') && OneActive(vers', ops') && KeysUnique(ops')
  {
    KeysApart(ops);
    forall o | o in ops' && ActiveOp(ops'[o])
      ensures ops[o].version in vers && vers'[ops[o].version] == vers[ops[o].version]
    {
      assert ActiveOp(ops[o]) && o != opId;
      assert !SameDoc(vers, ops[o].version, ops[opId].version);
    }
    forall o, p | o in ops' && p in ops' && ActiveOp(ops'[o]) && ActiveOp(ops'[p])
      && SameDoc(vers', ops'[o].version, ops'[p].version)
      ensures o == p
    {
      assert SameDoc(vers, ops[o].version, ops[p].version);
    }
  }

  lemma FinishedAfterSwitch(vers: Vers, revs: Revs, gens: Gens, ops: Ops, opId: OpId, g: GenId, vers': Vers, ops': Ops)
    requires OpSucceeds(ops, opId, ops') && Switches(vers, ops[opId].version, g, vers') && OpsOk(vers, revs, gens, ops)
    requires FinishedOnce(ops) && SealedByOps(vers, ops)
    ensures FinishedOnce(ops') && SealedByOps(vers', ops')
  {
    EachSealed(vers, ops);
    forall o | o in ops && Finished(ops[o], PUBLISH)
      ensures ops[o].version != ops[opId].version
    {
      assert OpOk(vers, revs, gens, ops[o]);
    }
    hide OpsOk;
    forall v: VerId, action: Action | HasFinished(ops, v, action)
      ensures HasFinished(ops', v, action)
    {
      var o :| o in ops && Finished(ops[o], action) && ops[o].version == v;
      assert o in ops' && Finished(ops'[o], action);
    }
    assert Finished(ops'[opId], PUBLISH);
    forall o, p | o in ops' && p in ops' && FinishedAlike(ops'[o], ops'[p])
      ensures o == p
    {
      if o != opId && p != opId {
        assert FinishedAlike(ops[o], ops[p]);
      }
    }
  }

  lemma TasksAfterSwitch(ops: Ops, gens: Gens, tasks: Tasks, opId: OpId, ops': Ops)
    requires OpSucceeds(ops, opId, ops') && WorkSucceeded(tasks, opId)
    requires TasksOk(ops, gens, tasks) && RetriesOk(ops, tasks) && OpsHaveTasks(ops, gens, tasks)
    ensures TasksOk(ops', gens, tasks) && RetriesOk(ops', tasks) && OpsHaveTasks(ops', gens, tasks)
  {
    EachWork(ops, gens, tasks);
    forall t | t in tasks
      ensures TaskOk(ops', gens, tasks[t]) && RetryOk(ops', tasks, tasks[t])
    {
      assert TaskOk(ops, gens, tasks[t]) && RetryOk(ops, tasks, tasks[t]);
    }
  }

  lemma FinalizedAdded(vers: Vers, ops: Ops, opId: OpId, g: GenId, vers': Vers, ops': Ops, d: DocId)
    requires OpSucceeds(ops, opId, ops') && Switches(vers, ops[opId].version, g, vers')
             && vers[ops[opId].version].origin.Uploaded?
    ensures Intents(vers', ops', d) == Intents(vers, ops, d)
    ensures Finalized(vers', ops', d) == Finalized(vers, ops, d)
            + if vers[ops[opId].version].doc == d then {opId} else {}
    ensures opId !in Finalized(vers, ops, d)
  {
  }

  lemma CountsAfterSwitch(docs: Docs, vers: Vers, ops: Ops, opId: OpId, g: GenId, docs': Docs, vers': Vers, ops': Ops)
    requires OpSucceeds(ops, opId, ops') && Switches(vers, ops[opId].version, g, vers')
             && vers[ops[opId].version].origin.Uploaded?
    requires VersionsGrow(vers, vers') && RowsCounted(docs, vers, ops) && vers[ops[opId].version].doc in docs
    requires docs' == docs[vers[ops[opId].version].doc :=
                           Document(Some(ops[opId].version), docs[vers[ops[opId].version].doc].rowVersion + 1)]
    ensures RowsCounted(docs', vers', ops')
  {
    forall d | d in docs'
      ensures docs'[d].rowVersion == |Intents(vers', ops', d)| + |Finalized(vers', ops', d)|
              + if IsImported(vers', d) then 1 else 0
    {
      FinalizedAdded(vers, ops, opId, g, vers', ops', d);
      ImportedSame(vers, vers', d);
      hide Intents, Finalized, IsImported, Switches, VersionsGrow;
    }
  }

  lemma SwitchVersionTables(s: State, opId: OpId, g: GenId, s': State)
    requires Inv(s) && Switchable(s, opId, g) && s' == SwitchVersion(s, opId, g)
    ensures DocsOk(s'.docs, s'.vers) && PointersOk(s'.docs, s'.vers) && VersOk(s'.vers, s'.revs, s'.gens)
            && RevsOk(s'.vers, s'.revs)
    ensures SpecsUnique(s'.vers) && ReleaseCounted(s'.release, s'.catalog, s'.vers)
            && RowsCounted(s'.docs, s'.vers, s'.ops)
    ensures DocsKept(s.docs, s'.docs) && VersKept(s.vers, s'.vers)
  {
    hide DocsOk, PointersOk, VersOk, RevsOk, SpecsUnique, GensOk, EvidenceOk, OpsOk, ActiveOk, OneActive, KeysUnique,
      FinishedOnce, SealedByOps, TasksOk, TasksUnique, ParsesUnique, BuildingOk, OpsHaveTasks, RetriesOk, RetriesUnique,
      RowsCounted, DocsKept, VersKept, VersionsGrow, SealedUploads, DisabledVersions;
    SwitchedVersions(s, opId, g, s');
    hide Supersede, Switches;
    var w := s.ops[opId].version;
    DocsAfterSwitch(s.docs, s.vers, w, g, s'.vers, s'.docs);
    VersionsAfterSwitch(s.vers, s.revs, s.gens, w, g, s'.vers);
    VersionsKeptAfterSwitch(s.vers, s.revs, s.gens, w, g, s'.vers);
    ReleaseAfterSwitch(s.vers, w, g, s'.vers);
    CountsAfterSwitch(s.docs, s.vers, s.ops, opId, g, s'.docs, s'.vers, s'.ops);
  }

  lemma SwitchOpTables(s: State, opId: OpId, g: GenId, s': State)
    requires Inv(s) && Switchable(s, opId, g) && WorkSucceeded(s.tasks, opId) && s' == SwitchVersion(s, opId, g)
             && VersKept(s.vers, s'.vers)
    ensures OpsOk(s'.vers, s'.revs, s'.gens, s'.ops) && ActiveOk(s'.vers, s'.ops) && OneActive(s'.vers, s'.ops)
            && KeysUnique(s'.ops)
    ensures FinishedOnce(s'.ops) && SealedByOps(s'.vers, s'.ops)
    ensures TasksOk(s'.ops, s'.gens, s'.tasks) && RetriesOk(s'.ops, s'.tasks) && OpsHaveTasks(s'.ops, s'.gens, s'.tasks)
    ensures OpsKept(s.ops, s'.ops)
  {
    hide DocsOk, PointersOk, VersOk, RevsOk, SpecsUnique, GensOk, EvidenceOk, OpsOk, ActiveOk, OneActive, KeysUnique,
      FinishedOnce, SealedByOps, TasksOk, TasksUnique, ParsesUnique, BuildingOk, OpsHaveTasks, RetriesOk, RetriesUnique,
      RowsCounted, ReleaseCounted, VersKept, WorkSucceeded;
    SwitchedVersions(s, opId, g, s');
    hide Supersede, Switches;
    OpsAfterSwitch(s.vers, s.revs, s.gens, s.ops, opId, g, s'.vers, s'.ops);
    ActiveAfterSwitch(s.vers, s.ops, opId, g, s'.vers, s'.ops);
    FinishedAfterSwitch(s.vers, s.revs, s.gens, s.ops, opId, g, s'.vers, s'.ops);
    TasksAfterSwitch(s.ops, s.gens, s.tasks, opId, s'.ops);
  }

  lemma SwitchVersionKeeps(s: State, opId: OpId, g: GenId, s': State)
    requires Inv(s) && Switchable(s, opId, g) && WorkSucceeded(s.tasks, opId) && s' == SwitchVersion(s, opId, g)
    ensures Inv(s') && Monotone(s, s')
  {
    hide DocsOk, PointersOk, VersOk, RevsOk, SpecsUnique, GensOk, EvidenceOk, OpsOk, ActiveOk, OneActive, KeysUnique,
      FinishedOnce, SealedByOps, TasksOk, TasksUnique, ParsesUnique, BuildingOk, OpsHaveTasks, RetriesOk, RetriesUnique,
      RowsCounted, ReleaseCounted, DocsKept, VersKept, OpsKept, WorkSucceeded, Supersede;
    SwitchVersionTables(s, opId, g, s');
    SwitchOpTables(s, opId, g, s');
    GensOkKept(s.vers, s.revs, s'.vers, s'.revs, s.gens, s.chunks);
    EvidenceOkKept(s.vers, s.revs, s'.vers, s'.revs, s.gens, s.chunks);
  }

  /** The guards of finalization establish what the switch needs. */
  lemma PreparedIsSwitchable(s: State, opId: OpId, actor: Actor, scope: Scope, today: int)
    requires FinalRows(s, opId, actor, scope) && Prepared(s, opId, scope, today).Ok?
    requires TasksUnique(s.tasks) && s.docs[s.vers[s.ops[opId].version].doc].rowVersion < MAX_COUNTER
    ensures Switchable(s, opId, Prepared(s, opId, scope, today).value.genId) && WorkSucceeded(s.tasks, opId)
  {
    TasksApart(s.tasks);
    assert TaskOf(s.tasks, opId, INDEX).None? ==> forall t :: t in s.tasks ==> !IsTaskOf(s.tasks, t, opId, INDEX);
  }

  lemma CommitKeeps(s: State, opId: OpId, fingerprint: Fingerprint, actor: Actor, scope: Scope, today: int)
    requires Inv(s)
    ensures Inv(CommitFinalization(s, opId, fingerprint, actor, scope, today).0)
    ensures Monotone(s, CommitFinalization(s, opId, fingerprint, actor, scope, today).0)
  {
    hide Inv, Monotone, TasksUnique, Prepared, SwitchVersion, FinalReceiptOf, PublishedOf, Switchable, WorkSucceeded;
    MonotoneSame(s);
    var s' := CommitFinalization(s, opId, fingerprint, actor, scope, today).0;
    if s' != s {
      TasksAreUnique(s);
      PreparedIsSwitchable(s, opId, actor, scope, today);
      SwitchVersionKeeps(s, opId, Prepared(s, opId, scope, today).value.genId, s');
    }
  }

  lemma TasksAreUnique(s: State)
    requires Inv(s)
    ensures TasksUnique(s.tasks)
  {
  }

  // --- Rejecting ---

  /** When a rejection may run: the operation's index work is absent or has succeeded. */
  ghost predicate RejectGuard(s: State, opId: OpId) {
    opId in s.ops && ActiveOp(s.ops[opId]) ==> WorkSucceeded(s.tasks, opId)
  }

  // One active PUBLISH operation fails without its tasks.
  ghost predicate OpEnds(ops: Ops, opId: OpId, ops': Ops) {
    && opId in ops && opId in ops' && ActiveOp(ops[opId])
       && (ops'[opId].state == OpFailed || ops'[opId].state == OpStale)
    && ops' == ops[opId := ops[opId].(state := ops'[opId].state, error := ops'[opId].error)]
  }

  lemma OpEndsOps(vers: Vers, revs: Revs, gens: Gens, ops: Ops, opId: OpId, ops': Ops)
    requires OpEnds(ops, opId, ops')
    requires OpsOk(vers, revs, gens, ops) && ActiveOk(vers, ops) && OneActive(vers, ops) && KeysUnique(ops)
    ensures OpsOk(vers, revs, gens, ops') && ActiveOk(vers, ops') && OneActive(vers, ops') && KeysUnique(ops')
            && OpsKept(ops, ops')
  {
    KeysApart(ops);
    forall o | o in ops'
      ensures OpOk(vers, revs, gens, ops'[o])
    {
      assert OpOk(vers, revs, gens, ops[o]);
    }
  }

  lemma OpEndsFinished(docs: Docs, vers: Vers, ops: Ops, opId: OpId, ops': Ops)
    requires OpEnds(ops, opId, ops') && FinishedOnce(ops) && SealedByOps(vers, ops) && RowsCounted(docs, vers, ops)
    ensures FinishedOnce(ops') && SealedByOps(vers, ops') && RowsCounted(docs, vers, ops')
  {
    EachSealed(vers, ops);
    forall v, action | HasFinished(ops, v, action)
      ensures HasFinished(ops', v, action)
    {
      var o :| o in ops && Finished(ops[o], action) && ops[o].version == v;
      assert o in ops' && Finished(ops'[o], action);
    }
    forall o, p | o in ops' && p in ops' && FinishedAlike(ops'[o], ops'[p])
      ensures o == p
    {
      assert FinishedAlike(ops[o], ops[p]);
    }
    forall d | d in docs
      ensures Intents(vers, ops', d) == Intents(vers, ops, d) && Finalized(vers, ops', d) == Finalized(vers, ops, d)
    {
    }
  }

  lemma OpEndsTasks(ops: Ops, gens: Gens, tasks: Tasks, opId: OpId, ops': Ops)
    requires OpEnds(ops, opId, ops') && WorkSucceeded(tasks, opId) && ops[opId].action == PUBLISH
    requires TasksOk(ops, gens, tasks) && RetriesOk(ops, tasks) && OpsHaveTasks(ops, gens, tasks)
    ensures TasksOk(ops', gens, tasks) && RetriesOk(ops', tasks) && OpsHaveTasks(ops', gens, tasks)
  {
    EachWork(ops, gens, tasks);
    forall t | t in tasks
      ensures TaskOk(ops', gens, tasks[t]) && RetryOk(ops', tasks, tasks[t])
    {
      assert TaskOk(ops, gens, tasks[t]) && RetryOk(ops, tasks, tasks[t]);
    }
  }

  lemma RejectIsMonotone(s: State, opId: OpId, actor: Actor, scope: Scope, stale: bool)
    ensures Monotone(s, RejectFinalization(s, opId, actor, scope, stale))
  {
    var s' := RejectFinalization(s, opId, actor, scope, stale);
    MonotoneSame(s);
    hide Monotone;
    if s' != s {
      RejectedOps(s.ops, opId, s'.ops);
      RowsSame(s, s');
    }
  }

  lemma RejectedOps(ops: Ops, opId: OpId, ops': Ops)
    requires OpEnds(ops, opId, ops')
    ensures OpsKept(ops, ops')
  {
  }

  lemma RowsSame(s: State, s': State)
    requires OpsKept(s.ops, s'.ops) && s' == s.(ops := s'.ops)
    ensures Monotone(s, s')
  {
  }

  lemma GuardedRejectKeeps(s: State, opId: OpId, actor: Actor, scope: Scope, stale: bool)
    requires Inv(s) && RejectGuard(s, opId)
    ensures Inv(RejectFinalization(s, opId, actor, scope, stale))
  {
    hide DocsOk, PointersOk, VersOk, RevsOk, SpecsUnique, GensOk, EvidenceOk, OpsOk, ActiveOk, OneActive, KeysUnique,
      FinishedOnce, SealedByOps, TasksOk, TasksUnique, ParsesUnique, BuildingOk, OpsHaveTasks, RetriesOk, RetriesUnique,
      RowsCounted, ReleaseCounted, WorkSucceeded;
    var s' := RejectFinalization(s, opId, actor, scope, stale);
    if s' != s {
      assert OpEnds(s.ops, opId, s'.ops);
      hide OpEnds;
      OpEndsOps(s.vers, s.revs, s.gens, s.ops, opId, s'.ops);
      OpEndsFinished(s.docs, s.vers, s.ops, opId, s'.ops);
      OpEndsTasks(s.ops, s.gens, s.tasks, opId, s'.ops);
    }
  }

  // A task that is still at work is left behind by its operation.
  lemma RejectBreaks(ops: Ops, gens: Gens, tasks: Tasks, opId: OpId, ops': Ops)
    requires TasksOk(ops, gens, tasks) && OpEnds(ops, opId, ops') && ops[opId].action == PUBLISH
    requires !WorkSucceeded(tasks, opId)
    ensures !TasksOk(ops', gens, tasks)
  {
    var t :| t in tasks && tasks[t].op == opId && tasks[t].state != TaskSucceeded;
    assert TaskOk(ops, gens, tasks[t]);
    assert !TaskOk(ops', gens, tasks[t]);
  }

  /** Ending an operation without touching its task keeps the invariant exactly when its index work is over. */
  lemma RejectKeeps(s: State, opId: OpId, actor: Actor, scope: Scope, stale: bool)
    requires Inv(s)
    ensures Inv(RejectFinalization(s, opId, actor, scope, stale)) <==>
            (FinalRows(s, opId, actor, scope) ==> RejectGuard(s, opId))
  {
    hide Inv, TasksOk, WorkSucceeded, FinalRows, OpEnds, RejectFinalization;
    if RejectGuard(s, opId) {
      GuardedRejectKeeps(s, opId, actor, scope, stale);
    } else if FinalRows(s, opId, actor, scope) {
      var s' := RejectFinalization(s, opId, actor, scope, stale);
      RejectEnds(s, opId, actor, scope, stale);
      InvTasks(s);
      InvTasks(s');
      RejectBreaks(s.ops, s.gens, s.tasks, opId, s'.ops);
    }
    NoRows(s, opId, actor, scope, stale);
  }

  lemma RejectEnds(s: State, opId: OpId, actor: Actor, scope: Scope, stale: bool)
    requires FinalRows(s, opId, actor, scope) && ActiveOp(s.ops[opId])
    ensures var s' := RejectFinalization(s, opId, actor, scope, stale);
            && s.ops[opId].action == PUBLISH && OpEnds(s.ops, opId, s'.ops) && s'.gens == s.gens && s'.tasks == s.tasks
  {
  }

  lemma NoRows(s: State, opId: OpId, actor: Actor, scope: Scope, stale: bool)
    ensures !FinalRows(s, opId, actor, scope) ==> RejectFinalization(s, opId, actor, scope, stale) == s
  {
    hide FinalRows;
  }

  lemma InvTasks(s: State)
    ensures Inv(s) ==> TasksOk(s.ops, s.gens, s.tasks)
  {
    hide TasksOk;
  }
}
