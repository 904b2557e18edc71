/**
  * Accepting an upload keeps the invariant, whatever plan is presented. The plan was made outside the transaction from
  * what the tables held then; the checks inside establish that its target is still free, and a revision ends the
  * pending work on the version first.
  */
module KnowledgeUpload {
  import opened KnowledgeTypes
  import opened KnowledgeSteps
  import opened KnowledgeInvariant
  import opened KnowledgeMonotone
  import opened KnowledgeKept
  import opened KnowledgeWork
  import opened KnowledgeCounting
  import opened KnowledgeInserting

  // What the checks have established about documents and versions before the rows are written.
  ghost predicate TargetFree(docs: Docs, vers: Vers, revs: Revs, u: UploadCall) {
    && RevKey(u.plan.version, u.plan.rev) !in revs
    && (if u.plan.newDocument then u.plan.newVersion && u.plan.doc !in docs
        else u.plan.doc in docs && docs[u.plan.doc].rowVersion < MAX_COUNTER)
    && (if u.plan.newVersion
        then u.plan.version !in vers && u.plan.rev == 1
             && forall v :: v in vers && vers[v].doc == u.plan.doc ==> vers[v].spec != u.cmd.meta.spec
        else u.plan.version in vers && vers[u.plan.version].doc == u.plan.doc && vers[u.plan.version].state == Draft
             && vers[u.plan.version].currentRev + 1 == u.plan.rev && vers[u.plan.version].spec == u.cmd.meta.spec)
  }

  ghost predicate Insertable(s: State, u: UploadCall) {
    && TargetFree(s.docs, s.vers, s.revs, u) && u.op !in s.ops && u.task !in s.tasks
    && (forall o :: o in s.ops && s.ops[o].version == u.plan.version ==> !ActiveOp(s.ops[o]))
    && forall o :: !HasKey(s.ops, o, u.actor, UPLOAD, u.cmd.key)
  }

  lemma DocsAfterUpload(docs: Docs, vers: Vers, revs: Revs, u: UploadCall)
    requires TargetFree(docs, vers, revs, u) && DocsOk(docs, vers) && PointersOk(docs, vers)
    ensures DocsOk(UploadDocs(docs, u.plan), UploadVersions(vers, u))
            && PointersOk(UploadDocs(docs, u.plan), UploadVersions(vers, u))
    ensures DocsKept(docs, UploadDocs(docs, u.plan))
  {
  }

  lemma CounterAfterUpload(docs: Docs, vers: Vers, revs: Revs, u: UploadCall)
    requires TargetFree(docs, vers, revs, u)
    ensures var docs' := UploadDocs(docs, u.plan);
            && docs'.Keys == docs.Keys + {u.plan.doc}
            && (forall d :: d in docs && d != u.plan.doc ==> docs'[d].rowVersion == docs[d].rowVersion)
            && docs'[u.plan.doc].rowVersion == (if u.plan.doc in docs then docs[u.plan.doc].rowVersion else 0) + 1
  {
  }

  lemma VersionsAfterUpload(docs: Docs, vers: Vers, revs: Revs, u: UploadCall)
    requires TargetFree(docs, vers, revs, u) && SpecsUnique(vers)
    ensures SpecsUnique(UploadVersions(vers, u)) && VersKept(vers, UploadVersions(vers, u))
            && SameDocs(vers, UploadVersions(vers, u))
    ensures u.plan.version in UploadVersions(vers, u) && UploadVersions(vers, u)[u.plan.version].doc == u.plan.doc
    ensures UploadVersions(vers, u)[u.plan.version].state == Draft
    ensures forall v :: v in vers && v != u.plan.version ==> UploadVersions(vers, u)[v] == vers[v]
  {
    SpecsApart(vers);
  }

  lemma RevisionsAfterUpload(docs: Docs, vers: Vers, revs: Revs, revs': Revs, u: UploadCall, row: Revision)
    requires TargetFree(docs, vers, revs, u) && RevsOk(vers, revs)
    requires revs' == revs[RevKey(u.plan.version, u.plan.rev) := row] && row.meta == u.cmd.meta
    ensures RevsOk(UploadVersions(vers, u), revs') && RevsKept(revs, revs')
  {
    var vers' := UploadVersions(vers, u);
    forall k | k in revs'
      ensures k.version in vers' && 1 <= k.rev <= vers'[k.version].currentRev
              && revs'[k].meta.spec == vers'[k.version].spec
    {
      assert k in revs || k == RevKey(u.plan.version, u.plan.rev);
    }
  }

  lemma SealsAfterUpload(docs: Docs, vers: Vers, revs: Revs, revs': Revs, gens: Gens, u: UploadCall, row: Revision)
    requires TargetFree(docs, vers, revs, u) && VersOk(vers, revs, gens)
    requires revs' == revs[RevKey(u.plan.version, u.plan.rev) := row]
    ensures VersOk(UploadVersions(vers, u), revs', gens)
    ensures VersionsGrow(vers, UploadVersions(vers, u)) && UploadVersions(vers, u)[u.plan.version].origin.Uploaded?
  {
    var vers' := UploadVersions(vers, u);
    assert u.plan.version in vers ==> Sealed(u.plan.version, vers[u.plan.version], gens);
    forall v | v in vers'
      ensures vers'[v].currentRev >= 1 && RevKey(v, vers'[v].currentRev) in revs' && Sealed(v, vers'[v], gens)
    {
      if v != u.plan.version {
        assert v in vers && vers'[v] == vers[v];
      }
    }
  }

  lemma ReleaseAfterUpload(docs: Docs, vers: Vers, revs: Revs, u: UploadCall)
    requires TargetFree(docs, vers, revs, u)
    ensures SealedUploads(UploadVersions(vers, u)) == SealedUploads(vers)
    ensures DisabledVersions(UploadVersions(vers, u)) == DisabledVersions(vers)
  {
  }

  lemma OpsAfterUpload(s: State, u: UploadCall, s': State)
    requires Insertable(s, u) && s' == InsertUpload(s, u)
    requires OpsOk(s.vers, s.revs, s.gens, s.ops) && VersKept(s.vers, s'.vers) && RevsKept(s.revs, s'.revs)
    requires s'.vers[u.plan.version].doc == u.plan.doc
    ensures OpsOk(s'.vers, s'.revs, s'.gens, s'.ops)
  {
    hide TargetFree, VersKept, RevsKept;
    OpsOkKept(s.vers, s.revs, s.gens, s'.vers, s'.revs, s'.gens, s.ops);
    assert OpOk(s'.vers, s'.revs, s'.gens, UploadOp(u));
  }

  lemma IntentsAfterUpload(s: State, u: UploadCall, s': State)
    requires Insertable(s, u) && s' == InsertUpload(s, u)
    requires ActiveOk(s.vers, s.ops) && OneActive(s.vers, s.ops) && KeysUnique(s.ops) && FinishedOnce(s.ops)
             && SealedByOps(s.vers, s.ops)
    requires SpecsUnique(s.vers)
    ensures ActiveOk(s'.vers, s'.ops) && OneActive(s'.vers, s'.ops) && KeysUnique(s'.ops)
    ensures FinishedOnce(s'.ops) && SealedByOps(s'.vers, s'.ops)
  {
    VersionsAfterUpload(s.docs, s.vers, s.revs, u);
    hide TargetFree, UploadVersions, OneActive, KeysUnique, FinishedOnce, SealedByOps, ActiveOk, SpecsUnique;
    KeysInsert(s.ops, u.op, UploadOp(u));
    FinishedInsert(s.ops, u.op, UploadOp(u));
    assert ActiveOk(s.vers, s.ops);
    ActiveInsert(s.vers, s.ops, s'.vers, u.op, UploadOp(u));
    SealedByOpsExtends(s.vers, s.ops, s'.vers, s'.ops);
  }

  lemma TasksAfterUpload(s: State, u: UploadCall, s': State)
    requires Insertable(s, u) && s' == InsertUpload(s, u)
    requires TasksOk(s.ops, s.gens, s.tasks) && TasksUnique(s.tasks) && ParsesUnique(s.revs, s.tasks)
             && BuildingOk(s.gens, s.tasks)
    ensures TasksOk(s'.ops, s'.gens, s'.tasks) && TasksUnique(s'.tasks) && ParsesUnique(s'.revs, s'.tasks)
            && BuildingOk(s'.gens, s'.tasks)
  {
    EachTask(s.ops, s.gens, s.tasks);
    assert forall t :: t in s.tasks ==> s.tasks[t].op in s.ops;
    hide TasksOk, TasksUnique, ParsesUnique, BuildingOk, UploadVersions, UploadDocs;
    var task := UploadTask(u);
    TasksInsert(s.ops, s.gens, s.tasks, s'.ops, s'.gens, u.task, task);
    TasksUniqueInsert(s.tasks, u.task, task);
    ParsesInsert(s.revs, s.tasks, s'.revs, u.task, task);
    BuildingInsert(s.gens, s.tasks, s'.gens, s'.tasks);
  }

  lemma LinksAfterUpload(s: State, u: UploadCall, s': State)
    requires Insertable(s, u) && s' == InsertUpload(s, u)
    requires OpsHaveTasks(s.ops, s.gens, s.tasks) && RetriesOk(s.ops, s.tasks) && RetriesUnique(s.tasks)
    ensures OpsHaveTasks(s'.ops, s'.gens, s'.tasks) && RetriesOk(s'.ops, s'.tasks) && RetriesUnique(s'.tasks)
  {
    hide OpsHaveTasks, RetriesOk, RetriesUnique, UploadVersions, UploadDocs;
    var task := UploadTask(u);
    assert IsTaskOf(s'.tasks, u.task, u.op, PARSE);
    OpsHaveTasksInsert(s.ops, s.gens, s.tasks, u.op, UploadOp(u), s'.gens, s'.tasks);
    RetriesInsert(s.ops, s.tasks, s'.ops, u.task, task);
    RetriesUniqueInsert(s.tasks, u.task, task);
  }

  lemma CountsAfterUpload(s: State, u: UploadCall, s': State)
    requires Insertable(s, u) && s' == InsertUpload(s, u)
    requires RowsCounted(s.docs, s.vers, s.ops) && OpsOk(s.vers, s.revs, s.gens, s.ops) && PointersOk(s.docs, s.vers)
    requires VersionsGrow(s.vers, s'.vers) && s'.vers[u.plan.version].origin.Uploaded?
             && s'.vers[u.plan.version].doc == u.plan.doc
    ensures RowsCounted(s'.docs, s'.vers, s'.ops)
  {
    EachOp(s.vers, s.revs, s.gens, s.ops);
    CounterAfterUpload(s.docs, s.vers, s.revs, u);
    hide RowsCounted, VersionsGrow, UploadDocs, UploadVersions;
    assert VersionsKnown(s.vers, s.ops);
    assert forall v :: v in s.vers ==> s.vers[v].doc in s.docs;
    hide OpsOk, PointersOk, VersionsKnown;
    IntentCounted(s.docs, s.vers, s.ops, s'.docs, s'.vers, u.op, UploadOp(u), u.plan.doc);
  }

  lemma VersionTablesAfterUpload(s: State, u: UploadCall, s': State)
    requires Insertable(s, u) && s' == InsertUpload(s, u)
    requires DocsOk(s.docs, s.vers) && PointersOk(s.docs, s.vers) && VersOk(s.vers, s.revs, s.gens)
    requires RevsOk(s.vers, s.revs) && SpecsUnique(s.vers) && ReleaseCounted(s.release, s.catalog, s.vers)
    ensures DocsOk(s'.docs, s'.vers) && PointersOk(s'.docs, s'.vers) && VersOk(s'.vers, s'.revs, s'.gens)
    ensures RevsOk(s'.vers, s'.revs) && SpecsUnique(s'.vers) && ReleaseCounted(s'.release, s'.catalog, s'.vers)
    ensures DocsKept(s.docs, s'.docs) && VersKept(s.vers, s'.vers) && RevsKept(s.revs, s'.revs)
            && VersionsGrow(s.vers, s'.vers)
    ensures s'.vers[u.plan.version].origin.Uploaded? && s'.vers[u.plan.version].doc == u.plan.doc
  {
    hide DocsOk, PointersOk, VersOk, RevsOk, SpecsUnique, TargetFree, UploadVersions, UploadDocs, VersKept, RevsKept,
      DocsKept, VersionsGrow, SealedUploads, DisabledVersions;
    DocsAfterUpload(s.docs, s.vers, s.revs, u);
    VersionsAfterUpload(s.docs, s.vers, s.revs, u);
    RevisionsAfterUpload(s.docs, s.vers, s.revs, s'.revs, u, s'.revs[RevKey(u.plan.version, u.plan.rev)]);
    SealsAfterUpload(s.docs, s.vers, s.revs, s'.revs, s.gens, u, s'.revs[RevKey(u.plan.version, u.plan.rev)]);
    ReleaseAfterUpload(s.docs, s.vers, s.revs, u);
  }

  lemma InsertUploadKeepsInv(s: State, u: UploadCall, s': State)
    requires Inv(s) && Insertable(s, u) && s' == InsertUpload(s, u)
    ensures Inv(s')
  {
    hide DocsOk, PointersOk, VersOk, RevsOk, SpecsUnique, GensOk, EvidenceOk, OpsOk, ActiveOk, OneActive, KeysUnique,
      FinishedOnce, SealedByOps, TasksOk, TasksUnique, ParsesUnique, BuildingOk, OpsHaveTasks, RetriesOk, RetriesUnique,
      RowsCounted, ReleaseCounted, VersKept, RevsKept, DocsKept, VersionsGrow;
    VersionTablesAfterUpload(s, u, s');
    OpsAfterUpload(s, u, s');
    IntentsAfterUpload(s, u, s');
    TasksAfterUpload(s, u, s');
    LinksAfterUpload(s, u, s');
    CountsAfterUpload(s, u, s');
    GensOkKept(s.vers, s.revs, s'.vers, s'.revs, s.gens, s.chunks);
    EvidenceOkKept(s.vers, s.revs, s'.vers, s'.revs, s.gens, s.chunks);
  }

  lemma InsertUploadIsMonotone(s: State, u: UploadCall, s': State)
    requires Inv(s) && Insertable(s, u) && s' == InsertUpload(s, u)
    ensures Monotone(s, s')
  {
    hide DocsOk, PointersOk, VersOk, RevsOk, SpecsUnique, GensOk, EvidenceOk, OpsOk, ActiveOk, OneActive, KeysUnique,
      FinishedOnce, SealedByOps, TasksOk, TasksUnique, ParsesUnique, BuildingOk, OpsHaveTasks, RetriesOk, RetriesUnique,
      RowsCounted, ReleaseCounted, VersKept, RevsKept, DocsKept, VersionsGrow;
    VersionTablesAfterUpload(s, u, s');
  }

  lemma ChecksFreeTarget(s: State, u: UploadCall)
    requires ValidCommand(u.cmd) && PlanMatches(u.cmd, u.plan) && PointersOk(s.docs, s.vers)
             && UploadRefusal(s, u).None?
    ensures TargetFree(s.docs, s.vers, s.revs, u) && u.op !in s.ops && u.task !in s.tasks
  {
  }

  lemma KeyStaysFree(s: State, u: UploadCall)
    requires FindOp(s.ops, u.actor, UPLOAD, u.cmd.key).None?
    ensures forall o :: !HasKey(EndVersion(s, u.plan.version).ops, o, u.actor, UPLOAD, u.cmd.key)
  {
    var s1 := EndVersion(s, u.plan.version);
    assert forall o :: HasKey(s1.ops, o, u.actor, UPLOAD, u.cmd.key) ==> HasKey(s.ops, o, u.actor, UPLOAD, u.cmd.key);
  }

  lemma ChecksMakeInsertable(s: State, u: UploadCall)
    requires ValidCommand(u.cmd) && PlanMatches(u.cmd, u.plan) && PointersOk(s.docs, s.vers)
             && OpsOk(s.vers, s.revs, s.gens, s.ops)
    requires FindOp(s.ops, u.actor, UPLOAD, u.cmd.key).None? && UploadRefusal(s, u).None?
    ensures Insertable(if u.plan.newVersion then s else EndVersion(s, u.plan.version), u)
  {
    EachOp(s.vers, s.revs, s.gens, s.ops);
    ChecksFreeTarget(s, u);
    KeyStaysFree(s, u);
    hide PointersOk, UploadRefusal, PlanMatches;
    assert forall o :: o in s.ops ==> s.ops[o].version in s.vers;
    hide OpsOk;
  }

  /** Every accepted upload keeps the invariant, whatever plan for its command is presented and however old. */
  lemma AcceptUploadKeeps(s: State, u: UploadCall)
    requires Inv(s) && ValidCommand(u.cmd) && PlanMatches(u.cmd, u.plan)
    ensures Inv(AcceptUpload(s, u).0) && Monotone(s, AcceptUpload(s, u).0)
  {
    hide DocsOk, PointersOk, VersOk, RevsOk, SpecsUnique, GensOk, EvidenceOk, OpsOk, ActiveOk, OneActive, KeysUnique,
      FinishedOnce, SealedByOps, TasksOk, TasksUnique, ParsesUnique, BuildingOk, OpsHaveTasks, RetriesOk, RetriesUnique,
      RowsCounted, ReleaseCounted, Monotone, UploadRefusal, EndVersion, PlanMatches, UploadResult;
    MonotoneSame(s);
    if FindOp(s.ops, u.actor, UPLOAD, u.cmd.key).None? && UploadRefusal(s, u).None? {
      ChecksMakeInsertable(s, u);
      EndVersionKeeps(s, u.plan.version);
      var s1 := if u.plan.newVersion then s else EndVersion(s, u.plan.version);
      InsertUploadKeepsInv(s1, u, InsertUpload(s1, u));
      InsertUploadIsMonotone(s1, u, InsertUpload(s1, u));
      hide Inv;
      MonotoneTrans(s, s1, InsertUpload(s1, u));
    }
  }

  /** Every plan that the planning step returns, in any state, matches its command. */
  lemma PlansMatch(s: State, cmd: UploadCommand, newDoc: DocId, newVersion: VerId)
    requires ValidCommand(cmd) && PlanUpload(s, cmd, newDoc, newVersion).Ok?
    ensures PlanMatches(cmd, PlanUpload(s, cmd, newDoc, newVersion).value)
  {
  }
}
