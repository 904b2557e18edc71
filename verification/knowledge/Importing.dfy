/**
  * The one-shot catalog import keeps the invariant. Every catalog version brings its own document, revision,
  * generation, operations and tasks in their finished states; the import is proved version by version, and inserting
  * one version leaves room for every later one.
  */
module KnowledgeImporting {
  import opened Wrappers
  import opened KnowledgeTypes
  import opened KnowledgeSteps
  import opened KnowledgeInvariant
  import opened KnowledgeMonotone
  import opened KnowledgeKept
  import opened KnowledgeInserting

  predicate UsesKey(o: Operation, c: ImportCall, number: nat) {
    o.actor == c.actor && (o.action == UPLOAD || o.action == PUBLISH) && o.key == ImportKey(c.cmd.batch, number)
  }

  // The document of an item is new, or was created by an earlier item and leaves room for this one.
  ghost predicate DocAdmits(docs: Docs, vers: Vers, item: ImportItem) {
    && (item.doc in docs ==>
          && docs[item.doc].rowVersion == 1 && IsImported(vers, item.doc)
          && (item.active ==> docs[item.doc].current.None?))
    && item.version !in vers
    && forall v :: v in vers && vers[v].doc == item.doc ==> vers[v].spec != item.content.meta.spec
  }

  /** One item of the plan can be inserted. */
  ghost predicate Admits(s: State, c: ImportCall, number: nat)
    requires number < |c.plan|
  {
    var item := c.plan[number];
    && ItemOk(item) && DocAdmits(s.docs, s.vers, item)
    && item.gen !in s.gens && RevKey(item.version, 1) !in s.revs && item.uploadOp !in s.ops && item.publishOp !in s.ops
    && item.parseTask !in s.tasks && item.indexTask !in s.tasks
    && forall o :: o in s.ops ==> !UsesKey(s.ops[o], c, number)
  }

  lemma DocsAfterImport(docs: Docs, vers: Vers, item: ImportItem, docs': Docs, vers': Vers)
    requires DocsOk(docs, vers) && PointersOk(docs, vers) && SpecsUnique(vers) && DocAdmits(docs, vers, item)
    requires vers' == vers[item.version := ImportedVersion(item)]
    requires docs' == docs[item.doc :=
                           Document(if item.active then Some(item.version)
                                    else if item.doc in docs then docs[item.doc].current else None, 1)]
    ensures DocsOk(docs', vers') && PointersOk(docs', vers') && SpecsUnique(vers')
    ensures VersKept(vers, vers') && SealedUploads(vers') == SealedUploads(vers)
            && DisabledVersions(vers') == DisabledVersions(vers)
  {
  }

  lemma DocsKeptAfterImport(docs: Docs, vers: Vers, item: ImportItem, docs': Docs)
    requires DocAdmits(docs, vers, item)
    requires docs' == docs[item.doc :=
                           Document(if item.active then Some(item.version)
                                    else if item.doc in docs then docs[item.doc].current else None, 1)]
    ensures DocsKept(docs, docs')
  {
  }

  lemma RevisionsAfterImport(vers: Vers, revs: Revs, gens: Gens, item: ImportItem, c: ImportCall, vers': Vers,
                             revs': Revs, gens': Gens)
    requires VersOk(vers, revs, gens) && RevsOk(vers, revs) && item.version !in vers && item.gen !in gens
             && RevKey(item.version, 1) !in revs
    requires vers' == vers[item.version := ImportedVersion(item)]
             && revs' == revs[RevKey(item.version, 1) := item.content]
    requires gens' == gens[item.gen := ImportedGen(item, c)]
    ensures VersOk(vers', revs', gens') && RevsOk(vers', revs') && RevsKept(revs, revs') && GensKept(gens, gens')
  {
    assert RevsKept(revs, revs') && GensKept(gens, gens');
    VersOkKept(vers, revs, gens, revs', gens');
    assert Sealed(item.version, vers'[item.version], gens');
    hide RevsKept, GensKept;
    forall k | k in revs'
      ensures k.version in vers' && 1 <= k.rev <= vers'[k.version].currentRev
              && revs'[k].meta.spec == vers'[k.version].spec
    {
      assert k in revs || k == RevKey(item.version, 1);
    }
  }

  lemma GensAfterImport(s: State, item: ImportItem, c: ImportCall, vers': Vers, revs': Revs, gens': Gens,
                        chunks': Chunks)
    requires GensOk(s.vers, s.revs, s.gens, s.chunks) && EvidenceOk(s.vers, s.revs, s.gens, s.chunks) && ItemOk(item)
             && item.gen !in s.gens
    requires VersKept(s.vers, vers') && RevsKept(s.revs, revs')
    requires item.version in vers' && vers'[item.version] == ImportedVersion(item)
    requires RevKey(item.version, 1) in revs' && revs'[RevKey(item.version, 1)] == item.content
    requires gens' == s.gens[item.gen := ImportedGen(item, c)] && chunks' == s.chunks[item.gen := item.records]
    ensures GensOk(vers', revs', gens', chunks') && EvidenceOk(vers', revs', gens', chunks')
            && ChunksKept(s.chunks, chunks')
  {
    GensOkKept(s.vers, s.revs, vers', revs', s.gens, s.chunks);
    EvidenceOkKept(s.vers, s.revs, vers', revs', s.gens, s.chunks);
    EachGen(vers', revs', s.gens, s.chunks);
    hide VersKept, RevsKept, Evidence;
    assert item.gen !in s.chunks;
    assert GenOk(vers', revs', chunks', item.gen, gens'[item.gen]);
  }

  // The two operations of an item.
  ghost predicate OpsImport(ops: Ops, item: ImportItem, c: ImportCall, number: nat, ops': Ops) {
    && item.uploadOp !in ops && item.publishOp !in ops && item.uploadOp != item.publishOp
    && ops' == ops[item.uploadOp := ImportOp(item, c, number, UPLOAD)]
                  [item.publishOp := ImportOp(item, c, number, PUBLISH)]
  }

  // What the row of an imported version provides to its operations.
  ghost predicate RowsImported(item: ImportItem, c: ImportCall, vers: Vers, revs: Revs, gens: Gens) {
    && item.version in vers && vers[item.version] == ImportedVersion(item)
    && RevKey(item.version, 1) in revs && revs[RevKey(item.version, 1)] == item.content && item.content.body.Some?
    && item.gen in gens && gens[item.gen] == ImportedGen(item, c)
  }

  lemma OpsAfterImport(s: State, item: ImportItem, c: ImportCall, number: nat, vers': Vers, revs': Revs, gens': Gens,
                       ops': Ops)
    requires OpsImport(s.ops, item, c, number, ops') && RowsImported(item, c, vers', revs', gens')
    requires OpsOk(s.vers, s.revs, s.gens, s.ops) && VersKept(s.vers, vers') && RevsKept(s.revs, revs')
             && GensKept(s.gens, gens')
    ensures OpsOk(vers', revs', gens', ops')
  {
    OpsOkKept(s.vers, s.revs, s.gens, vers', revs', gens', s.ops);
    hide VersKept, RevsKept, GensKept;
    assert OpOk(vers', revs', gens', ImportOp(item, c, number, UPLOAD));
    assert OpOk(vers', revs', gens', ImportOp(item, c, number, PUBLISH));
    hide OpOk;
  }

  lemma ActiveAfterImport(vers: Vers, ops: Ops, item: ImportItem, c: ImportCall, number: nat, vers': Vers, ops': Ops)
    requires OpsImport(ops, item, c, number, ops') && item.version !in vers
             && vers' == vers[item.version := ImportedVersion(item)]
    requires ActiveOk(vers, ops) && OneActive(vers, ops)
    ensures ActiveOk(vers', ops') && OneActive(vers', ops')
  {
    var ops1 := ops[item.uploadOp := ImportOp(item, c, number, UPLOAD)];
    ActiveInsert(vers, ops, vers', item.uploadOp, ImportOp(item, c, number, UPLOAD));
    hide ActiveOk, OneActive;
    assert ActiveOk(vers', ops1) && OneActive(vers', ops1);
    ActiveInsert(vers', ops1, vers', item.publishOp, ImportOp(item, c, number, PUBLISH));
  }

  lemma KeysAfterImport(ops: Ops, item: ImportItem, c: ImportCall, number: nat, ops': Ops)
    requires OpsImport(ops, item, c, number, ops') && KeysUnique(ops) && forall o :: o in ops ==>
             !UsesKey(ops[o], c, number)
    ensures KeysUnique(ops')
  {
    var upload, publish := ImportOp(item, c, number, UPLOAD), ImportOp(item, c, number, PUBLISH);
    var ops1 := ops[item.uploadOp := upload];
    assert forall o :: HasKey(ops, o, upload.actor, UPLOAD, upload.key) ==> UsesKey(ops[o], c, number);
    KeysInsert(ops, item.uploadOp, upload);
    assert forall o :: HasKey(ops1, o, publish.actor, PUBLISH, publish.key) ==> o in ops && UsesKey(ops[o], c, number);
    KeysInsert(ops1, item.publishOp, publish);
  }

  lemma FinishedAfterImport(vers: Vers, revs: Revs, gens: Gens, ops: Ops, item: ImportItem, c: ImportCall, number: nat,
                            vers': Vers, ops': Ops)
    requires OpsImport(ops, item, c, number, ops') && item.version !in vers
             && vers' == vers[item.version := ImportedVersion(item)]
    requires OpsOk(vers, revs, gens, ops) && FinishedOnce(ops) && SealedByOps(vers, ops)
    ensures FinishedOnce(ops') && SealedByOps(vers', ops')
  {
    EachOp(vers, revs, gens, ops);
    EachSealed(vers, ops);
    var upload, publish := ImportOp(item, c, number, UPLOAD), ImportOp(item, c, number, PUBLISH);
    assert forall o :: o in ops ==> ops[o].version in vers;
    hide OpsOk;
    FinishedInsert(ops, item.uploadOp, upload);
    FinishedInsert(ops[item.uploadOp := upload], item.publishOp, publish);
    hide FinishedOnce;
    forall v: VerId, action: Action | HasFinished(ops, v, action)
      ensures HasFinished(ops', v, action)
    {
      HasFinishedExtends(ops, ops', v, action);
    }
    assert Finished(ops'[item.publishOp], PUBLISH);
  }

  ghost predicate TasksImport(tasks: Tasks, item: ImportItem, c: ImportCall, tasks': Tasks) {
    && item.parseTask !in tasks && item.indexTask !in tasks && item.parseTask != item.indexTask
    && tasks' == tasks[item.parseTask := ImportedParse(item, c)][item.indexTask := ImportedIndex(item, c)]
  }

  lemma TasksAfterImport(ops: Ops, gens: Gens, tasks: Tasks, item: ImportItem, c: ImportCall, number: nat, ops': Ops,
                         gens': Gens, tasks': Tasks)
    requires TasksImport(tasks, item, c, tasks') && OpsImport(ops, item, c, number, ops')
    requires item.gen !in gens && gens' == gens[item.gen := ImportedGen(item, c)]
    requires TasksOk(ops, gens, tasks) && TasksUnique(tasks)
    ensures TasksOk(ops', gens', tasks') && TasksUnique(tasks')
  {
    EachTask(ops, gens, tasks);
    var parse, index := ImportedParse(item, c), ImportedIndex(item, c);
    var tasks1 := tasks[item.parseTask := parse];
    assert forall t :: t in tasks ==> tasks[t].op in ops && (tasks[t].gen.Some? ==> tasks[t].gen.value in gens);
    hide TasksOk, TasksUnique;
    TasksInsert(ops, gens, tasks, ops', gens', item.parseTask, parse);
    TasksInsert(ops', gens', tasks1, ops', gens', item.indexTask, index);
    TasksUniqueInsert(tasks, item.parseTask, parse);
    TasksUniqueInsert(tasks1, item.indexTask, index);
  }

  lemma ParsesAfterImport(revs: Revs, tasks: Tasks, item: ImportItem, c: ImportCall, revs': Revs, tasks': Tasks)
    requires TasksImport(tasks, item, c, tasks') && RevKey(item.version, 1) !in revs
             && revs' == revs[RevKey(item.version, 1) := item.content]
    requires ParsesUnique(revs, tasks) && RetriesUnique(tasks)
    ensures ParsesUnique(revs', tasks') && RetriesUnique(tasks')
  {
    var tasks1 := tasks[item.parseTask := ImportedParse(item, c)];
    hide ParsesUnique, RetriesUnique;
    ParsesInsert(revs, tasks, revs', item.parseTask, ImportedParse(item, c));
    ParsesInsert(revs', tasks1, revs', item.indexTask, ImportedIndex(item, c));
    RetriesUniqueInsert(tasks, item.parseTask, ImportedParse(item, c));
    RetriesUniqueInsert(tasks1, item.indexTask, ImportedIndex(item, c));
  }

  lemma LinksAfterImport(ops: Ops, gens: Gens, tasks: Tasks, item: ImportItem, c: ImportCall, number: nat, ops': Ops,
                         gens': Gens, tasks': Tasks)
    requires TasksImport(tasks, item, c, tasks') && OpsImport(ops, item, c, number, ops')
    requires item.gen !in gens && gens' == gens[item.gen := ImportedGen(item, c)]
    requires OpsHaveTasks(ops, gens, tasks) && RetriesOk(ops, tasks) && BuildingOk(gens, tasks)
    ensures OpsHaveTasks(ops', gens', tasks') && RetriesOk(ops', tasks') && BuildingOk(gens', tasks')
  {
    var upload, publish := ImportOp(item, c, number, UPLOAD), ImportOp(item, c, number, PUBLISH);
    var ops1 := ops[item.uploadOp := upload];
    hide OpsHaveTasks, RetriesOk, BuildingOk;
    BuildingInsert(gens, tasks, gens', tasks');
    assert IsTaskOf(tasks', item.parseTask, item.uploadOp, PARSE);
    assert IsTaskOf(tasks', item.indexTask, item.publishOp, INDEX);
    OpsHaveTasksInsert(ops, gens, tasks, item.uploadOp, upload, gens', tasks');
    OpsHaveTasksInsert(ops1, gens', tasks', item.publishOp, publish, gens', tasks');
    RetriesInsert(ops, tasks, ops', item.parseTask, ImportedParse(item, c));
    RetriesInsert(ops', tasks[item.parseTask := ImportedParse(item, c)], ops', item.indexTask, ImportedIndex(item, c));
  }

  // The import's own records are not intents of the document.
  lemma SetsAfterImport(vers: Vers, ops: Ops, item: ImportItem, c: ImportCall, number: nat, vers': Vers, ops': Ops,
                        d: DocId)
    requires OpsImport(ops, item, c, number, ops') && item.version !in vers
             && vers' == vers[item.version := ImportedVersion(item)]
    requires forall o :: o in ops ==> ops[o].version in vers
    ensures Intents(vers', ops', d) == Intents(vers, ops, d) && Finalized(vers', ops', d) == Finalized(vers, ops, d)
    ensures IsImported(vers', d) == (IsImported(vers, d) || d == item.doc)
  {
    assert vers'[item.version].origin.Imported?;
    if IsImported(vers, d) {
      var v :| v in vers && vers[v].doc == d && vers[v].origin.Imported?;
      assert vers'[v] == vers[v];
    }
  }

  lemma NoRecords(vers: Vers, ops: Ops, d: DocId)
    requires forall v :: v in vers ==> vers[v].doc != d
    ensures Intents(vers, ops, d) == {} && Finalized(vers, ops, d) == {}
  {
  }

  lemma CountsAfterImport(docs: Docs, vers: Vers, ops: Ops, item: ImportItem, c: ImportCall, number: nat, docs': Docs,
                          vers': Vers, ops': Ops)
    requires OpsImport(ops, item, c, number, ops') && vers' == vers[item.version := ImportedVersion(item)]
             && DocAdmits(docs, vers, item)
    requires RowsCounted(docs, vers, ops) && (forall o :: o in ops ==> ops[o].version in vers)
    requires forall v :: v in vers ==> vers[v].doc in docs
    requires docs'.Keys == docs.Keys + {item.doc} && docs'[item.doc].rowVersion == 1
    requires forall d :: d in docs && d != item.doc ==> docs'[d] == docs[d]
    ensures RowsCounted(docs', vers', ops')
  {
    forall d | d in docs'
      ensures docs'[d].rowVersion == |Intents(vers', ops', d)| + |Finalized(vers', ops', d)|
              + if IsImported(vers', d) then 1 else 0
    {
      SetsAfterImport(vers, ops, item, c, number, vers', ops', d);
      hide Intents, Finalized, IsImported, OpsImport;
      if d !in docs {
        NoRecords(vers, ops, d);
      }
    }
  }

  lemma OpsAreKnown(vers: Vers, revs: Revs, gens: Gens, ops: Ops)
    requires OpsOk(vers, revs, gens, ops)
    ensures forall o :: o in ops ==> ops[o].version in vers
  {
    EachOp(vers, revs, gens, ops);
  }

  lemma VersionsHaveDocs(docs: Docs, vers: Vers)
    requires PointersOk(docs, vers)
    ensures forall v :: v in vers ==> vers[v].doc in docs
  {
  }

  lemma ImportVersionTables(s: State, c: ImportCall, number: nat, s': State)
    requires Inv(s) && number < |c.plan| && Admits(s, c, number) && s' == ImportVersion(s, c, number)
    ensures DocsOk(s'.docs, s'.vers) && PointersOk(s'.docs, s'.vers) && SpecsUnique(s'.vers)
    ensures VersOk(s'.vers, s'.revs, s'.gens) && RevsOk(s'.vers, s'.revs)
    ensures ReleaseCounted(s'.release, s'.catalog, s'.vers) && RowsCounted(s'.docs, s'.vers, s'.ops)
    ensures DocsKept(s.docs, s'.docs) && VersKept(s.vers, s'.vers) && RevsKept(s.revs, s'.revs)
            && GensKept(s.gens, s'.gens)
  {
    hide DocsOk, PointersOk, VersOk, RevsOk, SpecsUnique, GensOk, EvidenceOk, OpsOk, ActiveOk, OneActive, KeysUnique,
      FinishedOnce, SealedByOps, TasksOk, TasksUnique, ParsesUnique, BuildingOk, OpsHaveTasks, RetriesOk, RetriesUnique,
      RowsCounted, VersKept, DocsKept, RevsKept, GensKept, SealedUploads, DisabledVersions;
    var item := c.plan[number];
    OpsAreKnown(s.vers, s.revs, s.gens, s.ops);
    VersionsHaveDocs(s.docs, s.vers);
    DocsAfterImport(s.docs, s.vers, item, s'.docs, s'.vers);
    DocsKeptAfterImport(s.docs, s.vers, item, s'.docs);
    RevisionsAfterImport(s.vers, s.revs, s.gens, item, c, s'.vers, s'.revs, s'.gens);
    CountsAfterImport(s.docs, s.vers, s.ops, item, c, number, s'.docs, s'.vers, s'.ops);
  }

  lemma ImportVersionWork(s: State, c: ImportCall, number: nat, s': State)
    requires Inv(s) && number < |c.plan| && Admits(s, c, number) && s' == ImportVersion(s, c, number)
    requires VersKept(s.vers, s'.vers) && RevsKept(s.revs, s'.revs) && GensKept(s.gens, s'.gens)
    ensures OpsOk(s'.vers, s'.revs, s'.gens, s'.ops) && ActiveOk(s'.vers, s'.ops) && OneActive(s'.vers, s'.ops)
            && KeysUnique(s'.ops)
    ensures FinishedOnce(s'.ops) && SealedByOps(s'.vers, s'.ops) && TasksOk(s'.ops, s'.gens, s'.tasks)
            && TasksUnique(s'.tasks)
    ensures ParsesUnique(s'.revs, s'.tasks) && RetriesUnique(s'.tasks)
    ensures OpsHaveTasks(s'.ops, s'.gens, s'.tasks) && RetriesOk(s'.ops, s'.tasks) && BuildingOk(s'.gens, s'.tasks)
  {
    hide DocsOk, PointersOk, VersOk, RevsOk, SpecsUnique, GensOk, EvidenceOk, OpsOk, ActiveOk, OneActive, KeysUnique,
      FinishedOnce, SealedByOps, TasksOk, TasksUnique, ParsesUnique, BuildingOk, OpsHaveTasks, RetriesOk, RetriesUnique,
      RowsCounted, ReleaseCounted, VersKept, RevsKept, GensKept;
    var item := c.plan[number];
    OpsAfterImport(s, item, c, number, s'.vers, s'.revs, s'.gens, s'.ops);
    ActiveAfterImport(s.vers, s.ops, item, c, number, s'.vers, s'.ops);
    KeysAfterImport(s.ops, item, c, number, s'.ops);
    FinishedAfterImport(s.vers, s.revs, s.gens, s.ops, item, c, number, s'.vers, s'.ops);
    TasksAfterImport(s.ops, s.gens, s.tasks, item, c, number, s'.ops, s'.gens, s'.tasks);
    ParsesAfterImport(s.revs, s.tasks, item, c, s'.revs, s'.tasks);
    LinksAfterImport(s.ops, s.gens, s.tasks, item, c, number, s'.ops, s'.gens, s'.tasks);
  }

  lemma ImportVersionIsMonotone(s: State, c: ImportCall, number: nat, s': State)
    requires Inv(s) && number < |c.plan| && Admits(s, c, number) && s' == ImportVersion(s, c, number)
    requires DocsKept(s.docs, s'.docs) && VersKept(s.vers, s'.vers) && RevsKept(s.revs, s'.revs)
             && GensKept(s.gens, s'.gens)
    requires ChunksKept(s.chunks, s'.chunks)
    ensures Monotone(s, s')
  {
    hide Inv, DocAdmits, DocsKept, VersKept, RevsKept, GensKept, ChunksKept;
  }

  lemma ImportVersionKeeps(s: State, c: ImportCall, number: nat, s': State)
    requires Inv(s) && number < |c.plan| && Admits(s, c, number) && s' == ImportVersion(s, c, number)
    ensures Inv(s') && Monotone(s, s')
  {
    hide DocsOk, PointersOk, VersOk, RevsOk, SpecsUnique, GensOk, EvidenceOk, OpsOk, ActiveOk, OneActive, KeysUnique,
      FinishedOnce, SealedByOps, TasksOk, TasksUnique, ParsesUnique, BuildingOk, OpsHaveTasks, RetriesOk, RetriesUnique,
      RowsCounted, ReleaseCounted, Monotone, DocsKept, VersKept, RevsKept, GensKept, ChunksKept;
    ImportVersionTables(s, c, number, s');
    ImportVersionWork(s, c, number, s');
    GensAfterImport(s, c.plan[number], c, s'.vers, s'.revs, s'.gens, s'.chunks);
    ImportVersionIsMonotone(s, c, number, s');
  }

  lemma DocStillAdmits(docs: Docs, vers: Vers, a: ImportItem, docs': Docs, vers': Vers, b: ImportItem)
    requires DocAdmits(docs, vers, a) && DocAdmits(docs, vers, b) && ItemsDiffer(a, b)
    requires vers' == vers[a.version := ImportedVersion(a)]
    requires docs' == docs[a.doc :=
                           Document(if a.active then Some(a.version) else if a.doc in docs then docs[a.doc].current
                                    else None, 1)]
    ensures DocAdmits(docs', vers', b)
  {
    if b.doc in docs' {
      if b.doc == a.doc {
        assert vers'[a.version].origin.Imported?;
      } else {
        var v :| v in vers && vers[v].doc == b.doc && vers[v].origin.Imported?;
        assert vers'[v] == vers[v];
      }
    }
  }

  /** Inserting one item leaves room for every later one. */
  lemma StillAdmits(s: State, c: ImportCall, a: nat, b: nat)
    requires a < b < |c.plan| && Admits(s, c, a) && Admits(s, c, b) && ItemsDiffer(c.plan[a], c.plan[b])
    ensures Admits(ImportVersion(s, c, a), c, b)
  {
    var s' := ImportVersion(s, c, a);
    DocStillAdmits(s.docs, s.vers, c.plan[a], s'.docs, s'.vers, c.plan[b]);
    hide DocAdmits;
  }

  lemma PointersHold(s: State)
    requires Inv(s)
    ensures forall v :: v in s.vers ==> s.vers[v].doc in s.docs
  {
  }

  lemma FreshAdmits(s: State, c: ImportCall, i: nat)
    requires Inv(s) && i < |c.plan| && ItemOk(c.plan[i]) && ItemFresh(s, c.plan[i]) && !ImportReplayed(s, c)
    ensures Admits(s, c, i)
  {
    hide Inv;
    PointersHold(s);
    assert forall o :: o in s.ops && UsesKey(s.ops[o], c, i) ==> UsesImportKey(s.ops[o], c);
  }

  lemma {:induction false} ImportVersionsKeeps(s: State, c: ImportCall, n: nat)
    requires Inv(s) && n <= |c.plan| && PlanOk(c.plan) && forall i :: 0 <= i < |c.plan| ==> Admits(s, c, i)
    ensures var s' := ImportVersions(s, c, n);
            && Inv(s') && Monotone(s, s') && s'.release == s.release && s'.catalog == s.catalog
            && forall i :: n <= i < |c.plan| ==> Admits(s', c, i)
  {
    hide Inv, Monotone, Admits;
    if n == 0 {
      MonotoneSame(s);
    } else {
      ImportVersionsKeeps(s, c, n - 1);
      var s1 := ImportVersions(s, c, n - 1);
      var s' := ImportVersion(s1, c, n - 1);
      hide ImportVersions;
      ImportVersionKeeps(s1, c, n - 1, s');
      MonotoneTrans(s, s1, s');
      forall i | n <= i < |c.plan|
        ensures Admits(s', c, i)
      {
        StillAdmits(s1, c, n - 1, i);
      }
    }
  }

  lemma CatalogSet(s: State, catalog: CatalogHash)
    requires Inv(s) && s.catalog.None?
    ensures var s' := s.(catalog := Some(catalog), release := s.release + 1);
            Inv(s') && Monotone(s, s')
  {
    hide DocsOk, PointersOk, VersOk, RevsOk, SpecsUnique, GensOk, EvidenceOk, OpsOk, ActiveOk, OneActive, KeysUnique,
      FinishedOnce, SealedByOps, TasksOk, TasksUnique, ParsesUnique, BuildingOk, OpsHaveTasks, RetriesOk, RetriesUnique,
      RowsCounted, SealedUploads, DisabledVersions;
    MonotoneSame(s);
  }

  /** The import keeps the invariant; it happens at most once. */
  lemma ImportKeeps(s: State, c: ImportCall)
    requires Inv(s) && PlanOk(c.plan)
    ensures Inv(Import(s, c).0) && Monotone(s, Import(s, c).0)
  {
    hide Inv, Monotone, Admits, ImportVersion, PlanOk, ItemFresh, ItemOk;
    MonotoneSame(s);
    if !ImportReplayed(s, c) && ImportRefusal(s, c).None? {
      hide ImportReplayed;
      forall i | 0 <= i < |c.plan|
        ensures Admits(s, c, i)
      {
        PlanItemOk(c.plan, i);
        FreshAdmits(s, c, i);
      }
      ImportVersionsKeeps(s, c, |c.plan|);
      var s1 := ImportVersions(s, c, |c.plan|);
      CatalogSet(s1, c.cmd.catalog);
      MonotoneTrans(s, s1, Import(s, c).0);
    }
  }

  lemma PlanItemOk(plan: seq<ImportItem>, i: nat)
    requires PlanOk(plan) && i < |plan|
    ensures ItemOk(plan[i])
  {
  }
}
