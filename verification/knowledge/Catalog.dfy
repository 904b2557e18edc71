/**
  * What a catalog import leaves behind: the rows of every version of the catalog, the pointers of its documents, and
  * everything that was there before.
  */
module KnowledgeCatalog {
  import opened Wrappers
  import opened KnowledgeTypes
  import opened KnowledgeSteps

  // The document of the version, and the sealed version itself.
  ghost predicate ImportedTables(s: State, item: ImportItem) {
    && item.doc in s.docs && s.docs[item.doc].rowVersion == 1
    && item.version in s.vers
    && s.vers[item.version] == Version(item.doc, item.content.meta.spec, Imported(item.source, item.active), 1,
                                       if item.active then Published else Historical, Some(1), Some(item.gen))
    && RevKey(item.version, 1) in s.revs && s.revs[RevKey(item.version, 1)] == item.content
    && item.gen in s.chunks && s.chunks[item.gen] == item.records
  }

  // The READY copy of its index.
  ghost predicate ImportedCopy(s: State, c: ImportCall, item: ImportItem) {
    && item.gen in s.gens
    && var gen := s.gens[item.gen];
       && gen.version == item.version && gen.rev == 1 && gen.index == c.index && gen.built == CopiedLegacy
       && gen.created == c.now && gen.state == Ready && gen.chunkCount == |item.records| && gen.error.None?
       && gen.input == GenHash(item.version, 1, item.source, item.content.raw, item.content.body, item.content.meta,
                               c.index)
  }

  predicate FinishedOp(s: State, c: ImportCall, number: nat, o: OpId, action: Action, v: VerId) {
    && o in s.ops && s.ops[o].actor == c.actor && s.ops[o].action == action && s.ops[o].version == v
    && s.ops[o].rev == 1 && s.ops[o].key == ImportKey(c.cmd.batch, number) && s.ops[o].input == ImportInput(c.cmd)
    && s.ops[o].state == OpSucceeded && s.ops[o].result == Some(v)
  }

  predicate FinishedTask(s: State, c: ImportCall, t: TaskId, o: OpId, action: Action, kind: TaskType, v: VerId,
                         gen: Option<GenId>)
  {
    t in s.tasks && s.tasks[t] == Task(o, action, v, 1, kind, gen, TaskSucceeded, c.owner, 1, None, None)
  }

  // Both operations of the version are finished, and both tasks.
  ghost predicate ImportedWork(s: State, c: ImportCall, number: nat, item: ImportItem) {
    && FinishedOp(s, c, number, item.uploadOp, UPLOAD, item.version)
    && FinishedOp(s, c, number, item.publishOp, PUBLISH, item.version)
    && FinishedTask(s, c, item.parseTask, item.uploadOp, UPLOAD, PARSE, item.version, None)
    && FinishedTask(s, c, item.indexTask, item.publishOp, PUBLISH, INDEX, item.version, Some(item.gen))
  }

  ghost predicate ImportedItem(s: State, c: ImportCall, i: nat)
    requires i < |c.plan|
  {
    ImportedTables(s, c.plan[i]) && ImportedCopy(s, c, c.plan[i]) && ImportedWork(s, c, i, c.plan[i])
  }

  lemma LastItem(s: State, c: ImportCall, i: nat)
    requires i < |c.plan| && ItemOk(c.plan[i])
    ensures ImportedItem(ImportVersion(s, c, i), c, i)
  {
  }

  lemma EarlierTables(s: State, c: ImportCall, i: nat, n: nat)
    requires i < n < |c.plan| && ItemsDiffer(c.plan[i], c.plan[n])
    ensures ImportedTables(s, c.plan[i]) ==> ImportedTables(ImportVersion(s, c, n), c.plan[i])
    ensures ImportedCopy(s, c, c.plan[i]) ==> ImportedCopy(ImportVersion(s, c, n), c, c.plan[i])
  {
  }

  lemma EarlierWork(s: State, c: ImportCall, i: nat, n: nat)
    requires i < n < |c.plan| && ItemsDiffer(c.plan[i], c.plan[n]) && ImportedWork(s, c, i, c.plan[i])
    ensures ImportedWork(ImportVersion(s, c, n), c, i, c.plan[i])
  {
  }

  lemma {:induction false} ItemsStand(s: State, c: ImportCall, i: nat, n: nat)
    requires PlanOk(c.plan) && i < n <= |c.plan|
    ensures ImportedItem(ImportVersions(s, c, n), c, i)
  {
    hide ImportedTables, ImportedCopy, ImportedWork, ImportVersion, ItemsDiffer, ItemOk;
    var before := ImportVersions(s, c, n - 1);
    if i == n - 1 {
      LastItem(before, c, i);
    } else {
      ItemsStand(s, c, i, n - 1);
      EarlierTables(before, c, i, n - 1);
      EarlierWork(before, c, i, n - 1);
    }
  }

  // --- Pointers ---

  // The active version of a document among the first versions of the plan.
  ghost predicate PointsAt(s: State, plan: seq<ImportItem>, n: nat, d: DocId)
    requires n <= |plan| && d in s.docs
  {
    && (forall i :: 0 <= i < n && plan[i].doc == d && plan[i].active ==> s.docs[d].current == Some(plan[i].version))
    && ((forall i :: 0 <= i < n && plan[i].doc == d ==> !plan[i].active) ==> s.docs[d].current.None?)
  }

  lemma PointerMoves(s: State, c: ImportCall, n: nat, d: DocId)
    requires n < |c.plan| && PlanOk(c.plan) && d in ImportVersion(s, c, n).docs
    requires if d in s.docs then PointsAt(s, c.plan, n, d) else forall i :: 0 <= i < n ==> c.plan[i].doc != d
    ensures PointsAt(ImportVersion(s, c, n), c.plan, n + 1, d)
  {
    var item := c.plan[n];
    assert forall i :: 0 <= i < n ==> ItemsDiffer(c.plan[i], item);
    assert ImportVersion(s, c, n).docs[d] == if d == item.doc then ImportVersion(s, c, n).docs[item.doc] else s.docs[d];
    if d == item.doc && item.active {
      assert forall i :: 0 <= i < n && c.plan[i].doc == d ==> !c.plan[i].active;
    }
    hide ItemOk;
  }

  lemma DocsGrow(s: State, c: ImportCall, n: nat)
    requires n < |c.plan|
    ensures ImportVersion(s, c, n).docs.Keys == s.docs.Keys + {c.plan[n].doc}
  {
  }

  lemma {:induction false} PointersStand(s: State, c: ImportCall, n: nat, d: DocId)
    requires PlanOk(c.plan) && n <= |c.plan| && d !in s.docs
    ensures var s' := ImportVersions(s, c, n);
            if d in s'.docs then PointsAt(s', c.plan, n, d) else forall i :: 0 <= i < n ==> c.plan[i].doc != d
  {
    hide PointsAt, PlanOk, ImportVersion;
    if n > 0 {
      PointersStand(s, c, n - 1, d);
      var before := ImportVersions(s, c, n - 1);
      DocsGrow(before, c, n - 1);
      if d in ImportVersion(before, c, n - 1).docs {
        PointerMoves(before, c, n - 1, d);
      }
    }
  }

  // --- Everything that was there stays ---

  ghost predicate Extends(s: State, s': State) {
    && (forall d :: d in s.docs ==> d in s'.docs && s'.docs[d] == s.docs[d])
    && (forall v :: v in s.vers ==> v in s'.vers && s'.vers[v] == s.vers[v])
    && (forall k :: k in s.revs ==> k in s'.revs && s'.revs[k] == s.revs[k])
    && (forall o :: o in s.ops ==> o in s'.ops && s'.ops[o] == s.ops[o])
    && (forall t :: t in s.tasks ==> t in s'.tasks && s'.tasks[t] == s.tasks[t])
    && (forall g :: g in s.gens ==> g in s'.gens && s'.gens[g] == s.gens[g])
    && (forall g :: g in s.gens && g in s.chunks ==> g in s'.chunks && s'.chunks[g] == s.chunks[g])
    && s'.catalog == s.catalog && s'.release == s.release
  }

  lemma VersionExtends(s: State, before: State, c: ImportCall, n: nat)
    requires n < |c.plan| && ItemFresh(s, c.plan[n]) && Extends(s, before)
    ensures Extends(s, ImportVersion(before, c, n))
  {
    assert Extends(s, before);
  }

  lemma ExtendsItself(s: State)
    ensures Extends(s, s)
  {
  }

  lemma {:induction false} VersionsExtend(s: State, c: ImportCall, n: nat)
    requires n <= |c.plan| && forall i :: 0 <= i < n ==> ItemFresh(s, c.plan[i])
    ensures Extends(s, ImportVersions(s, c, n))
  {
    hide Extends, ImportVersion, ItemFresh;
    if n == 0 {
      ExtendsItself(s);
    } else {
      var before := ImportVersions(s, c, n - 1);
      VersionsExtend(s, c, n - 1);
      VersionExtends(s, before, c, n - 1);
    }
  }

  // --- The import as a whole ---

  /** A catalog is imported once, into tables that hold none of its identities, on the release the caller saw. */
  ghost predicate ImportGuards(s: State, c: ImportCall) {
    && s.catalog.None? && s.release == c.cmd.expectedRelease < MAX_COUNTER
    && (forall i :: 0 <= i < |c.plan| ==> ItemFresh(s, c.plan[i]))
    && forall o :: o in s.ops ==>
         !(s.ops[o].actor == c.actor && s.ops[o].action in {UPLOAD, PUBLISH} && s.ops[o].key.ImportKey?
           && s.ops[o].key.batch == c.cmd.batch && s.ops[o].key.number < |c.plan|)
  }

  // Every version of the catalog with all its rows, beside everything that was there.
  ghost predicate Imports(s: State, s': State, c: ImportCall) {
    && s'.catalog == Some(c.cmd.catalog) && s'.release == s.release + 1
    && Extends(s, s'.(catalog := s.catalog, release := s.release))
    && (forall i :: 0 <= i < |c.plan| ==> ImportedItem(s', c, i))
    && (forall i :: 0 <= i < |c.plan| ==> c.plan[i].doc in s'.docs && PointsAt(s', c.plan, |c.plan|, c.plan[i].doc))
  }

  lemma ReleaseKeeps(s: State, c: ImportCall, catalog: Option<CatalogHash>, release: nat)
    ensures var s' := s.(catalog := catalog, release := release);
            && (forall i :: 0 <= i < |c.plan| && ImportedItem(s, c, i) ==> ImportedItem(s', c, i))
            && (forall d :: d in s.docs && PointsAt(s, c.plan, |c.plan|, d) ==> PointsAt(s', c.plan, |c.plan|, d))
  {
  }

  lemma VersionsImport(s: State, c: ImportCall)
    requires PlanOk(c.plan) && forall i :: 0 <= i < |c.plan| ==> ItemFresh(s, c.plan[i])
    ensures Imports(s, ImportVersions(s, c, |c.plan|).(catalog := Some(c.cmd.catalog), release := s.release + 1), c)
  {
    hide PlanOk, ImportVersions, PointsAt, ItemFresh, ImportedItem, Extends;
    var s1 := ImportVersions(s, c, |c.plan|);
    forall i | 0 <= i < |c.plan|
      ensures ImportedItem(s1, c, i) && c.plan[i].doc in s1.docs && PointsAt(s1, c.plan, |c.plan|, c.plan[i].doc)
    {
      ItemsStand(s, c, i, |c.plan|);
      ItemHasDoc(s1, c, i);
      assert ItemFresh(s, c.plan[i]);
      FreshDoc(s, c.plan[i]);
      PointersStand(s, c, |c.plan|, c.plan[i].doc);
    }
    VersionsExtend(s, c, |c.plan|);
    ReleaseKeeps(s1, c, Some(c.cmd.catalog), s.release + 1);
    ExtendsBack(s, s1, Some(c.cmd.catalog), s.release + 1);
  }

  lemma ExtendsBack(s: State, s1: State, catalog: Option<CatalogHash>, release: nat)
    requires Extends(s, s1)
    ensures var s' := s1.(catalog := catalog, release := release);
            Extends(s, s'.(catalog := s.catalog, release := s.release))
  {
  }

  lemma ItemHasDoc(s: State, c: ImportCall, i: nat)
    requires i < |c.plan| && ImportedItem(s, c, i)
    ensures c.plan[i].doc in s.docs
  {
  }

  lemma FreshDoc(s: State, item: ImportItem)
    requires ItemFresh(s, item)
    ensures item.doc !in s.docs
  {
  }

  /** A catalog is imported exactly under its guards, as a whole; otherwise nothing changes. */
  lemma CatalogIsImported(s: State, c: ImportCall)
    requires PlanOk(c.plan)
    ensures var (s', r) := Import(s, c);
            && (r == Ok(false) <==> ImportGuards(s, c))
            && if ImportGuards(s, c) then Imports(s, s', c) else s' == s
  {
    hide PlanOk, ImportVersions, Imports, ItemFresh;
    assert ImportReplayed(s, c) <==> exists o :: o in s.ops && UsesImportKey(s.ops[o], c);
    if ImportGuards(s, c) {
      VersionsImport(s, c);
    }
  }
}
