/**
  * What no step ever takes back: rows stay, identities stay, finished rows are frozen. The relation is reflexive and
  * transitive, table by table, so that what is proved of every step holds between any two states of a run.
  */
module KnowledgeMonotone {
  import opened KnowledgeTypes
  import opened KnowledgeInvariant

  predicate LaterState(a: PublicationState, b: PublicationState) {
    a == b || (a == Draft && b != Historical) || (a == Published && (b == Superseded || b == Disabled))
  }

  predicate VersionKept(a: Version, b: Version) {
    && a.doc == b.doc && a.spec == b.spec && a.origin == b.origin && a.currentRev <= b.currentRev
       && LaterState(a.state, b.state)
    && (a.state != Draft ==>
          a.currentRev == b.currentRev && a.publishedRev == b.publishedRev && a.publishedGen == b.publishedGen)
  }

  predicate RevisionKept(a: Revision, b: Revision) {
    a.raw == b.raw && a.format == b.format && a.meta == b.meta && (a.body.Some? ==> a.body == b.body)
  }

  predicate OpKept(a: Operation, b: Operation) {
    && b == a.(state := b.state, result := b.result, error := b.error)
    && (a.state in {OpSucceeded, OpFailed, OpStale} ==> a == b)
    && (a.state == OpExecuting ==> b.state != OpConfirmed)
  }

  predicate TaskKept(a: Task, b: Task) {
    && b == a.(state := b.state, error := b.error)
    && (!ActiveTask(a) ==> a == b)
    && (a.state == Running ==> b.state != Queued)
  }

  predicate GenKept(a: Generation, b: Generation) {
    && b == a.(state := b.state, chunkCount := b.chunkCount, error := b.error)
    && (a.state != Building ==> a == b)
  }

  // The counter never falls, and the pointer of a document moves only together with it.
  predicate DocumentKept(a: Document, b: Document) {
    && a.rowVersion <= b.rowVersion
    && (a.rowVersion == b.rowVersion && a.current.Some? ==> b.current == a.current)
  }

  ghost predicate DocsKept(a: Docs, b: Docs) {
    forall d :: d in a ==> d in b && DocumentKept(a[d], b[d])
  }

  ghost predicate VersKept(a: Vers, b: Vers) {
    forall v :: v in a ==> v in b && VersionKept(a[v], b[v])
  }

  ghost predicate RevsKept(a: Revs, b: Revs) {
    forall k :: k in a ==> k in b && RevisionKept(a[k], b[k])
  }

  ghost predicate OpsKept(a: Ops, b: Ops) {
    forall o :: o in a ==> o in b && OpKept(a[o], b[o])
  }

  ghost predicate TasksKept(a: Tasks, b: Tasks) {
    forall t :: t in a ==> t in b && TaskKept(a[t], b[t])
  }

  ghost predicate GensKept(a: Gens, b: Gens) {
    forall g :: g in a ==> g in b && GenKept(a[g], b[g])
  }

  ghost predicate ChunksKept(a: Chunks, b: Chunks) {
    forall g :: g in a ==> g in b && a[g] == b[g]
  }

  ghost predicate Monotone(a: State, b: State) {
    && a.release <= b.release && (a.catalog.Some? ==> a.catalog == b.catalog)
    && DocsKept(a.docs, b.docs) && VersKept(a.vers, b.vers) && RevsKept(a.revs, b.revs) && OpsKept(a.ops, b.ops)
    && TasksKept(a.tasks, b.tasks) && GensKept(a.gens, b.gens) && ChunksKept(a.chunks, b.chunks)
  }

  lemma MonotoneSame(s: State)
    ensures Monotone(s, s)
  {
  }

  lemma VersKeptTrans(a: Vers, b: Vers, c: Vers)
    requires VersKept(a, b) && VersKept(b, c)
    ensures VersKept(a, c)
  {
    forall v | v in a
      ensures v in c && VersionKept(a[v], c[v])
    {
      assert VersionKept(a[v], b[v]) && VersionKept(b[v], c[v]);
    }
  }

  lemma RowsKeptTrans(a: State, b: State, c: State)
    requires OpsKept(a.ops, b.ops) && TasksKept(a.tasks, b.tasks) && GensKept(a.gens, b.gens)
    requires OpsKept(b.ops, c.ops) && TasksKept(b.tasks, c.tasks) && GensKept(b.gens, c.gens)
    ensures OpsKept(a.ops, c.ops) && TasksKept(a.tasks, c.tasks) && GensKept(a.gens, c.gens)
  {
    forall o | o in a.ops
      ensures o in c.ops && OpKept(a.ops[o], c.ops[o])
    {
      assert OpKept(a.ops[o], b.ops[o]) && OpKept(b.ops[o], c.ops[o]);
    }
    forall t | t in a.tasks
      ensures t in c.tasks && TaskKept(a.tasks[t], c.tasks[t])
    {
      assert TaskKept(a.tasks[t], b.tasks[t]) && TaskKept(b.tasks[t], c.tasks[t]);
    }
    forall g | g in a.gens
      ensures g in c.gens && GenKept(a.gens[g], c.gens[g])
    {
      assert GenKept(a.gens[g], b.gens[g]) && GenKept(b.gens[g], c.gens[g]);
    }
  }

  lemma RevsKeptTrans(a: Revs, b: Revs, c: Revs)
    requires RevsKept(a, b) && RevsKept(b, c)
    ensures RevsKept(a, c)
  {
    forall k | k in a
      ensures k in c && RevisionKept(a[k], c[k])
    {
      assert RevisionKept(a[k], b[k]) && RevisionKept(b[k], c[k]);
    }
  }

  lemma MonotoneTrans(a: State, b: State, c: State)
    requires Monotone(a, b) && Monotone(b, c)
    ensures Monotone(a, c)
  {
    VersKeptTrans(a.vers, b.vers, c.vers);
    RevsKeptTrans(a.revs, b.revs, c.revs);
    RowsKeptTrans(a, b, c);
    hide VersKept, RevsKept, OpsKept, TasksKept, GensKept;
  }
}
