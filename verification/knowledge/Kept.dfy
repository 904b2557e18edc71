/**
  * Invariant facts that survive as long as rows are kept. A clause that refers to other tables is not disturbed by
  * changes of these tables that only finish, seal or add rows; each lemma names the tables that a clause reads and the
  * way in which they may have changed, and is used by every group of steps.
  */
module KnowledgeKept {
  import opened KnowledgeTypes
  import opened KnowledgeSteps
  import opened KnowledgeInvariant
  import opened KnowledgeMonotone

  lemma SealedKept(v: VerId, row: Version, gens: Gens, gens': Gens)
    requires Sealed(v, row, gens) && GensKept(gens, gens')
    ensures Sealed(v, row, gens')
  {
    if row.state != Draft {
      assert GenKept(gens[row.publishedGen.value], gens'[row.publishedGen.value]);
    }
  }

  lemma VersOkKept(vers: Vers, revs: Revs, gens: Gens, revs': Revs, gens': Gens)
    requires VersOk(vers, revs, gens) && RevsKept(revs, revs') && GensKept(gens, gens')
    ensures VersOk(vers, revs', gens')
  {
    forall v | v in vers
      ensures RevKey(v, vers[v].currentRev) in revs' && Sealed(v, vers[v], gens')
    {
      SealedKept(v, vers[v], gens, gens');
    }
  }

  lemma GenOkKept(vers: Vers, revs: Revs, chunks: Chunks, vers': Vers, revs': Revs, chunks': Chunks, g: GenId,
                  row: Generation)
    requires GenOk(vers, revs, chunks, g, row)
    requires VersKept(vers, vers') && RevsKept(revs, revs')
    requires g in chunks <==> g in chunks'
    requires g in chunks ==> chunks[g] == chunks'[g]
    ensures GenOk(vers', revs', chunks', g, row)
  {
    assert VersionKept(vers[row.version], vers'[row.version]);
    assert RevisionKept(revs[RevKey(row.version, row.rev)], revs'[RevKey(row.version, row.rev)]);
  }

  // Generations and chunks untouched while versions and revisions move on.
  lemma GensOkKept(vers: Vers, revs: Revs, vers': Vers, revs': Revs, gens: Gens, chunks: Chunks)
    requires GensOk(vers, revs, gens, chunks) && VersKept(vers, vers') && RevsKept(revs, revs')
    ensures GensOk(vers', revs', gens, chunks)
  {
    forall g | g in gens
      ensures GenOk(vers', revs', chunks, g, gens[g])
    {
      GenOkKept(vers, revs, chunks, vers', revs', chunks, g, gens[g]);
    }
  }

  lemma EvidenceOkKept(vers: Vers, revs: Revs, vers': Vers, revs': Revs, gens: Gens, chunks: Chunks)
    requires EvidenceOk(vers, revs, gens, chunks) && VersKept(vers, vers') && RevsKept(revs, revs')
    ensures EvidenceOk(vers', revs', gens, chunks)
  {
    forall g | g in gens && gens[g].state == Ready && gens[g].built == Generated
      ensures gens[g].version in vers' && RevKey(gens[g].version, gens[g].rev) in revs' && g in chunks
      ensures Evidence(Citation(gens[g].version, vers'[gens[g].version]), revs'[RevKey(gens[g].version, gens[g].rev)],
                       g, chunks[g])
    {
      var v := gens[g].version;
      var k := RevKey(v, gens[g].rev);
      assert VersionKept(vers[v], vers'[v]) && RevisionKept(revs[k], revs'[k]);
      EvidenceSame(Citation(v, vers[v]), revs[k], revs'[k], g, chunks[g]);
    }
  }

  lemma EvidenceSame(citation: nat, a: Revision, b: Revision, g: GenId, records: seq<Record>)
    requires Evidence(citation, a, g, records) && RevisionKept(a, b)
    ensures Evidence(citation, b, g, records)
  {
    assert a == b;
  }

  lemma OpOkKept(vers: Vers, revs: Revs, gens: Gens, vers': Vers, revs': Revs, gens': Gens, o: Operation)
    requires OpOk(vers, revs, gens, o) && VersKept(vers, vers') && RevsKept(revs, revs') && GensKept(gens, gens')
    ensures OpOk(vers', revs', gens', o)
  {
    assert VersionKept(vers[o.version], vers'[o.version]);
    assert RevisionKept(revs[RevKey(o.version, o.rev)], revs'[RevKey(o.version, o.rev)]);
    if IsBuildAction(o.action) {
      assert GenKept(gens[o.conf.gen.value], gens'[o.conf.gen.value]);
    }
  }

  lemma OpsOkKept(vers: Vers, revs: Revs, gens: Gens, vers': Vers, revs': Revs, gens': Gens, ops: Ops)
    requires OpsOk(vers, revs, gens, ops) && VersKept(vers, vers') && RevsKept(revs, revs') && GensKept(gens, gens')
    ensures OpsOk(vers', revs', gens', ops)
  {
    forall o | o in ops
      ensures OpOk(vers', revs', gens', ops[o])
    {
      OpOkKept(vers, revs, gens, vers', revs', gens', ops[o]);
    }
  }
}
