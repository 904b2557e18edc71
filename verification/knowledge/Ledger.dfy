/** What the counters count. */
module KnowledgeLedger {
  import opened KnowledgeTypes
  import opened KnowledgeInvariant
  import opened KnowledgeRuns
  import opened KnowledgeOutcomes

  predicate FinishedOn(ops: Ops, o: OpId, action: Action, v: VerId) {
    o in ops && Finished(ops[o], action) && ops[o].version == v
  }

  lemma FinishedMatches(vers: Vers, revs: Revs, gens: Gens, ops: Ops, v: VerId)
    requires OpsOk(vers, revs, gens, ops) && SealedByOps(vers, ops) && v in vers
    ensures vers[v].state != Draft <==> exists o :: FinishedOn(ops, o, PUBLISH, v)
    ensures vers[v].state == Disabled <==> exists o :: FinishedOn(ops, o, DISABLE, v)
  {
    EachSealed(vers, ops);
    forall o, action | FinishedOn(ops, o, action, v)
      ensures action == PUBLISH ==> vers[v].state != Draft
      ensures action == DISABLE ==> vers[v].state == Disabled
    {
      assert OpOk(vers, revs, gens, ops[o]);
    }
    hide OpsOk;
    forall action | HasFinished(ops, v, action)
      ensures exists o :: FinishedOn(ops, o, action, v)
    {
      var o :| o in ops && Finished(ops[o], action) && ops[o].version == v;
      assert FinishedOn(ops, o, action, v);
    }
  }

  lemma FinishedDiffer(ops: Ops, v: VerId)
    requires FinishedOnce(ops)
    ensures forall o, p :: FinishedOn(ops, o, PUBLISH, v) && FinishedOn(ops, p, PUBLISH, v) ==> o == p
    ensures forall o, p :: FinishedOn(ops, o, DISABLE, v) && FinishedOn(ops, p, DISABLE, v) ==> o == p
  {
    assert forall o, p :: FinishedOn(ops, o, PUBLISH, v) && FinishedOn(ops, p, PUBLISH, v) ==>
      FinishedAlike(ops[o], ops[p]);
    assert forall o, p :: FinishedOn(ops, o, DISABLE, v) && FinishedOn(ops, p, DISABLE, v) ==>
      FinishedAlike(ops[o], ops[p]);
  }

  /**
    * A version has left DRAFT exactly when one SUCCEEDED publication is on it, and is DISABLED exactly when one disable
    * is.
    */
  lemma OneFinishedOperation(w: World, v: VerId)
    requires Reachable(w) && v in w.s.vers
    ensures w.s.vers[v].state != Draft <==> exists o :: FinishedOn(w.s.ops, o, PUBLISH, v)
    ensures w.s.vers[v].state == Disabled <==> exists o :: FinishedOn(w.s.ops, o, DISABLE, v)
    ensures forall o, p :: FinishedOn(w.s.ops, o, PUBLISH, v) && FinishedOn(w.s.ops, p, PUBLISH, v) ==> o == p
    ensures forall o, p :: FinishedOn(w.s.ops, o, DISABLE, v) && FinishedOn(w.s.ops, p, DISABLE, v) ==> o == p
  {
    hide Next;
    ReachableInv(w);
    var s := w.s;
    assert OpsOk(s.vers, s.revs, s.gens, s.ops) && SealedByOps(s.vers, s.ops) && FinishedOnce(s.ops);
    hide Inv, OpsOk, SealedByOps, FinishedOnce;
    FinishedMatches(s.vers, s.revs, s.gens, s.ops, v);
    FinishedDiffer(s.ops, v);
  }

  lemma {:induction false} Bijection(ops: Ops, os: set<OpId>, vs: set<VerId>)
    requires forall o :: o in os ==> o in ops && ops[o].version in vs
    requires forall o, p :: o in os && p in os && ops[o].version == ops[p].version ==> o == p
    requires forall v :: v in vs ==> exists o :: o in os && ops[o].version == v
    ensures |os| == |vs|
    decreases os
  {
    if o :| o in os {
      forall v | v in vs - {ops[o].version}
        ensures exists p :: p in os - {o} && ops[p].version == v
      {
        var p :| p in os && ops[p].version == v;
        assert p in os - {o};
      }
      Bijection(ops, os - {o}, vs - {ops[o].version});
    } else {
      assert vs == {};
    }
  }

  function Publications(vers: Vers, ops: Ops): set<OpId> {
    set o | o in ops && Finished(ops[o], PUBLISH) && ops[o].version in vers && vers[ops[o].version].origin.Uploaded?
  }

  function Disables(ops: Ops): set<OpId> {
    set o | o in ops && Finished(ops[o], DISABLE)
  }

  lemma PublicationsCount(vers: Vers, revs: Revs, gens: Gens, ops: Ops)
    requires OpsOk(vers, revs, gens, ops) && SealedByOps(vers, ops) && FinishedOnce(ops)
    ensures |Publications(vers, ops)| == |SealedUploads(vers)|
  {
    hide OpsOk, SealedByOps, FinishedOnce;
    forall o | o in Publications(vers, ops)
      ensures ops[o].version in SealedUploads(vers)
    {
      FinishedMatches(vers, revs, gens, ops, ops[o].version);
      assert FinishedOn(ops, o, PUBLISH, ops[o].version);
    }
    forall o, p | o in Publications(vers, ops) && p in Publications(vers, ops) && ops[o].version == ops[p].version
      ensures o == p
    {
      FinishedDiffer(ops, ops[o].version);
      assert FinishedOn(ops, o, PUBLISH, ops[o].version) && FinishedOn(ops, p, PUBLISH, ops[o].version);
    }
    forall v | v in SealedUploads(vers)
      ensures exists o :: o in Publications(vers, ops) && ops[o].version == v
    {
      FinishedMatches(vers, revs, gens, ops, v);
      var o :| FinishedOn(ops, o, PUBLISH, v);
      assert o in Publications(vers, ops);
    }
    Bijection(ops, Publications(vers, ops), SealedUploads(vers));
  }

  lemma DisablesCount(vers: Vers, revs: Revs, gens: Gens, ops: Ops)
    requires OpsOk(vers, revs, gens, ops) && SealedByOps(vers, ops) && FinishedOnce(ops)
    ensures |Disables(ops)| == |DisabledVersions(vers)|
  {
    forall o | o in Disables(ops)
      ensures ops[o].version in vers
    {
      assert OpOk(vers, revs, gens, ops[o]);
    }
    hide OpsOk, SealedByOps, FinishedOnce;
    forall o | o in Disables(ops)
      ensures ops[o].version in DisabledVersions(vers)
    {
      FinishedMatches(vers, revs, gens, ops, ops[o].version);
      assert FinishedOn(ops, o, DISABLE, ops[o].version);
    }
    forall o, p | o in Disables(ops) && p in Disables(ops) && ops[o].version == ops[p].version
      ensures o == p
    {
      FinishedDiffer(ops, ops[o].version);
      assert FinishedOn(ops, o, DISABLE, ops[o].version) && FinishedOn(ops, p, DISABLE, ops[o].version);
    }
    forall v | v in DisabledVersions(vers)
      ensures exists o :: o in Disables(ops) && ops[o].version == v
    {
      FinishedMatches(vers, revs, gens, ops, v);
      var o :| FinishedOn(ops, o, DISABLE, v);
      assert o in Disables(ops);
    }
    Bijection(ops, Disables(ops), DisabledVersions(vers));
  }

  /**
    * The release counter is the number of finalized publications plus disables plus the import, in operations and in
    * versions.
    */
  lemma ReleaseCounts(w: World)
    requires Reachable(w)
    ensures w.s.release == |SealedUploads(w.s.vers)| + |DisabledVersions(w.s.vers)| + if w.s.catalog.Some? then 1 else 0
    ensures w.s.release == |Publications(w.s.vers, w.s.ops)| + |Disables(w.s.ops)| + if w.s.catalog.Some? then 1 else 0
  {
    hide Next;
    ReachableInv(w);
    var s := w.s;
    assert OpsOk(s.vers, s.revs, s.gens, s.ops) && SealedByOps(s.vers, s.ops) && FinishedOnce(s.ops)
           && ReleaseCounted(s.release, s.catalog, s.vers);
    hide Inv, OpsOk, SealedByOps, FinishedOnce, SealedUploads, DisabledVersions, Publications, Disables;
    PublicationsCount(s.vers, s.revs, s.gens, s.ops);
    DisablesCount(s.vers, s.revs, s.gens, s.ops);
  }

  /**
    * The counter of a document is the number of intents accepted on it plus its finalized publications, plus one if it
    * was imported.
    */
  lemma CounterCounts(w: World, d: DocId)
    requires Reachable(w) && d in w.s.docs
    ensures w.s.docs[d].rowVersion ==
              |Intents(w.s.vers, w.s.ops, d)| + |Finalized(w.s.vers, w.s.ops, d)|
                + if IsImported(w.s.vers, d) then 1 else 0
  {
    hide Next;
    ReachableInv(w);
    assert RowsCounted(w.s.docs, w.s.vers, w.s.ops);
    hide Inv;
  }
}
