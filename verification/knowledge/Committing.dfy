/** When a publication is committed. */
module KnowledgeCommitting {
  import opened Wrappers
  import opened KnowledgeTypes
  import opened KnowledgeSteps
  import opened KnowledgeInvariant
  import opened KnowledgeRuns
  import opened KnowledgeOutcomes
  import opened KnowledgePointers
  import opened KnowledgeDraining
  import opened KnowledgeSucceeding
  import opened KnowledgeGuards

  /** A publication in flight of this actor and scope, built, still due, with room, on the evidence that was checked. */
  ghost predicate CommitGuards(s: State, o: OpId, fingerprint: Fingerprint, actor: Actor, scope: Scope, today: int) {
    && InFlight(s, o) && s.ops[o].actor == actor && s.ops[o].action == PUBLISH && !HasLiveTask(s, o)
    && RevKey(s.ops[o].version, s.ops[o].rev) in s.revs && scope == ScopeOf(s, o)
    && Due(s, o, today) && Room(s, o)
    && s.ops[o].conf.gen.Some? && s.ops[o].conf.gen.value in s.gens && s.ops[o].conf.gen.value in s.chunks
    && fingerprint == Fingerprint(s.ops[o].conf, s.gens[s.ops[o].conf.gen.value], s.chunks[s.ops[o].conf.gen.value])
  }

  // The version is PUBLISHED and current; the one it replaces is SUPERSEDED, and nothing else changes.
  ghost predicate Publishes(s: State, s': State, o: OpId) {
    && o in s.ops && s.ops[o].version in s.vers && s.vers[s.ops[o].version].doc in s.docs
    && var (row, v, d) := (s.ops[o], s.ops[o].version, s.vers[s.ops[o].version].doc);
       && OnlyRow(s.docs, s'.docs, d) && s'.docs[d] == Document(Some(v), s.docs[d].rowVersion + 1)
       && s'.vers.Keys == s.vers.Keys
       && s'.vers[v] == s.vers[v].(state := Published, publishedRev := Some(row.rev), publishedGen := row.conf.gen)
       && (forall x :: x in s.vers && x != v ==>
             s'.vers[x] == if s.docs[d].current == Some(x) then s.vers[x].(state := Superseded) else s.vers[x])
       && OnlyRow(s.ops, s'.ops, o) && s'.ops[o] == row.(state := OpSucceeded, result := Some(v))
       && s' == s.(docs := s'.docs, vers := s'.vers, ops := s'.ops, release := s.release + 1)
  }

  lemma SwitchPublishes(s: State, o: OpId)
    requires Intact(s, o) && PointersOk(s.docs, s.vers)
    requires var (d, previous) := (s.vers[s.ops[o].version].doc, s.ops[o].conf.previous);
             && previous == s.docs[d].current
             && PublishedOf(s.vers, d) == if previous.Some? then {previous.value} else {}
    ensures Publishes(s, SwitchVersion(s, o, s.ops[o].conf.gen.value), o)
  {
    var d := s.vers[s.ops[o].version].doc;
    forall x | x in s.vers
      ensures s.vers[x].doc == d && s.vers[x].state == Published <==> s.docs[d].current == Some(x)
    {
      assert x in PublishedOf(s.vers, d) <==> s.vers[x].doc == d && s.vers[x].state == Published;
    }
    hide PublishedOf, GenOk, OpOk, Parsed, PointedAt, PointersOk;
  }

  lemma GuardsPrepare(w: World, o: OpId, fingerprint: Fingerprint, actor: Actor, scope: Scope, today: int)
    requires Reachable(w) && CommitGuards(w.s, o, fingerprint, actor, scope, today)
    ensures Intact(w.s, o) && FinalRows(w.s, o, actor, scope)
    ensures var read := Prepared(w.s, o, scope, today);
            read.Ok? && ReadOf(w.s, o, read.value)
              && fingerprint == Fingerprint(read.value.conf, read.value.gen, read.value.chunks)
  {
    hide Next, HasLiveTask, Due, Room;
    StaysIntact(w, o);
    DoneIs(w, o);
    assert w.s.gens[w.s.ops[o].conf.gen.value].state == Ready;
    ReadyIsBacked(w, o);
    hide Intact, Backed, Done, Prepared;
    PreparedIs(w.s, o, today);
  }

  lemma CommitSwitches(s: State, o: OpId, fingerprint: Fingerprint, actor: Actor, scope: Scope, today: int)
    requires FinalRows(s, o, actor, scope) && ActiveOp(s.ops[o]) && Prepared(s, o, scope, today).Ok?
    requires var read := Prepared(s, o, scope, today).value;
             && read.conf == s.ops[o].conf && Some(read.genId) == s.ops[o].conf.gen
             && fingerprint == Fingerprint(read.conf, read.gen, read.chunks)
    requires s.ops[o].conf.doc == s.vers[s.ops[o].version].doc && Room(s, o)
    requires var previous := s.ops[o].conf.previous;
             PublishedOf(s.vers, s.vers[s.ops[o].version].doc) == if previous.Some? then {previous.value} else {}
    ensures CommitFinalization(s, o, fingerprint, actor, scope, today).0
            == SwitchVersion(s, o, s.ops[o].conf.gen.value)
  {
    hide Prepared, PublishedOf, FinalReceiptOf, SwitchVersion;
  }

  lemma AcceptedCommit(w: World, o: OpId, fingerprint: Fingerprint, actor: Actor, scope: Scope, today: int)
    requires Reachable(w) && CommitGuards(w.s, o, fingerprint, actor, scope, today)
    ensures Publishes(w.s, CommitFinalization(w.s, o, fingerprint, actor, scope, today).0, o)
  {
    hide Next, HasLiveTask, Due, Publishes, Prepared, PublishedOf, SwitchVersion, CommitFinalization;
    GuardsPrepare(w, o, fingerprint, actor, scope, today);
    CommitReplacesCurrent(w, o, scope, today);
    ReachableInv(w);
    assert PointersOk(w.s.docs, w.s.vers);
    hide Inv, Reachable, PointersOk;
    IntactDoc(w.s, o);
    hide Intact;
    CommitSwitches(w.s, o, fingerprint, actor, scope, today);
    SwitchPublishes(w.s, o);
  }

  lemma IntactDoc(s: State, o: OpId)
    requires Intact(s, o)
    ensures s.ops[o].conf.doc == s.vers[s.ops[o].version].doc && s.ops[o].conf.gen.Some?
  {
    hide GenOk, Parsed, PointedAt;
  }

  // --- Nothing else is committed ---

  lemma ChangedIsPrepared(s: State, o: OpId, fingerprint: Fingerprint, actor: Actor, scope: Scope, today: int)
    requires CommitFinalization(s, o, fingerprint, actor, scope, today).0 != s
    ensures FinalRows(s, o, actor, scope) && s.ops[o].state != OpSucceeded && Prepared(s, o, scope, today).Ok?
    ensures var read := Prepared(s, o, scope, today).value;
            fingerprint == Fingerprint(read.conf, read.gen, read.chunks)
    ensures s.docs[s.vers[s.ops[o].version].doc].rowVersion < MAX_COUNTER && s.release < MAX_COUNTER
  {
    hide Prepared, PublishedOf, FinalReceiptOf, SwitchVersion;
  }

  lemma ReadyHasNoLiveTask(s: State, o: OpId)
    requires Intact(s, o) && TasksOk(s.ops, s.gens, s.tasks) && s.gens[s.ops[o].conf.gen.value].state == Ready
    ensures !HasLiveTask(s, o)
  {
    EachTask(s.ops, s.gens, s.tasks);
    forall t
      ensures !LiveTask(s, o, t)
    {
    }
    hide TasksOk;
  }

  lemma ChangedIsGuarded(w: World, o: OpId, fingerprint: Fingerprint, actor: Actor, scope: Scope, today: int)
    requires Reachable(w) && CommitFinalization(w.s, o, fingerprint, actor, scope, today).0 != w.s
    ensures CommitGuards(w.s, o, fingerprint, actor, scope, today)
  {
    hide Next, CommitFinalization, Prepared, HasLiveTask;
    ChangedIsPrepared(w.s, o, fingerprint, actor, scope, today);
    ReachableInv(w);
    InvParts(w.s);
    hide Inv, OpsOk, TasksOk;
    PreparedIsInFlight(w.s, o, scope, today);
    StaysIntact(w, o);
    PreparedRead(w.s, o, scope, today);
    ReadyHasNoLiveTask(w.s, o);
    PreparedIsDue(w.s, o, scope, today);
    hide Intact, Due;
  }

  /**
    * In every reachable state a commit changes the tables exactly under its guards, and then publishes the version and
    * supersedes the one that was current.
    */
  lemma PublicationIsCommitted(w: World, o: OpId, fingerprint: Fingerprint, actor: Actor, scope: Scope, today: int)
    requires Reachable(w)
    ensures var s' := CommitFinalization(w.s, o, fingerprint, actor, scope, today).0;
            if CommitGuards(w.s, o, fingerprint, actor, scope, today) then Publishes(w.s, s', o) else s' == w.s
  {
    hide Next, CommitFinalization, CommitGuards, Publishes;
    if CommitGuards(w.s, o, fingerprint, actor, scope, today) {
      AcceptedCommit(w, o, fingerprint, actor, scope, today);
    } else if CommitFinalization(w.s, o, fingerprint, actor, scope, today).0 != w.s {
      ChangedIsGuarded(w, o, fingerprint, actor, scope, today);
      assert false;
    }
  }
}
