/**
  * The current pointer of a document moves only together with its counter. An operation in flight whose reservation is
  * still the last one on its document was therefore confirmed against the version that is current now.
  */
module KnowledgePointers {
  import opened Wrappers
  import opened KnowledgeTypes
  import opened KnowledgeSteps
  import opened KnowledgeInvariant
  import opened KnowledgeMonotone
  import opened KnowledgeAccepting
  import opened KnowledgeRuns
  import opened KnowledgeFence

  ghost predicate PointersStay(docs: Docs, docs': Docs) {
    forall d :: d in docs ==>
      d in docs' && (docs'[d].rowVersion == docs[d].rowVersion ==> docs'[d].current == docs[d].current)
  }

  predicate PointedAt(docs: Docs, o: Operation) {
    o.conf.doc in docs && (docs[o.conf.doc].rowVersion == o.conf.expectedRow + 1 ==>
                             docs[o.conf.doc].current == o.conf.previous)
  }

  /** Where nothing was accepted after it, an operation in flight still meets the pointer it was confirmed against. */
  ghost predicate Pointed(docs: Docs, ops: Ops) {
    forall o {:trigger PointedAt(docs, ops[o])} :: o in ops && ActiveOp(ops[o]) ==> PointedAt(docs, ops[o])
  }

  ghost predicate NewPointed(s: State, s': State) {
    forall o {:trigger PointedAt(s'.docs, s'.ops[o])} ::
      o in s'.ops && o !in s.ops && ActiveOp(s'.ops[o]) ==> PointedAt(s'.docs, s'.ops[o])
  }

  lemma PointedKept(s: State, s': State)
    requires Pointed(s.docs, s.ops) && Fenced(s.docs, s.ops) && DocsKept(s.docs, s'.docs) && OpsKept(s.ops, s'.ops)
    requires PointersStay(s.docs, s'.docs) && NewPointed(s, s')
    ensures Pointed(s'.docs, s'.ops)
  {
    forall o | o in s'.ops && ActiveOp(s'.ops[o])
      ensures PointedAt(s'.docs, s'.ops[o])
    {
      if o in s.ops {
        assert OpKept(s.ops[o], s'.ops[o]) && Reserved(s.docs, s.ops[o]) && PointedAt(s.docs, s.ops[o]);
        assert DocumentKept(s.docs[s.ops[o].conf.doc], s'.docs[s.ops[o].conf.doc]);
      }
    }
  }

  // --- The steps that insert operations in flight ---

  lemma InsertionPoints(s: State, p: PublishCall, conf: Confirmation, hash: GenHash, ready: Option<GenId>)
    requires conf.doc in s.docs && conf.expectedRow == s.docs[conf.doc].rowVersion
    requires conf.previous == s.docs[conf.doc].current
    ensures PointersStay(s.docs, InsertPublication(s, p, conf, hash, ready).docs)
    ensures NewPointed(s, InsertPublication(s, p, conf, hash, ready))
  {
  }

  lemma PublicationPoints(s: State, p: PublishCall)
    ensures PointersStay(s.docs, AcceptPublication(s, p).0.docs) && NewPointed(s, AcceptPublication(s, p).0)
  {
    hide PublicationResult, PublishCheck, FirstReusable, Acceptable, InsertPublication, PointersStay, NewPointed;
    NothingPoints(s, s);
    if FindOp(s.ops, p.actor, PUBLISH, p.cmd.key).None? && PublishCheck(s, p).Ok? && p.op !in s.ops {
      PublishCheckAccepts(s, p);
      var (record, conf) := PublishCheck(s, p).value;
      var hash := HashOf(conf.version, conf.rev, record.revision.citation, record.revision.content, p.index.value);
      InsertionPoints(s, p, conf, hash, FirstReusable(s.gens, conf.version, conf.rev, hash, p.index.value));
    }
  }

  lemma RetryPoints(s: State, r: RetryCall)
    ensures PointersStay(s.docs, AcceptRetry(s, r).0.docs) && NewPointed(s, AcceptRetry(s, r).0)
  {
    hide RetryResult, RetrySource, ParentOk, HasRetry, Acceptable;
    var t := r.cmd.target;
    if FindOp(s.ops, r.actor, RETRY_INDEX, r.cmd.key).None? && r.index.Some?
       && Visible(s, t.doc, t.version, t.rev, r.scope)
       && RetrySource(s, t, r.cmd.task, r.actor, r.scope, r.index.value, r.today).Ok? && r.op !in s.ops {
      RetrySourceAccepts(s, r);
    }
  }

  // --- The other steps ---

  lemma UploadPoints(s: State, u: UploadCall)
    requires ValidCommand(u.cmd) && PlanMatches(u.cmd, u.plan)
    ensures PointersStay(s.docs, AcceptUpload(s, u).0.docs) && NewPointed(s, AcceptUpload(s, u).0)
  {
    hide UploadResult, ActiveTasksOn, ActiveOpsOn, BuildingOn;
  }

  lemma DisablePoints(s: State, cmd: DisableCommand, actor: Actor, scope: Scope, opId: OpId)
    ensures PointersStay(s.docs, Disable(s, cmd, actor, scope, opId).0.docs)
    ensures NewPointed(s, Disable(s, cmd, actor, scope, opId).0)
  {
    hide DisableReceiptOf, PendingOps, PendingTasks, PendingGens;
  }

  lemma CommitPoints(s: State, op: OpId, fingerprint: Fingerprint, actor: Actor, scope: Scope, today: int)
    ensures PointersStay(s.docs, CommitFinalization(s, op, fingerprint, actor, scope, today).0.docs)
  {
    hide Prepared, FinalReceiptOf, PublishedOf;
  }

  lemma {:induction false} ImportVersionsPoint(s: State, c: ImportCall, n: nat)
    requires n <= |c.plan| && forall i :: 0 <= i < |c.plan| ==> c.plan[i].doc !in s.docs
    ensures forall d :: d in s.docs ==>
            d in ImportVersions(s, c, n).docs && ImportVersions(s, c, n).docs[d] == s.docs[d]
    ensures forall o :: o in ImportVersions(s, c, n).ops && o !in s.ops ==> !ActiveOp(ImportVersions(s, c, n).ops[o])
  {
    if n > 0 {
      ImportVersionsPoint(s, c, n - 1);
    }
  }

  lemma ImportPoints(s: State, c: ImportCall)
    requires PlanOk(c.plan)
    ensures PointersStay(s.docs, Import(s, c).0.docs) && NewPointed(s, Import(s, c).0)
  {
    hide PlanOk, ImportReplayed, ImportVersions;
    if !ImportReplayed(s, c) && ImportRefusal(s, c).None? {
      ImportVersionsPoint(s, c, |c.plan|);
    }
  }

  lemma NothingPoints(s: State, s': State)
    requires s'.docs == s.docs && s'.ops.Keys == s.ops.Keys
    ensures PointersStay(s.docs, s'.docs) && NewPointed(s, s')
  {
  }

  lemma OldOpsOnly(s: State, s': State)
    requires s'.ops.Keys == s.ops.Keys
    ensures NewPointed(s, s')
  {
  }

  lemma ParseMovesNoDocs(s: State, t: TaskId, owner: Owner, outcome: ParseOutcome)
    ensures FinishParse(s, t, owner, outcome).0.docs == s.docs && ClaimParse(s, t, owner).0.docs == s.docs
    ensures FinishParse(s, t, owner, outcome).0.ops == s.ops && ClaimParse(s, t, owner).0.ops == s.ops
  {
    hide StorableBody;
  }

  lemma ClaimMovesNoDocs(s: State, t: TaskId, actor: Actor, scope: Scope, owner: Owner, index: Index, action: Action,
                         today: int)
    ensures ClaimIndex(s, t, actor, scope, owner, index, action, today).0.docs == s.docs
  {
    hide CheckInput, EndTasks, EndOps, EndGens;
  }

  lemma FailMovesNoDocs(s: State, t: TaskId, actor: Actor, owner: Owner, error: ErrorCode, action: Action)
    ensures FailIndex(s, t, actor, owner, error, action).0.docs == s.docs
    ensures FailIndex(s, t, actor, owner, error, action).0.ops.Keys == s.ops.Keys
  {
  }

  lemma FinishMovesNoDocs(s: State, claim: Claim, records: seq<Record>, scope: Scope, owner: Owner, action: Action,
                          today: int)
    ensures FinishIndex(s, claim, records, scope, owner, action, today).0.docs == s.docs
  {
    hide ValidRecords, CheckInput, WellNumbered, EndTasks, EndOps, EndGens;
  }

  lemma StepPoints(w: World, e: Event, w': World)
    requires WellFormed(e) && w' == Next(w, e)
    ensures PointersStay(w.s.docs, w'.s.docs) && NewPointed(w.s, w'.s)
  {
    hide PointersStay, NewPointed, PlanMatches, PlanOk, AfterPrepare, Owes, AcceptUpload, ClaimParse, FinishParse,
      AcceptPublication, ClaimIndex, FailIndex, FinishIndex, CommitFinalization, Disable, AcceptRetry, Import;
    match e
    case UploadEvent(u) => UploadPoints(w.s, u);
    case PublishEvent(p) => PublicationPoints(w.s, p);
    case RetryEvent(r) => RetryPoints(w.s, r);
    case DisableEvent(cmd, actor, scope, op) => DisablePoints(w.s, cmd, actor, scope, op);
    case ImportEvent(c) => ImportPoints(w.s, c);
    case ClaimParseEvent(t, owner) => ParseMovesNoDocs(w.s, t, owner, ParseOutcome(None, None, None));
      NothingPoints(w.s, w'.s);
    case FinishParseEvent(t, owner, outcome) => ParseMovesNoDocs(w.s, t, owner, outcome); NothingPoints(w.s, w'.s);
    case ClaimIndexEvent(t, actor, scope, owner, index, action, today) =>
      ClaimMovesNoDocs(w.s, t, actor, scope, owner, index, action, today);
      ClaimInsertsNothing(w.s, t, actor, scope, owner, index, action, today); NothingPoints(w.s, w'.s);
    case FailIndexEvent(t, actor, owner, error, action) =>
      FailMovesNoDocs(w.s, t, actor, owner, error, action); NothingPoints(w.s, w'.s);
    case FinishIndexEvent(claim, records, scope, owner, action, today) =>
      FinishMovesNoDocs(w.s, claim, records, scope, owner, action, today);
      FinishInsertsNothing(w.s, claim, records, scope, owner, action, today); NothingPoints(w.s, w'.s);
    case CommitEvent(op, fingerprint, actor, scope, today) =>
      CommitPoints(w.s, op, fingerprint, actor, scope, today);
      CommitInsertsNothing(w.s, op, fingerprint, actor, scope, today); OldOpsOnly(w.s, w'.s);
    case _ => NothingPoints(w.s, w'.s);
  }

  lemma StepKeepsPointed(w: World, e: Event)
    requires Safe(w) && WellFormed(e) && Fenced(w.s.docs, w.s.ops) && Pointed(w.s.docs, w.s.ops)
    ensures Pointed(Next(w, e).s.docs, Next(w, e).s.ops)
  {
    hide Next, WellFormed, Safe, Fenced, Pointed, Monotone, PointersStay, NewPointed;
    var w' := Next(w, e);
    StepIsSafe(w, e);
    MonotoneParts(w.s, w'.s);
    StepPoints(w, e, w');
    PointedKept(w.s, w'.s);
  }

  lemma {:induction false} RunKeepsPointed(es: seq<Event>)
    requires AllWellFormed(es)
    ensures Pointed(Run(START, es).s.docs, Run(START, es).s.ops)
    decreases |es|
  {
    hide Next, Safe, WellFormed, Inv;
    if es != [] {
      RunKeepsPointed(es[..|es| - 1]);
      RunIsFenced(es[..|es| - 1]);
      var w1 := Run(START, es[..|es| - 1]);
      assert Reachable(w1);
      ReachableIsSafe(w1);
      hide Fenced, Pointed;
      StepKeepsPointed(w1, es[|es| - 1]);
    }
  }

  /** In every reachable state, an operation in flight whose reservation is the last one names the current version. */
  lemma PreviousIsCurrent(w: World, o: OpId)
    requires Reachable(w) && o in w.s.ops && ActiveOp(w.s.ops[o])
    ensures PointedAt(w.s.docs, w.s.ops[o])
  {
    hide Next, PointedAt;
    var es :| AllWellFormed(es) && w == Run(START, es);
    RunKeepsPointed(es);
  }
}
