/** Runs: every interleaving of the steps. */
module KnowledgeRuns {
  import opened Wrappers
  import opened KnowledgeTypes
  import opened KnowledgeSteps
  import opened KnowledgeInvariant
  import opened KnowledgeMonotone
  import opened KnowledgeUpload
  import opened KnowledgeParsing
  import opened KnowledgeAccepting
  import opened KnowledgeProgress
  import opened KnowledgeCompleting
  import opened KnowledgeFinalizing
  import opened KnowledgeWithdrawing
  import opened KnowledgeImporting
  import opened KnowledgeWork

  // A failed finalization owes the operation a rejection, in a transaction of its own.
  datatype Rejection = Rejection(op: OpId, actor: Actor, scope: Scope, stale: bool)

  datatype World = World(s: State, owed: set<Rejection>)

  const START: World := World(EMPTY, {})

  datatype Event =
    | UploadEvent(u: UploadCall)
    | ClaimParseEvent(task: TaskId, owner: Owner)
    | FinishParseEvent(task: TaskId, owner: Owner, outcome: ParseOutcome)
    | PublishEvent(p: PublishCall)
    | ClaimIndexEvent(task: TaskId, actor: Actor, scope: Scope, owner: Owner, index: Index, action: Action, today: int)
    | FailIndexEvent(task: TaskId, actor: Actor, owner: Owner, error: ErrorCode, action: Action)
    | FinishIndexEvent(claim: Claim, records: seq<Record>, scope: Scope, owner: Owner, action: Action, today: int)
    | PrepareEvent(op: OpId, actor: Actor, scope: Scope, today: int, configured: Option<Index>)
    | CommitEvent(op: OpId, fingerprint: Fingerprint, actor: Actor, scope: Scope, today: int)
    | RejectEvent(rejection: Rejection)
    | DisableEvent(cmd: DisableCommand, actor: Actor, scope: Scope, op: OpId)
    | RetryEvent(r: RetryCall)
    | RecoverEvent(owner: Owner)
    | ImportEvent(c: ImportCall)

  /** What the callers of the repositories guarantee about a request; it does not depend on the state. */
  ghost predicate WellFormed(e: Event) {
    && (e.UploadEvent? ==> ValidCommand(e.u.cmd) && PlanMatches(e.u.cmd, e.u.plan))
    && (e.ImportEvent? ==> PlanOk(e.c.plan))
  }

  // The codes after which the service ends the operation, and whether it ends as stale.
  predicate IsStaleCode(e: Error) {
    e in {StaleDocument, StaleRevision, StaleConfirmation, RequiresDraft, NotEffective, Expired}
  }

  function Owes<T>(result: Result<T, Error>, op: OpId, actor: Actor, scope: Scope): set<Rejection> {
    if result.Err? && (IsStaleCode(result.error) || result.error == DataInvalid)
    then {Rejection(op, actor, scope, IsStaleCode(result.error))} else {}
  }

  // The evidence check runs on the prepared snapshot, outside any transaction. Without a configured index the service
  // stops before it; what the check refuses is owed a rejection.
  ghost function AfterPrepare(s: State, op: OpId, actor: Actor, scope: Scope, today: int, configured: Option<Index>)
    : set<Rejection>
  {
    var result := PrepareFinalization(s, op, actor, scope, today);
    if result.Ok? && result.value.Reviewable? then
      if configured.Some? && !Accepts(configured.value, result.value.read)
      then {Rejection(op, actor, scope, false)} else {}
    else Owes(result, op, actor, scope)
  }

  /** One step. Refused steps leave the tables as they are. */
  ghost function Next(w: World, e: Event): World
    requires WellFormed(e)
  {
    match e
    case UploadEvent(u) => w.(s := AcceptUpload(w.s, u).0)
    case ClaimParseEvent(t, owner) => w.(s := ClaimParse(w.s, t, owner).0)
    case FinishParseEvent(t, owner, outcome) => w.(s := FinishParse(w.s, t, owner, outcome).0)
    case PublishEvent(p) => w.(s := AcceptPublication(w.s, p).0)
    case ClaimIndexEvent(t, actor, scope, owner, index, action, today) =>
      w.(s := ClaimIndex(w.s, t, actor, scope, owner, index, action, today).0)
    case FailIndexEvent(t, actor, owner, error, action) => w.(s := FailIndex(w.s, t, actor, owner, error, action).0)
    case FinishIndexEvent(claim, records, scope, owner, action, today) =>
      w.(s := FinishIndex(w.s, claim, records, scope, owner, action, today).0)
    case PrepareEvent(op, actor, scope, today, configured) =>
      w.(owed := w.owed + AfterPrepare(w.s, op, actor, scope, today, configured))
    case CommitEvent(op, fingerprint, actor, scope, today) =>
      var commit := CommitFinalization(w.s, op, fingerprint, actor, scope, today);
      World(commit.0, w.owed + Owes(commit.1, op, actor, scope))
    case RejectEvent(r) => if r in w.owed then w.(s := RejectFinalization(w.s, r.op, r.actor, r.scope, r.stale)) else w
    case DisableEvent(cmd, actor, scope, op) => w.(s := Disable(w.s, cmd, actor, scope, op).0)
    case RetryEvent(r) => w.(s := AcceptRetry(w.s, r).0)
    case RecoverEvent(owner) => w.(s := RecoverInterrupted(w.s, owner))
    case ImportEvent(c) => w.(s := Import(w.s, c).0)
  }

  ghost predicate AllWellFormed(es: seq<Event>) {
    forall e :: e in es ==> WellFormed(e)
  }

  ghost function Run(w: World, es: seq<Event>): World
    requires AllWellFormed(es)
    decreases |es|
  {
    if es == [] then w else Next(Run(w, es[..|es| - 1]), es[|es| - 1])
  }

  ghost predicate Reachable(w: World) {
    exists es :: AllWellFormed(es) && w == Run(START, es)
  }

  /** The second world is reached from the first by more steps. */
  ghost predicate Follows(w: World, w': World) {
    exists es :: AllWellFormed(es) && w' == Run(w, es)
  }

  // --- An owed rejection never meets unfinished work ---

  // The index work is over: the operation has ended, or its generation is READY.
  ghost predicate WorkOver(s: State, op: OpId) {
    && op in s.ops
    && (ActiveOp(s.ops[op]) ==>
          && s.ops[op].conf.gen.Some? && s.ops[op].conf.gen.value in s.gens
          && s.gens[s.ops[op].conf.gen.value].state == Ready)
  }

  lemma WorkOverGuards(s: State, op: OpId)
    requires TasksOk(s.ops, s.gens, s.tasks) && WorkOver(s, op)
    ensures RejectGuard(s, op)
  {
    forall t | t in s.tasks && s.tasks[t].op == op && s.tasks[t].kind == INDEX && ActiveOp(s.ops[op])
      ensures s.tasks[t].state == TaskSucceeded
    {
      assert TaskOk(s.ops, s.gens, s.tasks[t]);
    }
  }

  lemma WorkStaysOver(s: State, s': State, op: OpId)
    requires WorkOver(s, op) && OpsKept(s.ops, s'.ops) && GensKept(s.gens, s'.gens)
    ensures WorkOver(s', op)
  {
    assert OpKept(s.ops[op], s'.ops[op]);
    if ActiveOp(s.ops[op]) {
      assert GenKept(s.gens[s.ops[op].conf.gen.value], s'.gens[s.ops[op].conf.gen.value]);
    }
  }

  lemma OpsAreBound(s: State, op: OpId)
    requires OpsOk(s.vers, s.revs, s.gens, s.ops) && op in s.ops && s.ops[op].action == PUBLISH
             && s.ops[op].version in s.vers
    ensures ConfirmationMatches(s.ops[op], s.vers[s.ops[op].version].doc) && s.ops[op].conf.gen.value in s.gens
  {
    assert OpOk(s.vers, s.revs, s.gens, s.ops[op]);
  }

  /** Preparing fails as stale or invalid only when the index work is over. */
  lemma FailedPreparationIsOver(s: State, op: OpId, actor: Actor, scope: Scope, today: int)
    requires OpsOk(s.vers, s.revs, s.gens, s.ops) && FinalRows(s, op, actor, scope) && s.ops[op].state != OpSucceeded
    requires Prepared(s, op, scope, today).Ok? || Owes(Prepared(s, op, scope, today), op, actor, scope) != {}
    ensures WorkOver(s, op)
  {
    OpsAreBound(s, op);
    hide OpsOk, PublicationCandidate, PublicationConfirmation;
  }

  lemma PreparationOwes(s: State, op: OpId, actor: Actor, scope: Scope, today: int, configured: Option<Index>,
                        r: Rejection)
    requires OpsOk(s.vers, s.revs, s.gens, s.ops) && r in AfterPrepare(s, op, actor, scope, today, configured)
    ensures WorkOver(s, r.op)
  {
    hide OpsOk, Prepared, FinalReceiptOf, Accepts;
    if s.ops[op].state != OpSucceeded {
      FailedPreparationIsOver(s, op, actor, scope, today);
    }
  }

  lemma CommitOwes(s: State, op: OpId, fingerprint: Fingerprint, actor: Actor, scope: Scope, today: int, r: Rejection)
    requires OpsOk(s.vers, s.revs, s.gens, s.ops)
             && r in Owes(CommitFinalization(s, op, fingerprint, actor, scope, today).1, op, actor, scope)
    ensures WorkOver(s, r.op)
  {
    hide OpsOk, Prepared, FinalReceiptOf, SwitchVersion, PublishedOf;
    if s.ops[op].state != OpSucceeded {
      FailedPreparationIsOver(s, op, actor, scope, today);
    }
  }

  // --- Every run is safe ---

  ghost predicate Safe(w: World) {
    Inv(w.s) && forall r :: r in w.owed ==> WorkOver(w.s, r.op)
  }

  lemma InvParts(s: State)
    requires Inv(s)
    ensures OpsOk(s.vers, s.revs, s.gens, s.ops) && TasksOk(s.ops, s.gens, s.tasks)
  {
  }

  lemma RejectIsSafe(w: World, r: Rejection)
    requires Safe(w) && r in w.owed
    ensures var s' := RejectFinalization(w.s, r.op, r.actor, r.scope, r.stale);
            Inv(s') && Monotone(w.s, s')
  {
    InvParts(w.s);
    hide Inv, Monotone, OpsOk, TasksOk, RejectGuard, RejectFinalization, WorkOver;
    WorkOverGuards(w.s, r.op);
    RejectKeeps(w.s, r.op, r.actor, r.scope, r.stale);
    RejectIsMonotone(w.s, r.op, r.actor, r.scope, r.stale);
  }

  lemma StepKeepsTables(w: World, e: Event, w': World)
    requires Safe(w) && WellFormed(e) && w' == Next(w, e)
    ensures Inv(w'.s) && Monotone(w.s, w'.s)
  {
    hide Inv, Monotone, WorkOver, PlanMatches, PlanOk, AfterPrepare, Owes, AcceptUpload, ClaimParse, FinishParse,
      AcceptPublication, ClaimIndex, FailIndex, FinishIndex, CommitFinalization, RejectFinalization, Disable,
      AcceptRetry, RecoverInterrupted, Import;
    match e
    case UploadEvent(u) => AcceptUploadKeeps(w.s, u);
    case ClaimParseEvent(t, owner) => ClaimParseKeeps(w.s, t, owner);
    case FinishParseEvent(t, owner, outcome) => FinishParseKeeps(w.s, t, owner, outcome);
    case PublishEvent(p) => AcceptPublicationKeeps(w.s, p);
    case ClaimIndexEvent(t, actor, scope, owner, index, action, today) =>
      ClaimIndexKeeps(w.s, t, actor, scope, owner, index, action, today);
    case FailIndexEvent(t, actor, owner, error, action) => FailIndexKeeps(w.s, t, actor, owner, error, action);
    case FinishIndexEvent(claim, records, scope, owner, action, today) =>
      FinishIndexKeeps(w.s, claim, records, scope, owner, action, today);
    case PrepareEvent(op, actor, scope, today, configured) => MonotoneSame(w.s);
    case CommitEvent(op, fingerprint, actor, scope, today) => CommitKeeps(w.s, op, fingerprint, actor, scope, today);
    case RejectEvent(r) => MonotoneSame(w.s); if r in w.owed { RejectIsSafe(w, r); }
    case DisableEvent(cmd, actor, scope, op) => DisableKeeps(w.s, cmd, actor, scope, op);
    case RetryEvent(r) => AcceptRetryKeeps(w.s, r);
    case RecoverEvent(owner) => RecoverKeeps(w.s, owner);
    case ImportEvent(c) => ImportKeeps(w.s, c);
  }

  lemma NewlyOwed(w: World, e: Event, r: Rejection)
    requires OpsOk(w.s.vers, w.s.revs, w.s.gens, w.s.ops) && WellFormed(e) && r in Next(w, e).owed && r !in w.owed
    ensures WorkOver(w.s, r.op)
  {
    hide OpsOk, WorkOver, AfterPrepare, Owes, PlanMatches, PlanOk, AcceptUpload, ClaimParse, FinishParse,
      AcceptPublication, ClaimIndex, FailIndex, FinishIndex, CommitFinalization, RejectFinalization, Disable,
      AcceptRetry, RecoverInterrupted, Import;
    match e
    case PrepareEvent(op, actor, scope, today, configured) =>
      PreparationOwes(w.s, op, actor, scope, today, configured, r);
    case CommitEvent(op, fingerprint, actor, scope, today) => CommitOwes(w.s, op, fingerprint, actor, scope, today, r);
    case _ =>
  }

  /** Every step keeps the invariant, takes nothing back, and owes rejections only to operations whose work is over. */
  lemma StepIsSafe(w: World, e: Event)
    requires Safe(w) && WellFormed(e)
    ensures Safe(Next(w, e)) && Monotone(w.s, Next(w, e).s)
  {
    InvParts(w.s);
    hide Inv, OpsOk, TasksOk, WorkOver, WellFormed, Next;
    var w' := Next(w, e);
    StepKeepsTables(w, e, w');
    forall r | r in w'.owed
      ensures WorkOver(w'.s, r.op)
    {
      if r !in w.owed {
        NewlyOwed(w, e, r);
      }
      WorkStaysOver(w.s, w'.s, r.op);
    }
  }

  lemma {:induction false} RunIsSafe(w: World, es: seq<Event>)
    requires Safe(w) && AllWellFormed(es)
    ensures Safe(Run(w, es)) && Monotone(w.s, Run(w, es).s)
    decreases |es|
  {
    hide Safe, Monotone, WellFormed, Next;
    if es == [] {
      MonotoneSame(w.s);
    } else {
      var w1 := Run(w, es[..|es| - 1]);
      RunIsSafe(w, es[..|es| - 1]);
      StepIsSafe(w1, es[|es| - 1]);
      MonotoneTrans(w.s, w1.s, Run(w, es).s);
    }
  }

  /** Every reachable state satisfies the invariant, whatever the interleaving. */
  lemma ReachableIsSafe(w: World)
    requires Reachable(w)
    ensures Safe(w)
  {
    hide Next;
    var es :| AllWellFormed(es) && w == Run(START, es);
    InitInv();
    hide Inv;
    RunIsSafe(START, es);
  }

  /** Whatever happens later takes nothing back. */
  lemma LaterIsMonotone(w: World, w': World)
    requires Reachable(w) && Follows(w, w')
    ensures Safe(w') && Monotone(w.s, w'.s)
  {
    hide Safe, Monotone, Next;
    ReachableIsSafe(w);
    var es :| AllWellFormed(es) && w' == Run(w, es);
    RunIsSafe(w, es);
  }

  lemma {:induction false} RunsCompose(w: World, a: seq<Event>, b: seq<Event>)
    requires AllWellFormed(a) && AllWellFormed(b)
    ensures AllWellFormed(a + b) && Run(w, a + b) == Run(Run(w, a), b)
    decreases |b|
  {
    hide WellFormed, Next;
    if b == [] {
      assert a + b == a;
    } else {
      RunsCompose(w, a, b[..|b| - 1]);
      assert (a + b)[..|a + b| - 1] == a + b[..|b| - 1];
    }
  }

  lemma FollowsReachable(w: World, w': World)
    requires Reachable(w) && Follows(w, w')
    ensures Reachable(w')
  {
    hide Next;
    var a :| AllWellFormed(a) && w == Run(START, a);
    var b :| AllWellFormed(b) && w' == Run(w, b);
    RunsCompose(START, a, b);
  }

  lemma StepReachable(w: World, e: Event)
    requires Reachable(w) && WellFormed(e)
    ensures Reachable(Next(w, e)) && Follows(w, Next(w, e))
  {
    hide WellFormed, Next;
    var es := [e];
    assert es[..0] == [];
    assert Run(w, es) == Next(Run(w, es[..0]), e);
    assert AllWellFormed(es) && Run(w, es) == Next(w, e);
    FollowsReachable(w, Next(w, e));
  }
}
