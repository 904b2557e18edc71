/** From an upload to a published version. */
module KnowledgeLifecycle {
  import opened Wrappers
  import opened Text
  import opened KnowledgeTypes
  import opened KnowledgeSteps
  import opened KnowledgeInvariant
  import opened KnowledgeMonotone
  import opened KnowledgeRuns
  import opened KnowledgeOutcomes
  import opened KnowledgeDraining
  import opened KnowledgeIndexing
  import opened KnowledgeSucceeding
  import opened KnowledgeGuards
  import opened KnowledgeWorking
  import Chunker

  // --- Identities that are not taken ---

  lemma {:induction false} Unused(s: set<nat>) returns (n: nat)
    ensures forall x :: x in s ==> x < n
    decreases |s|
  {
    if s == {} {
      n := 0;
    } else {
      var x :| x in s;
      var m := Unused(s - {x});
      n := if x < m then m else x + 1;
      forall y | y in s
        ensures y < n
      {
        assert y == x || y in s - {x};
      }
    }
  }

  lemma UnusedKey(s: State, actor: Actor) returns (key: Key)
    ensures NewKey(s, actor, PUBLISH, key)
  {
    var ids := set o | o in s.ops && s.ops[o].key.UserKey? :: s.ops[o].key.id;
    var n := Unused(ids);
    key := UserKey(n);
    forall o | o in s.ops && s.ops[o].key == key
      ensures s.ops[o].key.id in ids
    {
    }
  }

  // --- The stages of an uploaded revision ---

  function Content(u: UploadCall, body: Option<string>): Revision {
    Revision(u.raw, u.format, u.cmd.meta, body)
  }

  // The rows of the revision while it is parsed: the current one of an idle draft, with room for a publication.
  ghost predicate Stage(s: State, u: UploadCall, state: TaskState, body: Option<string>) {
    var (v, k) := (u.plan.version, RevKey(u.plan.version, u.plan.rev));
    && u.task in s.tasks
    && s.tasks[u.task] == Task(u.op, UPLOAD, v, u.plan.rev, PARSE, None, state, u.owner, 1, None, None)
    && v in s.vers && s.vers[v].doc == u.plan.doc && s.vers[v].state == Draft && s.vers[v].currentRev == u.plan.rev
    && s.vers[v].origin.Uploaded? && s.vers[v].spec == u.cmd.meta.spec
    && k in s.revs && s.revs[k] == Content(u, body)
    && u.plan.doc in s.docs && s.docs[u.plan.doc].rowVersion + 1 < MAX_COUNTER && s.release < MAX_COUNTER
    && Idle(s, u.plan.doc)
  }

  /** What an upload needs beside its guards for its text to be published: room, and no other version in flight. */
  ghost predicate Unhindered(s: State, u: UploadCall) {
    && s.release < MAX_COUNTER
    && (!u.plan.newDocument ==> u.plan.doc in s.docs && s.docs[u.plan.doc].rowVersion + 2 < MAX_COUNTER)
    && forall o :: PendingOp(s, o, u.plan.doc) ==> s.ops[o].version == u.plan.version
  }

  lemma UploadIsIdle(s: State, u: UploadCall, s': State)
    requires UploadGuards(s, u) && UploadRows(s, u, s') && Unhindered(s, u)
    requires forall o :: o in s.ops ==> s.ops[o].version in s.vers
    ensures Idle(s', u.plan.doc)
  {
    var d := u.plan.doc;
    forall o | o in s'.ops && o != u.op && s'.ops[o].version in s'.vers && s'.vers[s'.ops[o].version].doc == d
      ensures !ActiveOp(s'.ops[o])
    {
      if PendingOp(s, o, d) {
      }
    }
    hide NewKey, EndsTasks, EndsGens, Unhindered;
  }

  lemma UploadStage(s: State, u: UploadCall, s': State)
    requires UploadGuards(s, u) && UploadRows(s, u, s') && Unhindered(s, u)
    requires OpsOk(s.vers, s.revs, s.gens, s.ops) && VersOk(s.vers, s.revs, s.gens)
    ensures Stage(s', u, Queued, None)
  {
    EachOp(s.vers, s.revs, s.gens, s.ops);
    if !u.plan.newVersion {
      assert Sealed(u.plan.version, s.vers[u.plan.version], s.gens);
    }
    hide Idle, OpsOk, VersOk, NewKey, EndsWork, BuildOpOk;
    UploadIsIdle(s, u, s');
  }

  // --- Parsing stores the text ---

  lemma GoodText(citation: nat, content: Revision)
    requires Indexable(citation, content)
    ensures GoodBody(ParseOutcome(content.body, content.body, None))
  {
    var body := content.body.value;
    ParsesIff(citation, content.meta.title, content.format, body);
    Chunker.NormalizedIsFixed(body);
    VisibleIff(body);
    hide Strip, Chunker.Normalize, Chunker.ParseRevision, Chunker.HasTitle;
    assert 0 < |body|;
  }

  lemma ClaimedStage(s: State, u: UploadCall, s': State)
    requires Stage(s, u, Queued, None) && OnlyTask(s, s', u.task, Running, None)
    ensures Stage(s', u, Running, None)
  {
    assert Idle(s', u.plan.doc);
    hide Idle;
  }

  lemma StoredStage(s: State, u: UploadCall, text: string, s': State)
    requires Stage(s, u, Running, None) && StoresText(s, s', u.task, text)
    ensures Stage(s', u, TaskSucceeded, Some(text))
  {
    assert Idle(s', u.plan.doc);
    hide Idle;
  }

  lemma UploadStep(w: World, u: UploadCall)
    requires ValidCommand(u.cmd) && PlanMatches(u.cmd, u.plan)
    ensures WellFormed(UploadEvent(u)) && Next(w, UploadEvent(u)).s == AcceptUpload(w.s, u).0
  {
    hide AcceptUpload;
  }

  lemma ParseSteps(w: World, e: Event)
    requires e.ClaimParseEvent? || e.FinishParseEvent?
    ensures WellFormed(e)
    ensures e.ClaimParseEvent? ==> Next(w, e).s == ClaimParse(w.s, e.task, e.owner).0
    ensures e.FinishParseEvent? ==> Next(w, e).s == FinishParse(w.s, e.task, e.owner, e.outcome).0
  {
    hide ClaimParse, FinishParse;
  }

  lemma PublishStep(w: World, p: PublishCall)
    ensures WellFormed(PublishEvent(p)) && Next(w, PublishEvent(p)).s == AcceptPublication(w.s, p).0
  {
    hide AcceptPublication;
  }

  lemma ReachesUpload(w: World, u: UploadCall) returns (w1: World)
    requires Reachable(w) && ValidCommand(u.cmd) && PlanMatches(u.cmd, u.plan)
    requires UploadGuards(w.s, u) && Unhindered(w.s, u)
    ensures Reachable(w1) && Follows(w, w1) && Stage(w1.s, u, Queued, None)
  {
    hide Next, UploadGuards, Unhindered, AcceptUpload, UploadRows, PlanMatches, Stage;
    UploadAccepted(w.s, u);
    UploadStep(w, u);
    StepReachable(w, UploadEvent(u));
    w1 := Next(w, UploadEvent(u));
    ReachableInv(w);
    assert OpsOk(w.s.vers, w.s.revs, w.s.gens, w.s.ops) && VersOk(w.s.vers, w.s.revs, w.s.gens);
    hide Inv, OpsOk, VersOk, Reachable, Follows;
    UploadStage(w.s, u, w1.s);
  }

  lemma ReachesClaim(w: World, u: UploadCall) returns (w1: World)
    requires Reachable(w) && Stage(w.s, u, Queued, None)
    ensures Reachable(w1) && Follows(w, w1) && Stage(w1.s, u, Running, None)
  {
    hide Next, Idle;
    var e := ClaimParseEvent(u.task, u.owner);
    ParseIsClaimed(w.s, u.task, u.owner);
    ParseSteps(w, e);
    StepReachable(w, e);
    w1 := Next(w, e);
    hide ClaimParse, OnlyTask, Reachable, Follows;
    ClaimedStage(w.s, u, w1.s);
  }

  lemma ReachesText(w: World, u: UploadCall, text: string) returns (w1: World)
    requires Reachable(w) && Stage(w.s, u, Running, None) && GoodBody(ParseOutcome(Some(text), Some(text), None))
    ensures Reachable(w1) && Follows(w, w1) && Stage(w1.s, u, TaskSucceeded, Some(text))
  {
    hide Next, Idle;
    var outcome := ParseOutcome(Some(text), Some(text), None);
    var e := FinishParseEvent(u.task, u.owner, outcome);
    ParseIsStored(w.s, u.task, u.owner, outcome);
    hide GoodBody;
    ParseSteps(w, e);
    StepReachable(w, e);
    w1 := Next(w, e);
    hide FinishParse, StoresText, OnlyTask, Reachable, Follows;
    StoredStage(w.s, u, text, w1.s);
  }

  // --- The stored text is accepted for publication ---

  function TargetOf(s: State, u: UploadCall): Target
    requires u.plan.doc in s.docs
  {
    Target(u.plan.doc, u.plan.version, u.plan.rev, s.docs[u.plan.doc].rowVersion)
  }

  lemma PublicationFor(s: State, u: UploadCall, text: string, index: Index) returns (p: PublishCall)
    requires Stage(s, u, TaskSucceeded, Some(text)) && PointersOk(s.docs, s.vers) && HasDay(u.cmd.meta)
    ensures PublicationGuards(s, p) && p.cmd.target == TargetOf(s, u) && p.index == Some(index)
    ensures p.actor == u.actor && p.scope == u.cmd.meta.scope
  {
    var t := TargetOf(s, u);
    var key := UnusedKey(s, u.actor);
    var op := Unused(s.ops.Keys);
    var gen := Unused(s.gens.Keys);
    var task := Unused(s.tasks.Keys);
    assert op !in s.ops && gen !in s.gens && task !in s.tasks;
    p := PublishCall(PublishCommand(t, Shows(s, t, u.actor), key), u.actor, u.cmd.meta.scope, Some(index), u.owner,
                     u.cmd.meta.effective, 0, op, gen, task);
    hide NewKey, Idle, Reuses;
    assert Publishable(s, t, p.today) by {
      assert s.docs[t.doc].current != Some(t.version);
      assert s.tasks[u.task].kind == PARSE && s.tasks[u.task].state == TaskSucceeded;
    }
  }

  // An accepted publication of the text, which is to be built for the index.
  ghost predicate Accepted(s: State, u: UploadCall, text: string, index: Index, o: OpId) {
    && InFlight(s, o) && s.ops[o].action == PUBLISH && s.ops[o].version == u.plan.version && s.ops[o].rev == u.plan.rev
    && s.ops[o].conf.gen.Some? && s.ops[o].conf.gen.value in s.gens && s.gens[s.ops[o].conf.gen.value].index == index
    && u.plan.version in s.vers && s.vers[u.plan.version].doc == u.plan.doc
    && s.vers[u.plan.version].origin.Uploaded?
    && RevKey(u.plan.version, u.plan.rev) in s.revs
    && s.revs[RevKey(u.plan.version, u.plan.rev)] == Content(u, Some(text))
  }

  lemma BuildsForIndex(s: State, p: PublishCall, s': State, index: Index)
    requires PublicationGuards(s, p) && PublicationRows(s, p, s') && p.index == Some(index)
    ensures var gen := s'.ops[p.op].conf.gen;
            gen.Some? && gen.value in s'.gens && s'.gens[gen.value].index == index
  {
    if g: GenId :| Reuses(s, p, g) && s'.ops[p.op].conf.gen == Some(g) {
      assert SameInput(s, p, g);
    }
    hide NewKey, Idle, Publishable, Reuses;
  }

  lemma AcceptedIs(s: State, u: UploadCall, text: string, index: Index, p: PublishCall, s': State)
    requires Stage(s, u, TaskSucceeded, Some(text)) && HasDay(u.cmd.meta)
    requires Indexable(u.plan.version, Content(u, Some(text)))
    requires PublicationGuards(s, p) && PublicationRows(s, p, s')
    requires p.cmd.target == TargetOf(s, u) && p.index == Some(index)
    ensures Accepted(s', u, text, index, p.op) && CanSucceed(s', p.op)
  {
    BuildsForIndex(s, p, s', index);
    hide NewKey, Idle, Publishable, Reuses, NewBuild, Indexable;
  }

  lemma ReachesPublication(w: World, u: UploadCall, text: string, index: Index) returns (w1: World, o: OpId)
    requires Reachable(w) && Stage(w.s, u, TaskSucceeded, Some(text)) && HasDay(u.cmd.meta)
    requires Indexable(u.plan.version, Content(u, Some(text)))
    ensures Reachable(w1) && Follows(w, w1) && Accepted(w1.s, u, text, index, o) && CanSucceed(w1.s, o)
  {
    hide Next, Indexable, Stage, PublicationGuards, PublicationRows, CanSucceed, Accepted, AcceptPublication;
    ReachableInv(w);
    assert PointersOk(w.s.docs, w.s.vers);
    hide Inv, PointersOk;
    var p := PublicationFor(w.s, u, text, index);
    PublicationAccepted(w.s, p);
    PublishStep(w, p);
    StepReachable(w, PublishEvent(p));
    w1, o := Next(w, PublishEvent(p)), p.op;
    hide Reachable, Follows;
    AcceptedIs(w.s, u, text, index, p, w1.s);
  }

  // --- What is accepted is published ---

  /** The version is current and holds the text, with the evidence of exactly this text built for the index. */
  ghost predicate Publishes(s: State, u: UploadCall, text: string, index: Index) {
    var (d, v, k) := (u.plan.doc, u.plan.version, RevKey(u.plan.version, u.plan.rev));
    && d in s.docs && s.docs[d].current == Some(v)
    && v in s.vers && s.vers[v].doc == d && s.vers[v].state == Published && s.vers[v].publishedRev == Some(u.plan.rev)
    && k in s.revs && s.revs[k] == Content(u, Some(text))
    && s.vers[v].publishedGen.Some?
    && var g := s.vers[v].publishedGen.value;
       && g in s.gens && s.gens[g].state == Ready && s.gens[g].index == index && g in s.chunks
       && Evidence(v, s.revs[k], g, s.chunks[g])
  }

  lemma ReleasedHolds(s: State, s': State, u: UploadCall, text: string, index: Index, o: OpId)
    requires Accepted(s, u, text, index, o) && Monotone(s, s') && Released(s', o)
    requires OpsOk(s'.vers, s'.revs, s'.gens, s'.ops) && VersOk(s'.vers, s'.revs, s'.gens)
    requires GensOk(s'.vers, s'.revs, s'.gens, s'.chunks) && EvidenceOk(s'.vers, s'.revs, s'.gens, s'.chunks)
    ensures Publishes(s', u, text, index)
  {
    var (v, k) := (u.plan.version, RevKey(u.plan.version, u.plan.rev));
    assert OpKept(s.ops[o], s'.ops[o]) && VersionKept(s.vers[v], s'.vers[v]) && RevisionKept(s.revs[k], s'.revs[k]);
    var g := s.ops[o].conf.gen.value;
    assert GenKept(s.gens[g], s'.gens[g]);
    assert OpOk(s'.vers, s'.revs, s'.gens, s'.ops[o]);
    assert Sealed(v, s'.vers[v], s'.gens);
    assert GenOk(s'.vers, s'.revs, s'.chunks, g, s'.gens[g]);
    hide Monotone, OpsOk, VersOk, GensOk, Evidence, DocsKept, VersKept, RevsKept, OpsKept, TasksKept, GensKept,
      ChunksKept;
  }

  lemma ReachesRelease(w: World, u: UploadCall, text: string, index: Index, o: OpId) returns (w1: World)
    requires Reachable(w) && Accepted(w.s, u, text, index, o) && CanSucceed(w.s, o)
    ensures Reachable(w1) && Follows(w, w1) && Publishes(w1.s, u, text, index)
  {
    hide Next, CanSucceed, Monotone;
    w1 := SuccessIsReached(w, o);
    LaterIsMonotone(w, w1);
    FollowsReachable(w, w1);
    ReachableInv(w1);
    var s := w1.s;
    assert OpsOk(s.vers, s.revs, s.gens, s.ops) && VersOk(s.vers, s.revs, s.gens);
    assert GensOk(s.vers, s.revs, s.gens, s.chunks) && EvidenceOk(s.vers, s.revs, s.gens, s.chunks);
    hide Inv, OpsOk, VersOk, GensOk, EvidenceOk, Reachable, Follows, Accepted, Released, Publishes;
    ReleasedHolds(w.s, s, u, text, index, o);
  }

  // --- The whole run ---

  /**
    * From every reachable state an accepted upload can be published: claimed, parsed, confirmed, built for any index
    * and committed, provided its text can be indexed, its validity period is not empty, the counters have room and no
    * other version of its document is in flight.
    */
  lemma UploadIsPublished(w: World, u: UploadCall, text: string, index: Index) returns (w': World)
    requires Reachable(w) && ValidCommand(u.cmd) && PlanMatches(u.cmd, u.plan)
    requires UploadGuards(w.s, u) && Unhindered(w.s, u) && HasDay(u.cmd.meta)
    requires Indexable(u.plan.version, Content(u, Some(text)))
    ensures Reachable(w') && Follows(w, w') && Publishes(w'.s, u, text, index)
  {
    GoodText(u.plan.version, Content(u, Some(text)));
    hide *;
    var w1 := ReachesUpload(w, u);
    var w2 := ReachesClaim(w1, u);
    FollowsTrans(w, w1, w2);
    var w3 := ReachesText(w2, u, text);
    FollowsTrans(w, w2, w3);
    var w4, o := ReachesPublication(w3, u, text, index);
    FollowsTrans(w, w3, w4);
    w' := ReachesRelease(w4, u, text, index, o);
    FollowsTrans(w, w4, w');
  }

  /** From the start every text that can be indexed is published by some run, as the first version of a new document. */
  lemma TextsArePublished(u: UploadCall, text: string, index: Index) returns (w: World)
    requires u.cmd.doc.None? && ValidCommand(u.cmd) && PlanMatches(u.cmd, u.plan) && HasDay(u.cmd.meta)
    requires Indexable(u.plan.version, Content(u, Some(text)))
    ensures Reachable(w) && Publishes(w.s, u, text, index)
  {
    hide Next, Indexable, Publishes;
    assert AllWellFormed([]) && Run(START, []) == START;
    w := UploadIsPublished(START, u, text, index);
  }

  /**
    * Every visible plain text without byte order mark and carriage returns, under a title of one to 128 characters and
    * with a validity period, is published by some run.
    */
  lemma PlainTextsArePublished(u: UploadCall, text: string, index: Index) returns (w: World)
    requires u.cmd.doc.None? && ValidCommand(u.cmd) && PlanMatches(u.cmd, u.plan) && HasDay(u.cmd.meta)
    requires u.format.PlainText? && 1 <= |u.cmd.meta.title| <= 128
    requires GoodBody(ParseOutcome(Some(text), Some(text), None))
    ensures Reachable(w) && Publishes(w.s, u, text, index)
  {
    var content := Content(u, Some(text));
    VisibleIff(text);
    hide Strip, Indexable, PlanMatches, Next, Publishes, Chunker.ParseRevision, Chunker.Normalize;
    Chunker.NormalizedIsFixed(text);
    ParsesIff(u.plan.version, u.cmd.meta.title, u.format, text);
    IndexableTexts(u.plan.version, content);
    w := TextsArePublished(u, text, index);
  }

  /** The run exists: an upload of the text "a" under the title "a" ends as the current version of its document. */
  lemma OneTextIsPublished() returns (w: World)
    ensures Reachable(w)
    ensures 0 in w.s.docs && w.s.docs[0].current == Some(0) && 0 in w.s.vers && w.s.vers[0].state == Published
    ensures RevKey(0, 1) in w.s.revs && w.s.revs[RevKey(0, 1)].body == Some("a")
  {
    var meta := Metadata("a", 0, 0, None, 0, 0);
    var u := UploadCall(UploadCommand(0, meta, UserKey(0), None, None, 0, 0), UploadPlan(0, 0, 1, 0, None, true, true),
                        0, Chunker.PlainText, 0, 0, 0, 0);
    assert !IsSpace("a"[0]);
    hide Next, Reachable, Strip;
    w := PlainTextsArePublished(u, "a", Index(0, 0, 0, 0));
  }
}
