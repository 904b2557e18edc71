/** Retry chains are linear and numbered. */
module KnowledgeChains {
  import opened Wrappers
  import opened KnowledgeTypes
  import opened KnowledgeInvariant
  import opened KnowledgeRuns
  import opened KnowledgeOutcomes

  // Tasks reached by following retryOf once.
  predicate Retries(tasks: Tasks, t: TaskId, parent: TaskId) {
    t in tasks && tasks[t].retryOf == Some(parent)
  }

  /** A chain: every task retries its predecessor, and the first retries nothing. */
  predicate IsChain(tasks: Tasks, chain: seq<TaskId>) {
    && chain != [] && chain[0] in tasks && tasks[chain[0]].retryOf.None?
    && forall i :: 0 < i < |chain| ==> Retries(tasks, chain[i], chain[i - 1])
  }

  predicate Ended(t: Task) {
    t.state == TaskFailed || t.state == Interrupted
  }

  lemma RetryLink(ops: Ops, tasks: Tasks, t: TaskId, parent: TaskId)
    requires RetriesOk(ops, tasks) && Retries(tasks, t, parent)
    ensures parent in tasks && Ended(tasks[parent]) && tasks[t].attempt == tasks[parent].attempt + 1
    ensures tasks[parent].version == tasks[t].version && tasks[parent].rev == tasks[t].rev
            && tasks[parent].kind == tasks[t].kind == INDEX
  {
    assert RetryOk(ops, tasks, tasks[t]);
  }

  /** Following retryOf from any task ends at a first attempt after exactly `attempt` tasks. */
  lemma {:induction false} ChainOf(ops: Ops, tasks: Tasks, t: TaskId) returns (chain: seq<TaskId>)
    requires RetriesOk(ops, tasks) && t in tasks
    ensures IsChain(tasks, chain) && chain[|chain| - 1] == t && |chain| == tasks[t].attempt
    decreases tasks[t].attempt
  {
    if tasks[t].retryOf.None? {
      assert RetryOk(ops, tasks, tasks[t]);
      chain := [t];
    } else {
      RetryLink(ops, tasks, t, tasks[t].retryOf.value);
      var before := ChainOf(ops, tasks, tasks[t].retryOf.value);
      chain := before + [t];
      assert forall i :: 0 < i < |chain| ==> Retries(tasks, chain[i], chain[i - 1]);
    }
  }

  /** The i-th task of a chain is attempt i + 1; all share version and revision, and all but the last have failed. */
  lemma {:induction false} ChainIsNumbered(ops: Ops, tasks: Tasks, chain: seq<TaskId>, i: nat)
    requires RetriesOk(ops, tasks) && IsChain(tasks, chain) && i < |chain|
    ensures chain[i] in tasks && tasks[chain[i]].attempt == i + 1
    ensures tasks[chain[i]].version == tasks[chain[0]].version && tasks[chain[i]].rev == tasks[chain[0]].rev
    ensures i + 1 < |chain| ==> Ended(tasks[chain[i]])
    decreases i
  {
    if i == 0 {
      assert RetryOk(ops, tasks, tasks[chain[0]]);
    } else {
      ChainIsNumbered(ops, tasks, chain, i - 1);
      RetryLink(ops, tasks, chain[i], chain[i - 1]);
    }
    if i + 1 < |chain| {
      RetryLink(ops, tasks, chain[i + 1], chain[i]);
    }
  }

  /** Two chains that share a first task agree as far as both go: no task is retried twice. */
  lemma {:induction false} ChainsAgree(tasks: Tasks, a: seq<TaskId>, b: seq<TaskId>, i: nat)
    requires RetriesUnique(tasks) && IsChain(tasks, a) && IsChain(tasks, b) && a[0] == b[0] && i < |a| && i < |b|
    ensures a[i] == b[i]
    decreases i
  {
    if i > 0 {
      ChainsAgree(tasks, a, b, i - 1);
      assert Retries(tasks, a[i], a[i - 1]) && Retries(tasks, b[i], b[i - 1]);
      assert SameParent(tasks[a[i]], tasks[b[i]]);
    }
  }

  lemma RetryParts(w: World)
    requires Reachable(w)
    ensures RetriesOk(w.s.ops, w.s.tasks) && RetriesUnique(w.s.tasks)
  {
    hide Next;
    ReachableInv(w);
  }

  /**
    * Attempt numbers are chain depths, chains neither branch nor cycle, and only the last task of a chain may still be
    * unfinished.
    */
  lemma RetryChains(w: World, chain: seq<TaskId>)
    requires Reachable(w) && IsChain(w.s.tasks, chain)
    ensures forall i :: 0 <= i < |chain| ==> chain[i] in w.s.tasks && w.s.tasks[chain[i]].attempt == i + 1
    ensures forall i, j :: 0 <= i < j < |chain| ==> chain[i] != chain[j]
    ensures forall i :: 0 <= i < |chain| ==> w.s.tasks[chain[i]].version == w.s.tasks[chain[0]].version
                                             && w.s.tasks[chain[i]].rev == w.s.tasks[chain[0]].rev
    ensures forall i :: 0 <= i < |chain| - 1 ==> Ended(w.s.tasks[chain[i]])
    ensures forall other :: IsChain(w.s.tasks, other) && other[0] == chain[0] ==> chain <= other || other <= chain
  {
    hide Next;
    RetryParts(w);
    hide Reachable, RetriesOk, RetriesUnique;
    forall i | 0 <= i < |chain|
      ensures chain[i] in w.s.tasks && w.s.tasks[chain[i]].attempt == i + 1
      ensures w.s.tasks[chain[i]].version == w.s.tasks[chain[0]].version
              && w.s.tasks[chain[i]].rev == w.s.tasks[chain[0]].rev
      ensures i < |chain| - 1 ==> Ended(w.s.tasks[chain[i]])
    {
      ChainIsNumbered(w.s.ops, w.s.tasks, chain, i);
    }
    forall other | IsChain(w.s.tasks, other) && other[0] == chain[0]
      ensures chain <= other || other <= chain
    {
      forall i | 0 <= i < |chain| && i < |other|
        ensures chain[i] == other[i]
      {
        ChainsAgree(w.s.tasks, chain, other, i);
      }
    }
  }

  /** Every task lies on exactly one chain, of its attempt's length. */
  lemma EveryTaskHasItsChain(w: World, t: TaskId) returns (chain: seq<TaskId>)
    requires Reachable(w) && t in w.s.tasks
    ensures IsChain(w.s.tasks, chain) && chain[|chain| - 1] == t && |chain| == w.s.tasks[t].attempt
  {
    hide Next;
    RetryParts(w);
    hide Reachable, RetriesOk, RetriesUnique;
    chain := ChainOf(w.s.ops, w.s.tasks, t);
  }

  lemma RetriedHasEnded(w: World, t: TaskId, parent: TaskId)
    requires Reachable(w) && Retries(w.s.tasks, t, parent)
    ensures parent in w.s.tasks && Ended(w.s.tasks[parent])
  {
    hide Next;
    RetryParts(w);
    RetryLink(w.s.ops, w.s.tasks, t, parent);
  }

  /** A task that has been retried stays failed for ever. */
  lemma RetriedStaysFailed(w: World, w': World, t: TaskId, parent: TaskId)
    requires Reachable(w) && Follows(w, w') && Retries(w.s.tasks, t, parent)
    ensures parent in w.s.tasks && parent in w'.s.tasks && w'.s.tasks[parent] == w.s.tasks[parent]
            && Ended(w'.s.tasks[parent])
  {
    hide Next;
    RetriedHasEnded(w, t, parent);
    EndingsAreFinal(w, w');
  }
}
