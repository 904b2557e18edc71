/**
  * Inserting rows: what each part of the invariant asks of the new row. Every lemma is about one clause of the
  * invariant and the one or two tables that the clause reads, and says when the clause survives the insertion; the
  * files about uploads, publications, retries and imports put them together.
  */
module KnowledgeInserting {
  import opened KnowledgeTypes
  import opened KnowledgeSteps
  import opened KnowledgeInvariant

  ghost predicate Extends<K(!new), V(!new)>(a: map<K, V>, b: map<K, V>) {
    forall k :: k in a ==> k in b && a[k] == b[k]
  }

  lemma TasksInsert(ops: Ops, gens: Gens, tasks: Tasks, ops': Ops, gens': Gens, t: TaskId, row: Task)
    requires TasksOk(ops, gens, tasks) && Extends(ops, ops') && Extends(gens, gens') && TaskOk(ops', gens', row)
    ensures TasksOk(ops', gens', tasks[t := row])
  {
    var tasks' := tasks[t := row];
    forall u | u in tasks'
      ensures TaskOk(ops', gens', tasks'[u])
    {
      if u != t {
        assert TaskOk(ops, gens, tasks[u]);
      }
    }
  }

  lemma TasksUniqueInsert(tasks: Tasks, t: TaskId, row: Task)
    requires TasksUnique(tasks) && t !in tasks
    requires forall u :: u in tasks ==> tasks[u].op != row.op && (row.gen.Some? ==> tasks[u].gen != row.gen)
    ensures TasksUnique(tasks[t := row])
  {
  }

  lemma ParsesInsert(revs: Revs, tasks: Tasks, revs': Revs, t: TaskId, row: Task)
    requires ParsesUnique(revs, tasks) && t !in tasks && revs.Keys <= revs'.Keys
             && RevKey(row.version, row.rev) in revs'
    requires row.kind == PARSE ==> RevKey(row.version, row.rev) !in revs
    ensures ParsesUnique(revs', tasks[t := row])
  {
    var tasks' := tasks[t := row];
    forall a, b | a in tasks' && b in tasks' && ParseAlike(tasks'[a], tasks'[b])
      ensures a == b
    {
      assert a in tasks && b in tasks ==> (ParseAlike(tasks[a], tasks[b]) ==> a == b);
      assert forall u :: u in tasks ==> RevKey(tasks[u].version, tasks[u].rev) in revs;
    }
  }

  lemma BuildingInsert(gens: Gens, tasks: Tasks, gens': Gens, tasks': Tasks)
    requires BuildingOk(gens, tasks) && Extends(tasks, tasks')
    requires forall g :: g in gens' && gens'[g].state == Building ==>
                           (g in gens && gens[g].state == Building) || exists t :: Builds(tasks', t, g)
    ensures BuildingOk(gens', tasks')
  {
    forall g | g in gens' && gens'[g].state == Building
      ensures exists t :: Builds(tasks', t, g)
    {
      if g in gens && gens[g].state == Building {
        var t :| Builds(tasks, t, g);
        assert Builds(tasks', t, g);
      }
    }
  }

  lemma HasTaskExtends(tasks: Tasks, tasks': Tasks, o: OpId, kind: TaskType)
    requires HasTask(tasks, o, kind) && Extends(tasks, tasks')
    ensures HasTask(tasks', o, kind)
  {
    var t :| IsTaskOf(tasks, t, o, kind);
    assert IsTaskOf(tasks', t, o, kind);
  }

  lemma OpsHaveTasksInsert(ops: Ops, gens: Gens, tasks: Tasks, opId: OpId, row: Operation, gens': Gens, tasks': Tasks)
    requires OpsHaveTasks(ops, gens, tasks) && Extends(gens, gens') && Extends(tasks, tasks')
    requires HasWork(gens', tasks', opId, row)
    ensures OpsHaveTasks(ops[opId := row], gens', tasks')
  {
    var ops' := ops[opId := row];
    forall o | o in ops'
      ensures HasWork(gens', tasks', o, ops'[o])
    {
      if o != opId {
        assert HasWork(gens, tasks, o, ops[o]);
        forall kind | HasTask(tasks, o, kind)
          ensures HasTask(tasks', o, kind)
        {
          HasTaskExtends(tasks, tasks', o, kind);
        }
      }
    }
  }

  lemma RetriesInsert(ops: Ops, tasks: Tasks, ops': Ops, t: TaskId, row: Task)
    requires RetriesOk(ops, tasks) && Extends(ops, ops') && t !in tasks && RetryOk(ops', tasks, row)
    ensures RetriesOk(ops', tasks[t := row])
  {
    var tasks' := tasks[t := row];
    forall u | u in tasks'
      ensures RetryOk(ops', tasks', tasks'[u])
    {
      if u != t {
        assert RetryOk(ops, tasks, tasks[u]);
      }
    }
  }

  lemma RetriesUniqueInsert(tasks: Tasks, t: TaskId, row: Task)
    requires RetriesUnique(tasks)
    requires row.retryOf.Some? ==> forall u :: u in tasks ==> tasks[u].retryOf != row.retryOf
    ensures RetriesUnique(tasks[t := row])
  {
  }

  lemma KeysInsert(ops: Ops, opId: OpId, row: Operation)
    requires KeysUnique(ops) && forall o :: !HasKey(ops, o, row.actor, row.action, row.key)
    ensures KeysUnique(ops[opId := row])
  {
    assert forall o :: o in ops ==> !HasKey(ops, o, row.actor, row.action, row.key);
  }

  lemma FinishedInsert(ops: Ops, opId: OpId, row: Operation)
    requires FinishedOnce(ops) && opId !in ops
    requires forall o :: o in ops ==> !FinishedAlike(ops[o], row) && !FinishedAlike(row, ops[o])
    ensures FinishedOnce(ops[opId := row])
  {
  }

  lemma HasFinishedExtends(ops: Ops, ops': Ops, v: VerId, action: Action)
    requires HasFinished(ops, v, action) && Extends(ops, ops')
    ensures HasFinished(ops', v, action)
  {
    var o :| o in ops && Finished(ops[o], action) && ops[o].version == v;
    assert o in ops' && Finished(ops'[o], action);
  }

  lemma SealedByOpsExtends(vers: Vers, ops: Ops, vers': Vers, ops': Ops)
    requires SealedByOps(vers, ops) && Extends(ops, ops')
    requires forall v :: v in vers' ==> vers'[v].state == Draft || (v in vers && vers'[v].state == vers[v].state)
    ensures SealedByOps(vers', ops')
  {
    EachSealed(vers, ops);
    forall v, action | HasFinished(ops, v, action)
      ensures HasFinished(ops', v, action)
    {
      HasFinishedExtends(ops, ops', v, action);
    }
  }

  // Documents of versions never change.
  ghost predicate SameDocs(vers: Vers, vers': Vers) {
    forall v :: v in vers ==> v in vers' && vers'[v].doc == vers[v].doc
  }

  lemma ActiveInsert(vers: Vers, ops: Ops, vers': Vers, opId: OpId, row: Operation)
    requires ActiveOk(vers, ops) && OneActive(vers, ops) && SameDocs(vers, vers') && opId !in ops
    requires forall o :: o in ops && ActiveOp(ops[o]) && ops[o].version in vers ==>
             vers'[ops[o].version] == vers[ops[o].version]
    requires ActiveOp(row) ==>
               && row.version in vers' && vers'[row.version].state == Draft && vers'[row.version].currentRev == row.rev
               && forall o :: o in ops && ActiveOp(ops[o]) ==> !SameDoc(vers', ops[o].version, row.version)
    ensures ActiveOk(vers', ops[opId := row]) && OneActive(vers', ops[opId := row])
  {
    var ops' := ops[opId := row];
    forall o, p | o in ops' && p in ops' && ActiveOp(ops'[o]) && ActiveOp(ops'[p])
      && SameDoc(vers', ops'[o].version, ops'[p].version)
      ensures o == p
    {
      if o != opId && p != opId {
        assert SameDoc(vers, ops[o].version, ops[p].version);
      } else if o != p {
        assert SameDoc(vers', ops'[p].version, ops'[o].version);
        assert false;
      }
    }
  }
}
