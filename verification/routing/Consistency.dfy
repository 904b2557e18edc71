/** What every merge result satisfies. */
module Consistency {
  import opened Wrappers
  import opened Ordering
  import opened Merging

  // Accepted values are accepted again as they are.
  ghost predicate Stable(check: Validator) {
    forall f: Field, v: string :: check(f, v).Some? ==> check(f, check(f, v).value) == check(f, v)
  }

  predicate Valid(check: Validator, f: Field, c: Sourced) {
    check(f, c.value) == Some(c.value)
  }

  // A conflict lists at least two different values; it is resolved exactly when it selects the merged entity.
  predicate ConflictOk(check: Validator, entities: map<Field, Sourced>, unresolved: seq<Field>, c: Conflict) {
    && |c.candidates| > 1
    && (forall i, j :: 0 <= i < j < |c.candidates| ==> c.candidates[i].value != c.candidates[j].value)
    && (forall i :: 0 <= i < |c.candidates| ==> Valid(check, c.field, c.candidates[i]))
    && (c.resolvedByPriority <==> c.selected.Some?)
    && (if c.selected.Some? then c.field in entities && entities[c.field] == c.selected.value
        && c.selected.value in c.candidates
        else c.field in unresolved)
  }

  predicate HasConflict(conflicts: seq<Conflict>, f: Field) {
    exists i :: 0 <= i < |conflicts| && conflicts[i].field == f
  }

  /** The invariant of merge results. */
  predicate Consistent(check: Validator, m: Merged) {
    && NoRepeats(m.unresolved)
    && (forall f :: f in m.unresolved ==> f !in m.entities && HasConflict(m.conflicts, f))
    && (forall f :: f in m.entities ==> Valid(check, f, m.entities[f]))
    && (forall i, j :: 0 <= i < j < |m.conflicts| ==> m.conflicts[i].field != m.conflicts[j].field)
    && (forall i :: 0 <= i < |m.conflicts| ==> ConflictOk(check, m.entities, m.unresolved, m.conflicts[i]))
  }

  // --- A merge result is consistent ---

  lemma BestValuesDiffer(cs: set<Sourced>)
    ensures forall i, j :: 0 <= i < j < |Distinct(cs)| ==> Distinct(cs)[i].value != Distinct(cs)[j].value
  {
    var list := Distinct(cs);
    forall i, j | 0 <= i < j < |list|
      ensures list[i].value != list[j].value
    {
      assert list[i] in list && list[j] in list && SourcedLess(list[i], list[j]);
      SourcedOrder();
    }
  }

  lemma NoWinnerMeansConflict(cs: set<Sourced>)
    requires cs != {} && Winner(cs).None?
    ensures |Distinct(cs)| > 1
  {
    SomethingIsBest(cs);
    var list := Distinct(cs);
    assert list[0] in list;
    assert !Wins(cs, list[0]);
    var d :| d in Best(cs) && d != list[0];
    assert d in list;
  }

  lemma CandidatesAreValid(check: Validator, raws: seq<Raw>, f: Field)
    requires Stable(check)
    ensures forall c :: c in CandidatesOf(check, raws, f) ==> Valid(check, f, c)
  {
  }

  // The field to be added has not been seen yet.
  predicate Unseen(m: Merged, f: Field) {
    f !in m.entities && f !in m.unresolved && !HasConflict(m.conflicts, f)
  }

  lemma HasConflictAppend(conflicts: seq<Conflict>, c: Conflict, f: Field)
    ensures HasConflict(conflicts + [c], f) <==> HasConflict(conflicts, f) || c.field == f
  {
    if c.field == f {
      assert (conflicts + [c])[|conflicts|].field == f;
    }
    if i :| 0 <= i < |conflicts| && conflicts[i].field == f {
      assert (conflicts + [c])[i].field == f;
    }
  }

  lemma AddedConflict(check: Validator, m: Merged, f: Field, cs: set<Sourced>)
    requires cs != {} && |Distinct(cs)| > 1 && forall c :: c in cs ==> Valid(check, f, c)
    ensures var n := AddField(m, f, cs);
            ConflictOk(check, n.entities, n.unresolved, Conflict(f, Winner(cs), Distinct(cs), Winner(cs).Some?))
  {
    BestValuesDiffer(cs);
    var list := Distinct(cs);
    forall i | 0 <= i < |list|
      ensures Valid(check, f, list[i])
    {
      assert list[i] in list;
    }
  }

  lemma OldConflicts(check: Validator, m: Merged, f: Field, cs: set<Sourced>)
    requires Consistent(check, m) && Unseen(m, f)
    ensures var n := AddField(m, f, cs);
            forall i :: 0 <= i < |m.conflicts| ==> ConflictOk(check, n.entities, n.unresolved, m.conflicts[i])
  {
    hide Distinct, Winner;
  }

  lemma UnresolvedAfter(check: Validator, m: Merged, f: Field, cs: set<Sourced>)
    requires Consistent(check, m) && Unseen(m, f) && cs != {} && (Winner(cs).None? ==> |Distinct(cs)| > 1)
    ensures var n := AddField(m, f, cs);
            NoRepeats(n.unresolved) && forall g :: g in n.unresolved ==> g !in n.entities && HasConflict(n.conflicts, g)
  {
    hide Distinct, Winner, ConflictOk, HasConflict, Valid;
    var n := AddField(m, f, cs);
    forall g | g in n.unresolved
      ensures g !in n.entities && HasConflict(n.conflicts, g)
    {
      if |n.conflicts| > |m.conflicts| {
        HasConflictAppend(m.conflicts, n.conflicts[|m.conflicts|], g);
      }
    }
  }

  lemma FieldKeepsConsistent(check: Validator, m: Merged, f: Field, cs: set<Sourced>)
    requires Consistent(check, m) && Unseen(m, f) && forall c :: c in cs ==> Valid(check, f, c)
    ensures Consistent(check, AddField(m, f, cs))
  {
    if cs != {} {
      var n := AddField(m, f, cs);
      hide Distinct, Winner, ConflictOk, HasConflict, Valid;
      OldConflicts(check, m, f, cs);
      if |Distinct(cs)| > 1 {
        AddedConflict(check, m, f, cs);
      } else if Winner(cs).None? {
        NoWinnerMeansConflict(cs);
      }
      UnresolvedAfter(check, m, f, cs);
      ConflictFieldsDiffer(m, f, n);
    }
  }

  lemma ConflictFieldsDiffer(m: Merged, f: Field, n: Merged)
    requires Unseen(m, f)
    requires n.conflicts == m.conflicts || exists c: Conflict :: c.field == f && n.conflicts == m.conflicts + [c]
    requires forall i, j :: 0 <= i < j < |m.conflicts| ==> m.conflicts[i].field != m.conflicts[j].field
    ensures forall i, j :: 0 <= i < j < |n.conflicts| ==> n.conflicts[i].field != n.conflicts[j].field
  {
  }

  // What the first n fields have become: a winner selects, a tie leaves unresolved, a second value records a conflict.
  ghost predicate Explains(check: Validator, raws: seq<Raw>, m: Merged, f: Field) {
    var cs := CandidatesOf(check, raws, f);
    && (f in m.entities <==> exists c :: Wins(cs, c))
    && (f in m.entities ==> Wins(cs, m.entities[f]))
    && (f in m.unresolved <==> cs != {} && forall c :: !Wins(cs, c))
    && (HasConflict(m.conflicts, f) <==> |Distinct(cs)| > 1)
  }

  lemma AddFieldExplains(check: Validator, raws: seq<Raw>, m: Merged, f: Field)
    requires Unseen(m, f)
    ensures Explains(check, raws, AddField(m, f, CandidatesOf(check, raws, f)), f)
  {
    var cs := CandidatesOf(check, raws, f);
    var n := AddField(m, f, cs);
    if cs == {} {
      assert Best(cs) == {};
      ListingLength(Distinct(cs), Best(cs), SourcedLess) by { SourcedOrder(); }
    } else {
      hide CandidatesOf, Distinct, Wins;
      if |Distinct(cs)| > 1 {
        HasConflictAppend(m.conflicts, n.conflicts[|m.conflicts|], f);
      }
    }
  }

  lemma OthersStay(m: Merged, f: Field, cs: set<Sourced>, g: Field)
    requires g != f
    ensures var n := AddField(m, f, cs);
            && (g in n.entities <==> g in m.entities) && (g in m.entities ==> n.entities[g] == m.entities[g])
            && (g in n.unresolved <==> g in m.unresolved)
               && (HasConflict(n.conflicts, g) <==> HasConflict(m.conflicts, g))
  {
    hide Distinct, Winner;
    var n := AddField(m, f, cs);
    if |n.conflicts| > |m.conflicts| {
      HasConflictAppend(m.conflicts, n.conflicts[|m.conflicts|], g);
    }
  }

  lemma FieldsDiffer(i: nat, j: nat)
    requires i < j < |FIELDS|
    ensures FIELDS[i] != FIELDS[j]
  {
  }

  /** After n fields, the result explains those n fields and has not seen the others. */
  lemma {:induction false} MergeExplains(check: Validator, raws: seq<Raw>, n: nat)
    requires Stable(check) && n <= |FIELDS|
    ensures Consistent(check, MergeOf(check, raws, n))
    ensures forall k :: 0 <= k < n ==> Explains(check, raws, MergeOf(check, raws, n), FIELDS[k])
    ensures forall k :: n <= k < |FIELDS| ==> Unseen(MergeOf(check, raws, n), FIELDS[k])
    decreases n
  {
    hide CandidatesOf, AddField, Wins, Distinct, Stable;
    if n > 0 {
      MergeExplains(check, raws, n - 1);
      var before, f := MergeOf(check, raws, n - 1), FIELDS[n - 1];
      var cs := CandidatesOf(check, raws, f);
      hide MergeOf;
      CandidatesAreValid(check, raws, f);
      FieldKeepsConsistent(check, before, f, cs);
      AddFieldExplains(check, raws, before, f);
      hide Consistent, HasConflict;
      forall k | 0 <= k < |FIELDS| && k != n - 1
        ensures k < n ==> Explains(check, raws, AddField(before, f, cs), FIELDS[k])
        ensures k >= n ==> Unseen(AddField(before, f, cs), FIELDS[k])
      {
        if k < n - 1 {
          FieldsDiffer(k, n - 1);
        } else {
          FieldsDiffer(n - 1, k);
        }
        OthersStay(before, f, cs, FIELDS[k]);
      }
    }
  }

  /**
    * The merge is consistent; a field is selected exactly when one value has the highest source, unresolved exactly
    * when several share it, and has a conflict exactly when there are two different values.
    */
  lemma MergeIsConsistent(check: Validator, raws: seq<Raw>)
    requires Stable(check)
    ensures Consistent(check, MergeOf(check, raws, |FIELDS|))
    ensures forall f :: Explains(check, raws, MergeOf(check, raws, |FIELDS|), f)
  {
    hide Explains, Consistent, MergeOf, Stable;
    MergeExplains(check, raws, |FIELDS|);
    forall f
      ensures Explains(check, raws, MergeOf(check, raws, |FIELDS|), f)
    {
      EveryFieldListed(f);
    }
  }

  /** The order and the repetition of candidates do not matter. */
  lemma {:induction false} MergeIgnoresOrder(check: Validator, a: seq<Raw>, b: seq<Raw>, n: nat)
    requires n <= |FIELDS| && forall r :: r in a <==> r in b
    ensures MergeOf(check, a, n) == MergeOf(check, b, n)
    decreases n
  {
    hide AddField;
    if n > 0 {
      MergeIgnoresOrder(check, a, b, n - 1);
      assert CandidatesOf(check, a, FIELDS[n - 1]) == CandidatesOf(check, b, FIELDS[n - 1]);
    }
  }
}
