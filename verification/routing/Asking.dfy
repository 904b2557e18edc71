/** What a decision asks. */
module Asking {
  import opened Wrappers
  import opened Merging
  import opened Consistency
  import opened RoutingDecisions

  // What a request cannot do without.
  predicate Wants(intent: Intent, m: Merged, f: Field) {
    && f !in m.entities
    && ((f == ORDER_ID && intent in {OrderQuery, OrderDiagnosis})
        || (f == TASK_ID && intent in {TaskTracking, ReviewGeneration}))
  }

  predicate Asks(d: Decision, reason: Reason) {
    d.clarification == Some(Clarification(reason, None, [])) && !d.ready
  }

  // The first unresolved field is asked about, with the values of its conflict as options.
  ghost predicate AsksConflict(d: Decision, m: Merged)
    requires m.unresolved != []
  {
    && !d.ready && d.clarification.Some? && d.clarification.value.reason == IsConflict
    && d.clarification.value.field == Some(m.unresolved[0])
    && exists i :: 0 <= i < |m.conflicts| && m.conflicts[i].field == m.unresolved[0]
                   && d.clarification.value.options == m.conflicts[i].candidates
  }

  predicate AsksMissing(d: Decision, f: Field) {
    d.clarification == Some(Clarification(IsMissing, Some(f), [])) && !d.ready
  }

  /**
    * A decision asks about the first of these that holds: an unknown intent, a conflict, the object that the request
    * needs, a confidence below 0.60, one below 0.85 that the user has not confirmed, a question of the model's own.
    * When none holds it is ready.
    */
  ghost predicate AsksFirst(d: Decision, intent: Intent, confidence: real, m: Merged, modelRequested: bool,
                            confirmed: bool)
  {
    if intent.UnknownIntent? then Asks(d, IsUnknown)
    else if m.unresolved != [] then AsksConflict(d, m)
    else if Wants(intent, m, ORDER_ID) then AsksMissing(d, ORDER_ID)
    else if Wants(intent, m, TASK_ID) then AsksMissing(d, TASK_ID)
    else if confidence < 0.60 then Asks(d, IsLow)
    else if confidence < 0.85 && !confirmed then Asks(d, ConfirmIntent)
    else if modelRequested then Asks(d, ModelRequest)
    else d.ready && d.clarification.None?
  }

  lemma MissingWants(intent: Intent, m: Merged)
    ensures var missing := Missing(Required(intent), m);
            && (missing == [] <==> forall f :: !Wants(intent, m, f))
            && (missing != [] ==> missing == [missing[0]] && Wants(intent, m, FieldOf(missing[0])))
  {
    var required := Required(intent);
    assert Missing([], m) == [];
    assert required != [] ==> required[1..] == [];
    if Missing(required, m) == [] {
      forall f
        ensures !Wants(intent, m, f)
      {
      }
    } else {
      assert Wants(intent, m, FieldOf(required[0]));
    }
  }

  lemma DecisionAsks(check: Validator, intent: Intent, confidence: real, m: Merged, modelRequested: bool,
                     confirmed: bool)
    requires Consistent(check, m) && 0.0 <= confidence <= 1.0
    ensures var d := Compose(intent, confidence, m, modelRequested, confirmed);
            d.Ok? && d.value.entities == m && AsksFirst(d.value, intent, confidence, m, modelRequested, confirmed)
  {
    ReadyIffGatesPass(check, intent, confidence, m, modelRequested, confirmed);
    MissingWants(intent, m);
    assert !(Wants(intent, m, ORDER_ID) && Wants(intent, m, TASK_ID));
    hide Missing, Required, Consistent, GatesPass;
    if m.unresolved != [] && ConflictFor(m.conflicts, m.unresolved[0]).Some? {
      var c := ConflictFor(m.conflicts, m.unresolved[0]).value;
      var i :| 0 <= i < |m.conflicts| && m.conflicts[i] == c;
    }
  }

  // --- What a selection leaves behind ---

  // A conflict of the field, with the selected value first.
  ghost predicate IsUpdated(conflicts: seq<Conflict>, f: Field, selected: Sourced, c: Conflict) {
    exists b :: b in conflicts && b.field == f && IsAfter(b, f, selected, c)
  }

  predicate IsAfter(b: Conflict, f: Field, selected: Sourced, c: Conflict) {
    var others := Others(b.candidates, selected.value);
    others != [] && c == Conflict(f, Some(selected), [selected] + others, true)
  }

  lemma {:induction false} UpdatedIs(conflicts: seq<Conflict>, f: Field, selected: Sourced, c: Conflict)
    ensures c in Updated(conflicts, f, selected) <==>
            (c.field != f && c in conflicts) || IsUpdated(conflicts, f, selected, c)
    decreases |conflicts|
  {
    hide Others;
    if conflicts != [] {
      var n := |conflicts| - 1;
      UpdatedIs(conflicts[..n], f, selected, c);
      assert conflicts == conflicts[..n] + [conflicts[n]];
    }
  }

  // A value that was rejected for the selected one: another candidate, or the value selected before.
  ghost predicate WasOther(m: Merged, f: Field, selected: Sourced, o: Sourced) {
    && o.value != selected.value
    && if HasConflict(m.conflicts, f) then exists c :: c in m.conflicts && c.field == f && o in c.candidates
       else f in m.entities && o == m.entities[f]
  }

  ghost predicate IsOther(n: Merged, f: Field, selected: Sourced, o: Sourced) {
    exists c :: c in n.conflicts && c.field == f && o in c.candidates && o != selected
  }

  lemma OthersOf(check: Validator, m: Merged, c: Conflict, value: string, o: Sourced)
    requires Consistent(check, m) && c in m.conflicts
    ensures o in Others(c.candidates, value) <==> o in c.candidates && o.value != value
  {
    var i :| 0 <= i < |m.conflicts| && m.conflicts[i] == c;
    assert ConflictOk(check, m.entities, m.unresolved, m.conflicts[i]);
    OthersAre(c.candidates, value);
  }

  // Without a conflict before, the value selected before makes a new one.
  ghost predicate IsNew(m: Merged, f: Field, selected: Sourced, c: Conflict) {
    && !HasConflict(m.conflicts, f) && f in m.entities && m.entities[f].value != selected.value
    && c == Conflict(f, Some(selected), [selected, m.entities[f]], true)
  }

  lemma SelectedConflicts(m: Merged, f: Field, selected: Sourced, c: Conflict)
    ensures c in Selected(m, f, selected).conflicts <==>
            || (c.field != f && c in m.conflicts) || IsUpdated(m.conflicts, f, selected, c) || IsNew(m, f, selected, c)
  {
    UpdatedIs(m.conflicts, f, selected, c);
    hide Updated, IsUpdated, HasConflict;
  }

  lemma OwnConflict(check: Validator, m: Merged, f: Field, selected: Sourced, c: Conflict)
    requires Consistent(check, m) && (IsUpdated(m.conflicts, f, selected, c) || IsNew(m, f, selected, c))
    ensures c.field == f && c.selected == Some(selected) && c.resolvedByPriority && |c.candidates| > 1
    ensures c.candidates[0] == selected
    ensures forall o :: o in c.candidates && o != selected ==> WasOther(m, f, selected, o)
  {
    hide Consistent, HasConflict;
    if IsUpdated(m.conflicts, f, selected, c) {
      var b :| b in m.conflicts && b.field == f && IsAfter(b, f, selected, c);
      ConflictIsThere(m.conflicts, b);
      forall o | o in c.candidates && o != selected
        ensures o in b.candidates && o.value != selected.value
      {
        OthersOf(check, m, b, selected.value, o);
      }
    }
  }

  lemma ConflictIsThere(conflicts: seq<Conflict>, c: Conflict)
    requires c in conflicts
    ensures HasConflict(conflicts, c.field)
  {
  }

  lemma OtherIsKept(check: Validator, m: Merged, f: Field, selected: Sourced, o: Sourced)
    requires Consistent(check, m) && WasOther(m, f, selected, o)
    ensures IsOther(Selected(m, f, selected), f, selected, o)
  {
    hide Consistent, HasConflict, Selected;
    if HasConflict(m.conflicts, f) {
      var b :| b in m.conflicts && b.field == f && o in b.candidates;
      OthersOf(check, m, b, selected.value, o);
      var c := Conflict(f, Some(selected), [selected] + Others(b.candidates, selected.value), true);
      hide Others;
      assert IsAfter(b, f, selected, c) && o in c.candidates;
      SelectedConflicts(m, f, selected, c);
    } else {
      var c := Conflict(f, Some(selected), [selected, m.entities[f]], true);
      assert o in c.candidates;
      SelectedConflicts(m, f, selected, c);
    }
  }

  /**
    * A selection leaves the conflicts of other fields alone. That of its own field lists the selected value first and
    * then every other value that was there; without one, a different value selected before makes a new conflict.
    */
  lemma SelectionRecords(check: Validator, m: Merged, f: Field, selected: Sourced)
    requires Consistent(check, m)
    ensures var n := Selected(m, f, selected);
            && (forall c: Conflict :: c.field != f ==> (c in n.conflicts <==> c in m.conflicts))
            && (forall c :: c in n.conflicts && c.field == f ==>
                  c.selected == Some(selected) && c.resolvedByPriority && |c.candidates| > 1
                  && c.candidates[0] == selected)
            && (forall o :: IsOther(n, f, selected, o) <==> WasOther(m, f, selected, o))
  {
    var n := Selected(m, f, selected);
    hide Selected, Consistent, WasOther, IsUpdated, IsNew;
    forall c: Conflict
      ensures c.field != f ==> (c in n.conflicts <==> c in m.conflicts)
      ensures c in n.conflicts && c.field == f ==>
                && c.selected == Some(selected) && c.resolvedByPriority && |c.candidates| > 1
                && c.candidates[0] == selected
                && forall o :: o in c.candidates && o != selected ==> WasOther(m, f, selected, o)
    {
      SelectedConflicts(m, f, selected, c);
      if IsUpdated(m.conflicts, f, selected, c) || IsNew(m, f, selected, c) {
        OwnConflict(check, m, f, selected, c);
      }
    }
    forall o
      ensures IsOther(n, f, selected, o) <==> WasOther(m, f, selected, o)
    {
      if WasOther(m, f, selected, o) {
        OtherIsKept(check, m, f, selected, o);
      }
    }
  }

  // --- Which answers are taken ---

  // What may be answered: an offered value, or any accepted value for what is missing.
  ghost predicate MayAnswer(check: Validator, d: Decision, s: Selection) {
    && d.clarification.Some? && d.clarification.value.field == Some(s.field) && check(s.field, s.value).Some?
    && match d.clarification.value.reason
       case IsMissing => true
       case IsConflict => exists o :: o in d.clarification.value.options && o.value == s.value
       case _ => false
  }

  /** An answer is taken exactly when it was asked for, and it then resolves its field in the name of the user. */
  lemma AnswerTaken(check: Validator, d: Decision, s: Selection)
    requires Stable(check) && Composed(check, d)
    ensures Resume(check, d, s).Ok? <==> MayAnswer(check, d, s)
    ensures MayAnswer(check, d, s) ==>
              var selected := Sourced(check(s.field, s.value).value, UserMessage);
              var next := Resume(check, d, s).value;
              && next.entities == Selected(d.entities, s.field, selected)
              && next.entities.entities == d.entities.entities[s.field := selected]
              && next.intent == d.intent && next.confidence == d.confidence && next.confirmed == d.confirmed
  {
    ComposeOffers(check, d);
    if MayAnswer(check, d, s) {
      AnswersAreAccepted(check, d, s);
      var selected := Sourced(check(s.field, s.value).value, UserMessage);
      var n := Selected(d.entities, s.field, selected);
      SelectedTables(d.entities, s.field, selected);
      hide Selected;
      ComposedFrom(d.intent, d.confidence, n, d.modelRequested, d.confirmed);
    }
    hide Selected, Compose, Composed, Stable;
  }

  /** A confirmation is taken exactly when it was asked for. */
  lemma ConfirmationTaken(check: Validator, d: Decision)
    requires Composed(check, d)
    ensures Confirm(d).Ok? <==> d.clarification.Some? && d.clarification.value.reason == ConfirmIntent
    ensures Confirm(d).Ok? ==> Confirm(d).value.confirmed && Confirm(d).value.entities == d.entities
  {
    if d.clarification.Some? && d.clarification.value.reason == ConfirmIntent {
      ConfirmationIsTaken(check, d);
      ComposedFrom(d.intent, d.confidence, d.entities, d.modelRequested, true);
    }
    hide Compose, Composed;
  }
}
