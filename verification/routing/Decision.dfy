/** Routing decisions and their dialogue. */
module RoutingDecisions {
  import opened Wrappers
  import opened Ordering
  import opened Merging
  import opened Consistency

  datatype Intent = OrderQuery | OrderDiagnosis | TaskTracking | SpecQa | ReviewGeneration | UnknownIntent

  datatype Parameter = OrderParameter | TaskParameter

  function Required(intent: Intent): seq<Parameter> {
    match intent
    case OrderQuery => [OrderParameter]
    case OrderDiagnosis => [OrderParameter]
    case TaskTracking => [TaskParameter]
    case ReviewGeneration => [TaskParameter]
    case SpecQa => []
    case UnknownIntent => []
  }

  function FieldOf(p: Parameter): Field {
    if p.OrderParameter? then ORDER_ID else TASK_ID
  }

  datatype Level = High | Medium | Low

  function LevelOf(confidence: real): Level {
    if confidence >= 0.85 then High else if confidence >= 0.60 then Medium else Low
  }

  datatype Reason = IsUnknown | IsConflict | IsMissing | IsLow | ConfirmIntent | ModelRequest

  datatype Clarification = Clarification(reason: Reason, field: Option<Field>, options: seq<Sourced>)

  datatype Decision = Decision(
    intent: Intent, confidence: real, level: Level, entities: Merged, missing: seq<Parameter>, ready: bool,
    clarification: Option<Clarification>, confirmed: bool, modelRequested: bool)

  datatype RoutingError =
    | BadConfidence | NoConflict | TooFewOptions | NotPending | NotOffered | InvalidSelection | NotConfirming

  // --- Composing a decision ---

  function Missing(required: seq<Parameter>, m: Merged): seq<Parameter> {
    if required == [] then []
    else (if FieldOf(required[0]) in m.entities then [] else [required[0]]) + Missing(required[1..], m)
  }

  function ConflictFor(conflicts: seq<Conflict>, f: Field): (c: Option<Conflict>)
    ensures c.Some? ==> c.value in conflicts && c.value.field == f
    ensures c.None? <==> !HasConflict(conflicts, f)
  {
    if conflicts == [] then None
    else if conflicts[0].field == f then
      assert HasConflict(conflicts, f);
      Some(conflicts[0])
    else
      var rest := ConflictFor(conflicts[1..], f);
      assert HasConflict(conflicts[1..], f) ==> HasConflict(conflicts, f) by {
        if i :| 0 <= i < |conflicts[1..]| && conflicts[1..][i].field == f {
          assert conflicts[i + 1].field == f;
        }
      }
      assert HasConflict(conflicts, f) ==> HasConflict(conflicts[1..], f) by {
        if i :| 0 <= i < |conflicts| && conflicts[i].field == f {
          assert conflicts[1..][i - 1].field == f;
        }
      }
      rest
  }

  /** The first open issue, in a fixed order. */
  function Clarify(intent: Intent, level: Level, m: Merged, missing: seq<Parameter>, confirmed: bool,
                   modelRequested: bool)
    : Result<Option<Clarification>, RoutingError>
  {
    if intent.UnknownIntent? then Ok(Some(Clarification(IsUnknown, None, [])))
    else if m.unresolved != [] then
      var conflict := ConflictFor(m.conflicts, m.unresolved[0]);
      if conflict.None? then Err(NoConflict)
      else if |conflict.value.candidates| < 2 then Err(TooFewOptions)
      else Ok(Some(Clarification(IsConflict, Some(m.unresolved[0]), conflict.value.candidates)))
    else if missing != [] then Ok(Some(Clarification(IsMissing, Some(FieldOf(missing[0])), [])))
    else if level.Low? then Ok(Some(Clarification(IsLow, None, [])))
    else if level.Medium? && !confirmed then Ok(Some(Clarification(ConfirmIntent, None, [])))
    else if modelRequested then Ok(Some(Clarification(ModelRequest, None, [])))
    else Ok(None)
  }

  function Compose(intent: Intent, confidence: real, m: Merged, modelRequested: bool, confirmed: bool)
    : Result<Decision, RoutingError>
  {
    if !(0.0 <= confidence <= 1.0) then Err(BadConfidence)
    else
      var missing := Missing(Required(intent), m);
      var clarification := Clarify(intent, LevelOf(confidence), m, missing, confirmed, modelRequested);
      if clarification.Err? then Err(clarification.error)
      else Ok(Decision(intent, confidence, LevelOf(confidence), m, missing, clarification.value.None?,
                       clarification.value, confirmed, modelRequested))
  }

  // Only a conflict has options, and at least two; only a conflict and a missing parameter name a field.
  predicate PayloadOk(c: Clarification) {
    match c.reason
    case IsConflict => c.field.Some? && |c.options| >= 2
    case IsMissing => c.field.Some? && c.options == []
    case _ => c.field.None? && c.options == []
  }

  /** The contract that a decision is validated against, stated without the order of the checks. */
  predicate MeetsContract(d: Decision) {
    && d.missing == Missing(Required(d.intent), d.entities)
    && (if d.ready then
          && d.clarification.None? && !d.intent.UnknownIntent? && d.missing == [] && d.entities.unresolved == []
          && !d.level.Low? && (d.level.Medium? ==> d.confirmed) && !d.modelRequested
        else d.clarification.Some? && PayloadOk(d.clarification.value))
  }

  lemma {:induction false} MissingIs(required: seq<Parameter>, m: Merged)
    ensures forall p :: p in Missing(required, m) <==> p in required && FieldOf(p) !in m.entities
    ensures |Missing(required, m)| <= |required|
    decreases |required|
  {
    if required != [] {
      MissingIs(required[1..], m);
      assert required == [required[0]] + required[1..];
    }
  }

  // Every gate that a ready decision has passed.
  predicate GatesPass(intent: Intent, confidence: real, m: Merged, modelRequested: bool, confirmed: bool) {
    && !intent.UnknownIntent? && m.unresolved == [] && (forall p :: p in Required(intent) ==> FieldOf(p) in m.entities)
    && confidence >= 0.60 && (confidence < 0.85 ==> confirmed) && !modelRequested
  }

  // Nothing is missing exactly when every required field has been merged.
  lemma NothingMissing(intent: Intent, m: Merged)
    ensures Missing(Required(intent), m) == [] <==> forall p :: p in Required(intent) ==> FieldOf(p) in m.entities
  {
    MissingIs(Required(intent), m);
    hide Missing, Required;
    if Missing(Required(intent), m) != [] {
      assert Missing(Required(intent), m)[0] in Missing(Required(intent), m);
    }
  }

  lemma NoIssueIff(intent: Intent, level: Level, m: Merged, missing: seq<Parameter>, confirmed: bool,
                   modelRequested: bool)
    requires m.unresolved != [] ==>
             ConflictFor(m.conflicts, m.unresolved[0]).Some?
             && |ConflictFor(m.conflicts, m.unresolved[0]).value.candidates| > 1
    ensures var c := Clarify(intent, level, m, missing, confirmed, modelRequested);
            && c.Ok?
            && (c.value.None? <==> !intent.UnknownIntent? && m.unresolved == [] && missing == [] && !level.Low?
                                   && (level.Medium? ==> confirmed) && !modelRequested)
  {
    hide ConflictFor;
  }

  /** On a consistent merge composing never fails, and a decision is ready exactly when every gate passes. */
  lemma ReadyIffGatesPass(check: Validator, intent: Intent, confidence: real, m: Merged, modelRequested: bool,
                          confirmed: bool)
    requires Consistent(check, m)
    ensures Compose(intent, confidence, m, modelRequested, confirmed).Ok? <==> 0.0 <= confidence <= 1.0
    ensures 0.0 <= confidence <= 1.0 ==>
              (Compose(intent, confidence, m, modelRequested, confirmed).value.ready <==>
               GatesPass(intent, confidence, m, modelRequested, confirmed))
  {
    hide Missing, ConflictFor, Consistent, Required, Clarify;
    NothingMissing(intent, m);
    ConflictIsUsable(check, m);
    NoIssueIff(intent, LevelOf(confidence), m, Missing(Required(intent), m), confirmed, modelRequested);
  }

  lemma PayloadIsOk(check: Validator, intent: Intent, level: Level, m: Merged, missing: seq<Parameter>, confirmed: bool,
                    modelRequested: bool)
    requires Consistent(check, m)
    ensures var c := Clarify(intent, level, m, missing, confirmed, modelRequested);
            c.Ok? && c.value.Some? ==> PayloadOk(c.value.value)
  {
    hide ConflictFor, Consistent;
  }

  /** Every composed decision meets the contract that it is validated against. */
  lemma ComposeMeetsContract(check: Validator, intent: Intent, confidence: real, m: Merged, modelRequested: bool,
                             confirmed: bool)
    requires Consistent(check, m) && Compose(intent, confidence, m, modelRequested, confirmed).Ok?
    ensures MeetsContract(Compose(intent, confidence, m, modelRequested, confirmed).value)
  {
    MissingIs(Required(intent), m);
    PayloadIsOk(check, intent, LevelOf(confidence), m, Missing(Required(intent), m), confirmed, modelRequested);
    hide Missing, ConflictFor, Consistent, Required, PayloadOk;
  }

  lemma ConflictIsUsable(check: Validator, m: Merged)
    requires Consistent(check, m)
    ensures m.unresolved != [] ==>
              var c := ConflictFor(m.conflicts, m.unresolved[0]);
              c.Some? && |c.value.candidates| > 1 && forall o :: o in c.value.candidates ==>
                Valid(check, m.unresolved[0], o)
  {
    if m.unresolved != [] {
      assert m.unresolved[0] in m.unresolved;
      var c := ConflictFor(m.conflicts, m.unresolved[0]).value;
      var i :| 0 <= i < |m.conflicts| && m.conflicts[i] == c;
      assert ConflictOk(check, m.entities, m.unresolved, m.conflicts[i]);
      forall o | o in c.candidates
        ensures Valid(check, m.unresolved[0], o)
      {
        var j :| 0 <= j < |c.candidates| && c.candidates[j] == o;
      }
    }
  }

  // --- Applying a selection ---

  datatype Selection = Selection(field: Field, value: string)

  function Others(candidates: seq<Sourced>, value: string): seq<Sourced> {
    if candidates == [] then []
    else
      var before := Others(candidates[..|candidates| - 1], value);
      if candidates[|candidates| - 1].value != value then before + [candidates[|candidates| - 1]] else before
  }

  // The conflict of the selected field keeps the other candidates; with none left it is dropped.
  function Updated(conflicts: seq<Conflict>, f: Field, selected: Sourced): seq<Conflict> {
    if conflicts == [] then []
    else
      var before := Updated(conflicts[..|conflicts| - 1], f, selected);
      var c := conflicts[|conflicts| - 1];
      var others := Others(c.candidates, selected.value);
      if c.field != f then before + [c]
      else if others == [] then before
      else before + [Conflict(f, Some(selected), [selected] + others, true)]
  }

  function Selected(m: Merged, f: Field, selected: Sourced): Merged {
    var conflicts := Updated(m.conflicts, f, selected);
    var previous := if f in m.entities then Some(m.entities[f]) else None;
    Merged(m.entities[f := selected],
           if !HasConflict(m.conflicts, f) && previous.Some? && previous.value.value != selected.value
           then conflicts + [Conflict(f, Some(selected), [selected, previous.value], true)] else conflicts,
           Without(m.unresolved, f))
  }

  function Without(fields: seq<Field>, f: Field): seq<Field> {
    if fields == [] then []
    else
      var before := Without(fields[..|fields| - 1], f);
      if fields[|fields| - 1] != f then before + [fields[|fields| - 1]] else before
  }

  function ApplySelection(check: Validator, m: Merged, s: Selection): Result<Merged, RoutingError> {
    var value := check(s.field, s.value);
    if value.None? then Err(InvalidSelection) else Ok(Selected(m, s.field, Sourced(value.value, UserMessage)))
  }

  method ApplySelectionStepwise(check: Validator, m: Merged, s: Selection) returns (r: Result<Merged, RoutingError>)
    ensures r == ApplySelection(check, m, s)
  {
    var value := check(s.field, s.value);
    if value.None? {
      return Err(InvalidSelection);
    }
    var selected := Sourced(value.value, UserMessage);
    var entities := m.entities[s.field := selected];
    var conflicts: seq<Conflict> := [];
    var found := false;
    for i := 0 to |m.conflicts|
      invariant conflicts == Updated(m.conflicts[..i], s.field, selected)
      invariant found <==> exists k :: 0 <= k < i && m.conflicts[k].field == s.field
    {
      var c := m.conflicts[i];
      assert m.conflicts[..i + 1][..i] == m.conflicts[..i];
      if c.field != s.field {
        conflicts := conflicts + [c];
        continue;
      }
      found := true;
      var others := OtherCandidates(c.candidates, selected.value);
      var candidates := [selected] + others;
      if |candidates| > 1 {
        conflicts := conflicts + [c.(selected := Some(selected), candidates := candidates, resolvedByPriority := true)];
      }
    }
    assert m.conflicts[..|m.conflicts|] == m.conflicts;
    if !found && s.field in m.entities && m.entities[s.field].value != selected.value {
      conflicts := conflicts + [Conflict(s.field, Some(selected), [selected, m.entities[s.field]], true)];
    }
    var unresolved := [];
    for i := 0 to |m.unresolved|
      invariant unresolved == Without(m.unresolved[..i], s.field)
    {
      assert m.unresolved[..i + 1][..i] == m.unresolved[..i];
      if m.unresolved[i] != s.field {
        unresolved := unresolved + [m.unresolved[i]];
      }
    }
    assert m.unresolved[..|m.unresolved|] == m.unresolved;
    r := Ok(Merged(entities, conflicts, unresolved));
  }

  method OtherCandidates(candidates: seq<Sourced>, value: string) returns (others: seq<Sourced>)
    ensures others == Others(candidates, value)
  {
    others := [];
    for i := 0 to |candidates|
      invariant others == Others(candidates[..i], value)
    {
      assert candidates[..i + 1][..i] == candidates[..i];
      if candidates[i].value != value {
        others := others + [candidates[i]];
      }
    }
    assert candidates[..|candidates|] == candidates;
  }

  // --- A selection keeps the invariant ---

  lemma {:induction false} WithoutIs(fields: seq<Field>, f: Field)
    requires NoRepeats(fields)
    ensures NoRepeats(Without(fields, f)) && forall g :: g in Without(fields, f) <==> g in fields && g != f
    ensures |Without(fields, f)| == |fields| - if f in fields then 1 else 0
    decreases |fields|
  {
    if fields != [] {
      var n := |fields| - 1;
      WithoutIs(fields[..n], f);
      assert fields == fields[..n] + [fields[n]];
      assert fields[n] !in fields[..n] by {
        assert forall k :: 0 <= k < n ==> fields[..n][k] == fields[k];
      }
    }
  }

  predicate DifferentValues(candidates: seq<Sourced>) {
    forall i, j :: 0 <= i < j < |candidates| ==> candidates[i].value != candidates[j].value
  }

  lemma {:induction false} OthersAre(candidates: seq<Sourced>, value: string)
    requires DifferentValues(candidates)
    ensures DifferentValues(Others(candidates, value))
    ensures forall c :: c in Others(candidates, value) <==> c in candidates && c.value != value
    decreases |candidates|
  {
    if candidates != [] {
      var n := |candidates| - 1;
      OthersAre(candidates[..n], value);
      assert candidates == candidates[..n] + [candidates[n]];
      var before := Others(candidates[..n], value);
      forall i | 0 <= i < |before|
        ensures before[i].value != candidates[n].value
      {
        assert before[i] in candidates[..n];
      }
    }
  }

  lemma SelectedConflict(check: Validator, entities: map<Field, Sourced>, unresolved: seq<Field>, c: Conflict, f: Field,
                         selected: Sourced)
    requires DifferentValues(c.candidates) && (forall i :: 0 <= i < |c.candidates| ==> Valid(check, f, c.candidates[i]))
    requires Valid(check, f, selected) && f in entities && entities[f] == selected
             && Others(c.candidates, selected.value) != []
    ensures ConflictOk(check, entities, unresolved,
                       Conflict(f, Some(selected), [selected] + Others(c.candidates, selected.value), true))
  {
    OthersAre(c.candidates, selected.value);
    var others := Others(c.candidates, selected.value);
    var all := [selected] + others;
    forall i | 0 < i < |all|
      ensures Valid(check, f, all[i]) && all[i].value != selected.value
    {
      assert all[i] == others[i - 1] && others[i - 1] in others;
      var k :| 0 <= k < |c.candidates| && c.candidates[k] == others[i - 1];
    }
    assert selected in all;
  }

  // The conflicts after a selection: those of other fields as they were, and at most one of the selected field.
  predicate UpdatedOk(check: Validator, entities: map<Field, Sourced>, unresolved: seq<Field>, was: seq<Conflict>,
                      f: Field, now: seq<Conflict>)
  {
    && (forall i :: 0 <= i < |now| ==> ConflictOk(check, entities, unresolved, now[i]))
    && (forall i, j :: 0 <= i < j < |now| ==> now[i].field != now[j].field)
    && (forall g :: HasConflict(now, g) ==> HasConflict(was, g))
    && (forall g :: g != f && HasConflict(was, g) ==> HasConflict(now, g))
  }

  lemma HasConflictPrefix(conflicts: seq<Conflict>, g: Field)
    requires conflicts != []
    ensures HasConflict(conflicts, g) <==>
            HasConflict(conflicts[..|conflicts| - 1], g) || conflicts[|conflicts| - 1].field == g
  {
    assert conflicts == conflicts[..|conflicts| - 1] + [conflicts[|conflicts| - 1]];
    HasConflictAppend(conflicts[..|conflicts| - 1], conflicts[|conflicts| - 1], g);
  }

  lemma UpdatedAppend(check: Validator, entities: map<Field, Sourced>, unresolved: seq<Field>, conflicts: seq<Conflict>,
                      f: Field,
                      before: seq<Conflict>, c: Conflict)
    requires conflicts != [] && conflicts[|conflicts| - 1].field == c.field
    requires !HasConflict(conflicts[..|conflicts| - 1], c.field)
    requires UpdatedOk(check, entities, unresolved, conflicts[..|conflicts| - 1], f, before)
             && ConflictOk(check, entities, unresolved, c)
    ensures UpdatedOk(check, entities, unresolved, conflicts, f, before + [c])
  {
    hide ConflictOk;
    forall g: Field
      ensures HasConflict(before + [c], g) <==> HasConflict(before, g) || c.field == g
      ensures HasConflict(conflicts, g) <==> HasConflict(conflicts[..|conflicts| - 1], g) || c.field == g
    {
      HasConflictAppend(before, c, g);
      HasConflictPrefix(conflicts, g);
    }
    forall i | 0 <= i < |before|
      ensures before[i].field != c.field
    {
      assert HasConflict(before, before[i].field);
    }
  }

  lemma UpdatedDrop(check: Validator, entities: map<Field, Sourced>, unresolved: seq<Field>, conflicts: seq<Conflict>,
                    f: Field, before: seq<Conflict>)
    requires conflicts != [] && conflicts[|conflicts| - 1].field == f
    requires UpdatedOk(check, entities, unresolved, conflicts[..|conflicts| - 1], f, before)
    ensures UpdatedOk(check, entities, unresolved, conflicts, f, before)
  {
    hide ConflictOk;
    forall g: Field
      ensures HasConflict(conflicts, g) <==> HasConflict(conflicts[..|conflicts| - 1], g) || f == g
    {
      HasConflictPrefix(conflicts, g);
    }
  }

  lemma {:induction false} UpdatedIsOk(check: Validator, m: Merged, conflicts: seq<Conflict>, f: Field,
                                       selected: Sourced)
    requires conflicts <= m.conflicts && Consistent(check, m) && Valid(check, f, selected)
    ensures UpdatedOk(check, m.entities[f := selected], Without(m.unresolved, f), conflicts, f,
                      Updated(conflicts, f, selected))
    decreases |conflicts|
  {
    if conflicts != [] {
      var n := |conflicts| - 1;
      var front, c := conflicts[..n], conflicts[n];
      UpdatedIsOk(check, m, front, f, selected);
      assert c == m.conflicts[n] && ConflictOk(check, m.entities, m.unresolved, c);
      LastFieldIsNew(check, m, conflicts);
      OtherConflictStays(check, m, c, f, selected);
      CandidatesOf(check, m.entities, m.unresolved, c);
      hide Consistent, UpdatedOk, ConflictOk, Without, HasConflict, DifferentValues;
      var entities, unresolved := m.entities[f := selected], Without(m.unresolved, f);
      if c.field != f {
        UpdatedAppend(check, entities, unresolved, conflicts, f, Updated(front, f, selected), c);
      } else if Others(c.candidates, selected.value) == [] {
        UpdatedDrop(check, entities, unresolved, conflicts, f, Updated(front, f, selected));
      } else {
        SelectedConflict(check, entities, unresolved, c, f, selected);
        UpdatedAppend(check, entities, unresolved, conflicts, f, Updated(front, f, selected),
                      Conflict(f, Some(selected), [selected] + Others(c.candidates, selected.value), true));
      }
    }
  }

  // A conflict of another field stays in order when the field is selected.
  lemma OtherConflictStays(check: Validator, m: Merged, c: Conflict, f: Field, selected: Sourced)
    requires ConflictOk(check, m.entities, m.unresolved, c) && NoRepeats(m.unresolved)
    ensures c.field != f ==> ConflictOk(check, m.entities[f := selected], Without(m.unresolved, f), c)
  {
    WithoutIs(m.unresolved, f);
  }

  lemma CandidatesOf(check: Validator, entities: map<Field, Sourced>, unresolved: seq<Field>, c: Conflict)
    requires ConflictOk(check, entities, unresolved, c)
    ensures DifferentValues(c.candidates)
    ensures forall i :: 0 <= i < |c.candidates| ==> Valid(check, c.field, c.candidates[i])
  {
  }

  lemma LastFieldIsNew(check: Validator, m: Merged, conflicts: seq<Conflict>)
    requires conflicts != [] && conflicts <= m.conflicts && Consistent(check, m)
    ensures !HasConflict(conflicts[..|conflicts| - 1], conflicts[|conflicts| - 1].field)
  {
    var n := |conflicts| - 1;
    forall i | 0 <= i < n
      ensures conflicts[..n][i].field != conflicts[n].field
    {
      assert conflicts[i] == m.conflicts[i] && conflicts[n] == m.conflicts[n];
    }
  }

  lemma PreviousConflict(check: Validator, m: Merged, f: Field, selected: Sourced)
    requires Consistent(check, m) && Valid(check, f, selected) && f in m.entities
             && m.entities[f].value != selected.value
    ensures ConflictOk(check, m.entities[f := selected], Without(m.unresolved, f),
                       Conflict(f, Some(selected), [selected, m.entities[f]], true))
  {
    assert selected in [selected, m.entities[f]];
  }

  lemma ConflictsAfterSelection(check: Validator, m: Merged, f: Field, selected: Sourced)
    requires Consistent(check, m) && Valid(check, f, selected)
    ensures var n := Selected(m, f, selected);
            && (forall i :: 0 <= i < |n.conflicts| ==> ConflictOk(check, n.entities, n.unresolved, n.conflicts[i]))
            && (forall i, j :: 0 <= i < j < |n.conflicts| ==> n.conflicts[i].field != n.conflicts[j].field)
            && (forall g :: g != f && HasConflict(m.conflicts, g) ==> HasConflict(n.conflicts, g))
  {
    var n := Selected(m, f, selected);
    UpdatedIsOk(check, m, m.conflicts, f, selected);
    var updated := Updated(m.conflicts, f, selected);
    if n.conflicts != updated {
      PreviousConflict(check, m, f, selected);
      hide ConflictOk, Consistent, Updated, Without;
      var c := n.conflicts[|updated|];
      assert n.conflicts == updated + [c];
      forall g: Field
        ensures HasConflict(n.conflicts, g) <==> HasConflict(updated, g) || c.field == g
      {
        HasConflictAppend(updated, c, g);
      }
      forall i | 0 <= i < |updated|
        ensures updated[i].field != f
      {
        assert HasConflict(updated, updated[i].field);
      }
    }
  }

  /** A valid selection resolves its field and keeps everything else in order. */
  lemma SelectionKeepsConsistent(check: Validator, m: Merged, f: Field, selected: Sourced)
    requires Consistent(check, m) && Valid(check, f, selected)
    ensures Consistent(check, Selected(m, f, selected))
    ensures var n := Selected(m, f, selected);
            && n.entities == m.entities[f := selected]
            && |n.unresolved| == |m.unresolved| - if f in m.unresolved then 1 else 0
  {
    ConflictsAfterSelection(check, m, f, selected);
    WithoutIs(m.unresolved, f);
    SelectedTables(m, f, selected);
    hide ConflictOk, Updated, Without, HasConflict, Valid, Selected;
  }

  lemma SelectedTables(m: Merged, f: Field, selected: Sourced)
    ensures Selected(m, f, selected).entities == m.entities[f := selected]
    ensures Selected(m, f, selected).unresolved == Without(m.unresolved, f)
  {
  }

  // --- The dialogue ---

  /** The user answers a conflict or a missing parameter with an offered, accepted value. */
  function Resume(check: Validator, pending: Decision, s: Selection): Result<Decision, RoutingError> {
    if pending.ready || pending.clarification.None?
       || (pending.clarification.value.reason != IsConflict && pending.clarification.value.reason != IsMissing)
       || pending.clarification.value.field != Some(s.field) then Err(NotPending)
    else
      var options := pending.clarification.value.options;
      if options != [] && forall i :: 0 <= i < |options| ==> options[i].value != s.value then Err(NotOffered)
      else
        var m := ApplySelection(check, pending.entities, s);
        if m.Err? then Err(m.error)
        else Compose(pending.intent, pending.confidence, m.value, pending.modelRequested, pending.confirmed)
  }

  /** The user confirms an intent of medium confidence. */
  function Confirm(pending: Decision): Result<Decision, RoutingError> {
    if pending.clarification.None? || pending.clarification.value.reason != ConfirmIntent then Err(NotConfirming)
    else Compose(pending.intent, pending.confidence, pending.entities, pending.modelRequested, true)
  }

  datatype Turn = Answer(s: Selection) | Confirmation

  function Take(check: Validator, d: Decision, turn: Turn): Result<Decision, RoutingError> {
    if turn.Answer? then Resume(check, d, turn.s) else Confirm(d)
  }

  /** A decision as the composition yields it. */
  predicate Composed(check: Validator, d: Decision) {
    Consistent(check, d.entities) && Compose(d.intent, d.confidence, d.entities, d.modelRequested, d.confirmed) == Ok(d)
  }

  // How many answers are still wanted: unresolved fields and missing parameters.
  function Asked(d: Decision): nat {
    |d.entities.unresolved| + |d.missing|
  }

  // What is still open: the answers, and the confirmation.
  function Open(d: Decision): nat {
    Asked(d) + if d.confirmed then 0 else 1
  }

  // No turn changes what the model said about the intent.
  predicate SameRequest(d: Decision, d': Decision) {
    d'.intent == d.intent && d'.confidence == d.confidence && d'.level == d.level
      && d'.modelRequested == d.modelRequested
  }

  lemma MissingShrinks(intent: Intent, m: Merged, n: Merged, f: Field)
    requires n.entities.Keys == m.entities.Keys + {f}
    ensures |Missing(Required(intent), n)| <= |Missing(Required(intent), m)|
    ensures Missing(Required(intent), m) != [] && f == FieldOf(Missing(Required(intent), m)[0]) ==>
              |Missing(Required(intent), n)| < |Missing(Required(intent), m)|
  {
  }

  lemma ResumeResolves(check: Validator, d: Decision, s: Selection)
    requires Stable(check) && Composed(check, d) && Resume(check, d, s).Ok?
    ensures var d' := Resume(check, d, s).value;
            && Composed(check, d') && Asked(d') < Asked(d) && SameRequest(d, d') && d'.confirmed == d.confirmed
            && s.field in d'.entities.entities
  {
    var selected := Sourced(check(s.field, s.value).value, UserMessage);
    var n := Selected(d.entities, s.field, selected);
    hide Compose;
    ComposeIs(check, d);
    SelectionKeepsConsistent(check, d.entities, s.field, selected);
    hide Consistent, Selected, Missing, Required;
    MissingShrinks(d.intent, d.entities, n, s.field);
    ComposedFrom(d.intent, d.confidence, n, d.modelRequested, d.confirmed);
  }

  // What a composed decision says about itself.
  lemma ComposeIs(check: Validator, d: Decision)
    requires Composed(check, d)
    ensures d.missing == Missing(Required(d.intent), d.entities) && d.level == LevelOf(d.confidence)
    ensures d.clarification.Some? && d.clarification.value.reason == IsConflict ==>
              d.entities.unresolved != [] && d.clarification.value.field == Some(d.entities.unresolved[0])
              && d.entities.unresolved[0] in d.entities.unresolved
    ensures d.clarification.Some? && d.clarification.value.reason == IsMissing ==>
              d.missing != [] && d.clarification.value.field == Some(FieldOf(d.missing[0]))
    ensures d.clarification.Some? && d.clarification.value.reason == ConfirmIntent ==> !d.confirmed && Asked(d) == 0
    ensures d.clarification.None? <==> d.ready
  {
    hide Consistent, Missing, Required, ConflictFor;
  }

  lemma ComposedFrom(intent: Intent, confidence: real, m: Merged, modelRequested: bool, confirmed: bool)
    requires Compose(intent, confidence, m, modelRequested, confirmed).Ok?
    ensures var d := Compose(intent, confidence, m, modelRequested, confirmed).value;
            && d.intent == intent && d.confidence == confidence && d.level == LevelOf(confidence) && d.entities == m
               && d.modelRequested == modelRequested && d.confirmed == confirmed
            && d.missing == Missing(Required(intent), m)
  {
    hide Clarify;
  }

  lemma ConfirmResolves(check: Validator, d: Decision)
    requires Composed(check, d) && Confirm(d).Ok?
    ensures var d' := Confirm(d).value;
            Composed(check, d') && Asked(d') == Asked(d) == 0 && SameRequest(d, d') && d'.confirmed && !d.confirmed
  {
    ComposeIs(check, d);
    hide Compose, Consistent, Missing, Required;
    ComposedFrom(d.intent, d.confidence, d.entities, d.modelRequested, true);
  }

  /** Every accepted turn keeps the invariant and leaves strictly less open. */
  lemma TurnMakesProgress(check: Validator, d: Decision, turn: Turn)
    requires Stable(check) && Composed(check, d) && Take(check, d, turn).Ok?
    ensures var d' := Take(check, d, turn).value;
            && Composed(check, d') && Open(d') < Open(d) && SameRequest(d, d')
            && Asked(d') + (if turn.Answer? then 1 else 0) <= Asked(d)
  {
    hide Composed, Resume, Confirm, Stable, SameRequest, Asked;
    if turn.Answer? {
      ResumeResolves(check, d, turn.s);
    } else {
      ConfirmResolves(check, d);
    }
  }

  /** The decision after a sequence of accepted turns. */
  function Dialogue(check: Validator, d: Decision, turns: seq<Turn>): Option<Decision>
    decreases |turns|
  {
    if turns == [] then Some(d)
    else
      var next := Take(check, d, turns[0]);
      if next.Err? then None else Dialogue(check, next.value, turns[1..])
  }

  function Answers(turns: seq<Turn>): nat {
    if turns == [] then 0 else (if turns[0].Answer? then 1 else 0) + Answers(turns[1..])
  }

  /** A dialogue ends: each turn closes something, and each answer one of the answers that were wanted. */
  lemma {:induction false} DialogueTerminates(check: Validator, d: Decision, turns: seq<Turn>)
    requires Stable(check) && Composed(check, d) && Dialogue(check, d, turns).Some?
    ensures var last := Dialogue(check, d, turns).value;
            && Composed(check, last) && SameRequest(d, last)
            && |turns| + Open(last) <= Open(d) && Answers(turns) + Asked(last) <= Asked(d)
    decreases |turns|
  {
    hide Composed, Take, Open, Asked, Stable;
    if turns != [] {
      TurnMakesProgress(check, d, turns[0]);
      DialogueTerminates(check, Take(check, d, turns[0]).value, turns[1..]);
    }
  }

  lemma OfferedIsAccepted(check: Validator, d: Decision, f: Field, value: string)
    requires Stable(check) && Composed(check, d) && d.clarification.Some? && d.clarification.value.field == Some(f)
    requires d.clarification.value.reason == IsConflict
    requires exists o :: o in d.clarification.value.options && o.value == value
    ensures check(f, value).Some?
  {
    ComposeOffers(check, d);
    hide Composed;
    var o :| o in d.clarification.value.options && o.value == value;
    assert Valid(check, f, o);
  }

  // An accepted value, offered if anything is, resumes the dialogue.
  lemma AcceptedValueResumes(check: Validator, d: Decision, s: Selection)
    requires Stable(check) && Consistent(check, d.entities) && 0.0 <= d.confidence <= 1.0 && !d.ready
    requires d.clarification.Some? && d.clarification.value.field == Some(s.field)
    requires d.clarification.value.reason == IsConflict || d.clarification.value.reason == IsMissing
    requires d.clarification.value.options == [] || exists o :: o in d.clarification.value.options && o.value == s.value
    requires check(s.field, s.value).Some?
    ensures Resume(check, d, s).Ok?
  {
    var selected := Sourced(check(s.field, s.value).value, UserMessage);
    hide Compose, Consistent, Selected;
    SelectionKeepsConsistent(check, d.entities, s.field, selected);
    ReadyIffGatesPass(check, d.intent, d.confidence, Selected(d.entities, s.field, selected), d.modelRequested,
                      d.confirmed);
  }

  /** The dialogue is never stuck: every offered option, and every accepted value for a missing parameter, is taken. */
  lemma AnswersAreAccepted(check: Validator, d: Decision, s: Selection)
    requires Stable(check) && Composed(check, d) && d.clarification.Some?
             && d.clarification.value.field == Some(s.field)
    requires d.clarification.value.reason == IsMissing ==> check(s.field, s.value).Some?
    requires d.clarification.value.reason == IsConflict ==>
               exists o :: o in d.clarification.value.options && o.value == s.value
    ensures Resume(check, d, s).Ok?
  {
    ComposeOffers(check, d);
    hide Stable, Compose, Consistent, Resume;
    if d.clarification.value.reason == IsConflict {
      OfferedIsAccepted(check, d, s.field, s.value);
    }
    AcceptedValueResumes(check, d, s);
  }

  lemma ComposeOffers(check: Validator, d: Decision)
    requires Composed(check, d)
    ensures !d.ready <==> d.clarification.Some?
    ensures 0.0 <= d.confidence <= 1.0
    ensures d.clarification.Some? && d.clarification.value.field.Some? ==>
              d.clarification.value.reason == IsConflict
                || (d.clarification.value.reason == IsMissing && d.clarification.value.options == [])
    ensures d.clarification.Some? && d.clarification.value.reason == IsConflict ==>
              d.clarification.value.field.Some?
              && forall o :: o in d.clarification.value.options ==> Valid(check, d.clarification.value.field.value, o)
  {
    ConflictIsUsable(check, d.entities);
    hide Consistent, Missing, Required, ConflictFor;
  }

  // Every field that the intent requires has some value that the user can give.
  ghost predicate Answerable(check: Validator, intent: Intent) {
    forall p :: p in Required(intent) ==> exists v :: check(FieldOf(p), v).Some?
  }

  // Nothing is left to ask the user about: not entities, not parameters, not the intent.
  predicate Settled(d: Decision) {
    d.clarification.Some? ==> d.clarification.value.reason in {IsUnknown, IsLow, ModelRequest}
  }

  predicate AsksForAnswer(d: Decision) {
    d.clarification.Some? && d.clarification.value.reason in {IsConflict, IsMissing}
  }

  // An answer that the decision will take.
  lemma SomeAnswer(check: Validator, d: Decision) returns (s: Selection)
    requires Stable(check) && Composed(check, d) && Answerable(check, d.intent) && AsksForAnswer(d)
    ensures Resume(check, d, s).Ok?
  {
    var c := d.clarification.value;
    ComposeIs(check, d);
    ComposeOffers(check, d);
    if c.reason == IsConflict {
      s := Selection(c.field.value, c.options[0].value);
      assert c.options[0] in c.options;
    } else {
      MissingIs(Required(d.intent), d.entities);
      assert d.missing[0] in d.missing;
      var v :| check(FieldOf(d.missing[0]), v).Some?;
      s := Selection(c.field.value, v);
    }
    hide Composed, Stable, Answerable;
    AnswersAreAccepted(check, d, s);
  }

  lemma ConfirmationIsTaken(check: Validator, d: Decision)
    requires Composed(check, d) && d.clarification.Some? && d.clarification.value.reason == ConfirmIntent
    ensures Confirm(d).Ok?
  {
    ComposeOffers(check, d);
    ReadyIffGatesPass(check, d.intent, d.confidence, d.entities, d.modelRequested, true);
  }

  /** A dialogue is stuck exactly when nothing is left to ask: whatever is asked can be answered. */
  lemma StuckIffSettled(check: Validator, d: Decision)
    requires Stable(check) && Composed(check, d) && Answerable(check, d.intent)
    ensures (forall turn :: Take(check, d, turn).Err?) <==> Settled(d)
  {
    if AsksForAnswer(d) {
      var s := SomeAnswer(check, d);
      assert Take(check, d, Answer(s)).Ok?;
    } else if !Settled(d) {
      ConfirmationIsTaken(check, d);
      assert Take(check, d, Confirmation).Ok?;
    } else {
      ComposeOffers(check, d);
    }
  }

  /**
    * A settled decision is ready exactly when the intent is known, its confidence is not low and the model asked for
    * nothing.
    */
  lemma SettledOutcome(check: Validator, d: Decision)
    requires Composed(check, d) && Settled(d)
    ensures d.ready <==> !d.intent.UnknownIntent? && d.confidence >= 0.60 && !d.modelRequested
  {
    hide Consistent, Missing, Required, ConflictFor;
  }

  /**
    * However the user answers, a dialogue that can go no further no longer asks about entities, parameters or the
    * intent, and whether it ends ready was decided by the request alone.
    */
  lemma DialogueSettles(check: Validator, d: Decision, turns: seq<Turn>)
    requires Stable(check) && Composed(check, d) && Answerable(check, d.intent) && Dialogue(check, d, turns).Some?
    ensures var last := Dialogue(check, d, turns).value;
            && ((forall turn :: Take(check, last, turn).Err?) <==> Settled(last))
            && (Settled(last) ==> (last.ready <==>
                                   !d.intent.UnknownIntent? && d.confidence >= 0.60 && !d.modelRequested))
  {
    DialogueTerminates(check, d, turns);
    var last := Dialogue(check, d, turns).value;
    hide Composed, Stable, Dialogue, Answerable, Settled, Take;
    StuckIffSettled(check, last);
    if Settled(last) {
      SettledOutcome(check, last);
    }
  }

  ghost predicate AllAnswers(turns: seq<Turn>) {
    forall turn :: turn in turns ==> turn.Answer?
  }

  /**
    * At any level of confidence, at most as many answers as are wanted bring the dialogue past its conflicts and
    * missing parameters.
    */
  lemma {:induction false} AnswersSettleEntities(check: Validator, d: Decision) returns (turns: seq<Turn>)
    requires Stable(check) && Composed(check, d) && Answerable(check, d.intent)
    ensures AllAnswers(turns) && |turns| <= Asked(d)
    ensures Dialogue(check, d, turns).Some? && !AsksForAnswer(Dialogue(check, d, turns).value)
    decreases Asked(d)
  {
    if AsksForAnswer(d) {
      var s := SomeAnswer(check, d);
      ResumeResolves(check, d, s);
      hide Composed, Stable, Answerable, Resume, Asked, AsksForAnswer;
      var rest := AnswersSettleEntities(check, Resume(check, d, s).value);
      turns := [Answer(s)] + rest;
      assert turns[1..] == rest;
      assert Take(check, d, turns[0]) == Resume(check, d, s);
    } else {
      turns := [];
    }
  }

  lemma {:induction false} DialoguesCompose(check: Validator, d: Decision, a: seq<Turn>, b: seq<Turn>)
    requires Dialogue(check, d, a).Some?
    ensures Dialogue(check, d, a + b) == Dialogue(check, Dialogue(check, d, a).value, b)
    decreases |a|
  {
    hide Take;
    if a == [] {
      assert a + b == b;
    } else {
      DialoguesCompose(check, Take(check, d, a[0]).value, a[1..], b);
      assert (a + b)[0] == a[0] && (a + b)[1..] == a[1..] + b;
    }
  }

  /** From every decision some dialogue of at most as many turns as are open settles everything that is asked. */
  lemma SomeDialogueSettles(check: Validator, d: Decision)
    requires Stable(check) && Composed(check, d) && Answerable(check, d.intent)
    ensures exists turns ::
              |turns| <= Open(d) && Dialogue(check, d, turns).Some? && Settled(Dialogue(check, d, turns).value)
  {
    var answers := AnswersSettleEntities(check, d);
    DialogueTerminates(check, d, answers);
    var last := Dialogue(check, d, answers).value;
    hide Stable, Composed, Answerable, Dialogue;
    if !Settled(last) {
      ConfirmationIsTaken(check, last);
      var turns := answers + [Confirmation];
      DialoguesCompose(check, d, answers, [Confirmation]);
      OneTurn(check, last, Confirmation);
      ComposeIs(check, last);
      ConfirmResolves(check, last);
      hide Confirm;
      SettledAfterConfirmation(check, Confirm(last).value);
      assert |turns| <= Open(d) && Dialogue(check, d, turns).Some?;
    }
  }

  lemma OneTurn(check: Validator, d: Decision, turn: Turn)
    requires Take(check, d, turn).Ok?
    ensures Dialogue(check, d, [turn]) == Some(Take(check, d, turn).value)
  {
    assert [turn][1..] == [];
  }

  lemma SettledAfterConfirmation(check: Validator, d: Decision)
    requires Composed(check, d) && d.confirmed && Asked(d) == 0
    ensures Settled(d)
  {
    ComposeIs(check, d);
  }

  /** The first decision: what the model reported as missing is asked for by the service itself. */
  function Build(intent: Intent, confidence: real, needClarification: bool, reportedMissing: seq<Parameter>, m: Merged)
    : Result<Decision, RoutingError>
  {
    Compose(intent, confidence, m, needClarification && reportedMissing == [], false)
  }

  /**
    * From any accepted candidates, routing starts a dialogue that has at most as many turns as fields and parameters
    * are open, plus one.
    */
  lemma RoutingStartsDialogue(check: Validator, raws: seq<Raw>, intent: Intent, confidence: real,
                              needClarification: bool, reportedMissing: seq<Parameter>, turns: seq<Turn>)
    requires Stable(check) && 0.0 <= confidence <= 1.0
    ensures var d := Build(intent, confidence, needClarification, reportedMissing, MergeOf(check, raws, |FIELDS|));
            && d.Ok? && Composed(check, d.value)
            && (Dialogue(check, d.value, turns).Some? ==>
                |turns| <= Asked(d.value) + 1 && Answers(turns) <= Asked(d.value))
  {
    hide Stable, Consistent, MergeOf, Compose, Dialogue;
    MergeIsConsistent(check, raws);
    var m := MergeOf(check, raws, |FIELDS|);
    var modelRequested := needClarification && reportedMissing == [];
    ReadyIffGatesPass(check, intent, confidence, m, modelRequested, false);
    var d := Compose(intent, confidence, m, modelRequested, false).value;
    ComposedFrom(intent, confidence, m, modelRequested, false);
    if Dialogue(check, d, turns).Some? {
      DialogueTerminates(check, d, turns);
    }
  }
}
