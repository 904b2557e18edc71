/** Entity candidates of four sources. */
module Merging {
  import opened Wrappers
  import opened Ordering

  datatype Field = ORDER_ID | TASK_ID | ISSUE_ID | BATCH_ID | PRODUCT_TYPE | SATELLITE_TYPE

  const FIELDS: seq<Field> := [ORDER_ID, TASK_ID, ISSUE_ID, BATCH_ID, PRODUCT_TYPE, SATELLITE_TYPE]

  datatype Source = UserMessage | ConfirmedSession | PageHint | SessionCandidate

  function Priority(source: Source): nat {
    match source
    case UserMessage => 4
    case ConfirmedSession => 3
    case PageHint => 2
    case SessionCandidate => 1
  }

  datatype Sourced = Sourced(value: string, source: Source)

  datatype Conflict = Conflict(field: Field, selected: Option<Sourced>, candidates: seq<Sourced>,
                               resolvedByPriority: bool)

  datatype Merged = Merged(entities: map<Field, Sourced>, conflicts: seq<Conflict>, unresolved: seq<Field>)

  /** The field schemas: the accepted form of a value, or nothing. */
  type Validator = (Field, string) -> Option<string>

  datatype Raw = Raw(field: Field, value: string, source: Source)

  datatype Session = Session(order: Option<string>, task: Option<string>, confirmed: map<Field, string>,
                             candidates: map<Field, seq<string>>)

  // --- The candidates, in the order in which the sources are read ---

  function FromMap(m: map<Field, string>, source: Source, n: nat): seq<Raw>
    requires n <= |FIELDS|
  {
    if n == 0 then []
    else FromMap(m, source, n - 1) + if FIELDS[n - 1] in m then [Raw(FIELDS[n - 1], m[FIELDS[n - 1]], source)] else []
  }

  function FromList(field: Field, values: seq<string>): (raws: seq<Raw>)
    ensures |raws| == |values|
  {
    seq(|values|, i requires 0 <= i < |values| => Raw(field, values[i], SessionCandidate))
  }

  function FromCandidates(m: map<Field, seq<string>>, n: nat): seq<Raw>
    requires n <= |FIELDS|
  {
    if n == 0 then []
    else FromCandidates(m, n - 1) + if FIELDS[n - 1] in m then FromList(FIELDS[n - 1], m[FIELDS[n - 1]]) else []
  }

  function FromSession(s: Session): seq<Raw> {
    (if s.order.Some? then [Raw(ORDER_ID, s.order.value, ConfirmedSession)] else [])
    + (if s.task.Some? then [Raw(TASK_ID, s.task.value, ConfirmedSession)] else [])
    + FromMap(s.confirmed, ConfirmedSession, |FIELDS|)
  }

  /** User message, confirmed session, page, session candidates. */
  function AllRaw(user: map<Field, string>, page: Option<map<Field, string>>, session: Option<Session>): seq<Raw> {
    FromMap(user, UserMessage, |FIELDS|)
    + (if session.Some? then FromSession(session.value) else [])
    + (if page.Some? then FromMap(page.value, PageHint, |FIELDS|) else [])
    + (if session.Some? then FromCandidates(session.value.candidates, |FIELDS|) else [])
  }

  predicate Accepted(check: Validator, raw: Raw) {
    check(raw.field, raw.value).Some?
  }

  // The accepted candidates of one field.
  function CandidatesOf(check: Validator, raws: seq<Raw>, field: Field): set<Sourced> {
    set r | r in raws && r.field == field && Accepted(check, r) :: Sourced(check(r.field, r.value).value, r.source)
  }

  // --- The meaning of a merge, per field ---

  predicate SourcedLess(a: Sourced, b: Sourced) {
    Priority(a.source) > Priority(b.source)
      || (Priority(a.source) == Priority(b.source) && StringLess(a.value, b.value))
  }

  lemma SourcedOrder()
    ensures Total(SourcedLess)
  {
    hide StringLess;
    StringsAreOrdered();
  }

  /** One candidate per value: the one from the highest source. */
  ghost function Best(cs: set<Sourced>): set<Sourced> {
    set c | c in cs && forall d :: d in cs && d.value == c.value ==> Priority(d.source) <= Priority(c.source)
  }

  ghost function Distinct(cs: set<Sourced>): (list: seq<Sourced>)
    ensures IsListing(list, Best(cs), SourcedLess)
  {
    SourcedOrder();
    Listing(Best(cs), SourcedLess)
  }

  // A value that no other value's source equals or exceeds.
  ghost predicate Wins(cs: set<Sourced>, c: Sourced) {
    c in Best(cs) && forall d :: d in Best(cs) && d != c ==> Priority(d.source) < Priority(c.source)
  }

  ghost function Winner(cs: set<Sourced>): (w: Option<Sourced>)
    ensures w.Some? ==> Wins(cs, w.value)
    ensures w.None? ==> forall c :: !Wins(cs, c)
  {
    if exists c :: Wins(cs, c) then var c :| Wins(cs, c); Some(c) else None
  }

  /** The first n fields, merged. */
  ghost function MergeOf(check: Validator, raws: seq<Raw>, n: nat): Merged
    requires n <= |FIELDS|
  {
    if n == 0 then Merged(map[], [], [])
    else AddField(MergeOf(check, raws, n - 1), FIELDS[n - 1], CandidatesOf(check, raws, FIELDS[n - 1]))
  }

  ghost function AddField(m: Merged, f: Field, cs: set<Sourced>): Merged {
    if cs == {} then m
    else
      var selected := Winner(cs);
      Merged(if selected.Some? then m.entities[f := selected.value] else m.entities,
             if |Distinct(cs)| > 1 then m.conflicts + [Conflict(f, selected, Distinct(cs), selected.Some?)]
                else m.conflicts,
             if selected.None? then m.unresolved + [f] else m.unresolved)
  }

  // --- The pool that the sources are appended to ---

  datatype Found = Found(field: Field, candidate: Sourced)

  function FoundIn(pool: map<Field, seq<Sourced>>): set<Found> {
    set f, c | f in pool && c in pool[f] :: Found(f, c)
  }

  function Elements<T(==)>(list: seq<T>): set<T> {
    set c | c in list
  }

  class CandidatePool {
    var pool: map<Field, seq<Sourced>>

    ghost function Contents(): set<Found>
      reads this
    {
      FoundIn(pool)
    }

    constructor ()
      ensures Contents() == {}
    {
      pool := map[];
    }

    /** One candidate, validated; the same value from the same source is kept once. */
    method Append(check: Validator, raw: Raw) returns (ok: bool)
      modifies this
      ensures ok == Accepted(check, raw)
      ensures Contents() == old(Contents())
              + if ok then {Found(raw.field, Sourced(check(raw.field, raw.value).value, raw.source))} else {}
    {
      var value := check(raw.field, raw.value);
      if value.None? {
        return false;
      }
      var sourced := Sourced(value.value, raw.source);
      var known := if raw.field in pool then pool[raw.field] else [];
      pool := pool[raw.field := if sourced in known then known else known + [sourced]];
      return true;
    }

    /** Candidates in order, up to the first one that its field does not accept. */
    method AppendAll(check: Validator, raws: seq<Raw>) returns (rejected: Option<Raw>)
      modifies this
      ensures rejected.None? <==> forall r :: r in raws ==> Accepted(check, r)
      ensures rejected.Some? ==>
              exists i :: 0 <= i < |raws| && raws[i] == rejected.value && IsFirstRejected(check, raws, i)
      ensures rejected.None? ==> Contents() == old(Contents()) + AllFound(check, raws)
    {
      for i := 0 to |raws|
        invariant forall k :: 0 <= k < i ==> Accepted(check, raws[k])
        invariant Contents() == old(Contents()) + AllFound(check, raws[..i])
      {
        assert raws[..i + 1] == raws[..i] + [raws[i]];
        var ok := Append(check, raws[i]);
        if !ok {
          assert IsFirstRejected(check, raws, i);
          return Some(raws[i]);
        }
      }
      assert raws[..|raws|] == raws;
      return None;
    }
  }

  predicate IsFirstRejected(check: Validator, raws: seq<Raw>, i: nat)
    requires i < |raws|
  {
    !Accepted(check, raws[i]) && forall k :: 0 <= k < i ==> Accepted(check, raws[k])
  }

  function AllFound(check: Validator, raws: seq<Raw>): set<Found> {
    set r | r in raws && Accepted(check, r) :: Found(r.field, Sourced(check(r.field, r.value).value, r.source))
  }

  // --- The merge, field by field ---

  // Grouping by value keeps the highest source of each.
  method BestByValue(candidates: seq<Sourced>) returns (best: set<Sourced>)
    ensures best == Best(Elements(candidates))
  {
    var byValue: map<string, Sourced> := map[];
    for i := 0 to |candidates|
      invariant byValue.Keys == set c | c in candidates[..i] :: c.value
      invariant forall v :: v in byValue ==> byValue[v].value == v && byValue[v] in candidates[..i]
      invariant forall c :: c in candidates[..i] ==> Priority(c.source) <= Priority(byValue[c.value].source)
    {
      var c := candidates[i];
      assert candidates[..i + 1] == candidates[..i] + [c];
      if c.value !in byValue || Priority(c.source) > Priority(byValue[c.value].source) {
        byValue := byValue[c.value := c];
      }
    }
    assert candidates[..|candidates|] == candidates;
    best := byValue.Values;
    BestIs(candidates, byValue);
  }

  lemma BestIs(candidates: seq<Sourced>, byValue: map<string, Sourced>)
    requires byValue.Keys == set c | c in candidates :: c.value
    requires forall v :: v in byValue ==> byValue[v].value == v && byValue[v] in candidates
    requires forall c :: c in candidates ==> Priority(c.source) <= Priority(byValue[c.value].source)
    ensures byValue.Values == Best(Elements(candidates))
  {
    var cs := Elements(candidates);
    forall c | c in Best(cs)
      ensures c in byValue.Values
    {
      assert byValue[c.value] in cs;
      assert byValue[c.value] == c;
    }
    forall c | c in byValue.Values
      ensures c in Best(cs)
    {
      var v :| v in byValue && byValue[v] == c;
    }
  }

  // The candidates that share the highest priority; only a single one is selected.
  method SelectHighest(distinct: seq<Sourced>) returns (selected: Option<Sourced>)
    requires distinct != [] && Ascending(distinct, SourcedLess)
    ensures selected.Some? ==> selected.value == distinct[0]
    ensures selected.Some? <==> forall i :: 0 < i < |distinct| ==>
            Priority(distinct[i].source) < Priority(distinct[0].source)
  {
    var highest: seq<Sourced> := [];
    for i := 0 to |distinct|
      invariant i > 0 ==> highest != [] && highest[0] == distinct[0]
      invariant i == 0 ==> highest == []
      invariant i > 0 ==> (|highest| == 1 <==> forall k :: 0 < k < i ==>
                           Priority(distinct[k].source) < Priority(distinct[0].source))
    {
      assert i > 0 ==> SourcedLess(distinct[0], distinct[i]);
      if Priority(distinct[i].source) == Priority(distinct[0].source) {
        highest := highest + [distinct[i]];
      }
    }
    selected := if |highest| == 1 then Some(highest[0]) else None;
  }

  lemma FirstIsHighest(cs: set<Sourced>, selected: Option<Sourced>)
    requires Distinct(cs) != []
    requires selected.Some? ==> selected.value == Distinct(cs)[0]
    requires selected.Some? <==> forall i :: 0 < i < |Distinct(cs)| ==>
             Priority(Distinct(cs)[i].source) < Priority(Distinct(cs)[0].source)
    ensures selected == Winner(cs)
  {
    var list := Distinct(cs);
    assert list[0] in list;
    if selected.Some? {
      forall d | d in Best(cs) && d != list[0]
        ensures Priority(d.source) < Priority(list[0].source)
      {
        var i :| 0 <= i < |list| && list[i] == d;
      }
      assert Wins(cs, list[0]);
    } else {
      var i :| 0 < i < |list| && Priority(list[i].source) >= Priority(list[0].source);
      assert list[i] in list && SourcedLess(list[0], list[i]);
      forall c
        ensures !Wins(cs, c)
      {
        if Wins(cs, c) {
          var k :| 0 <= k < |list| && list[k] == c;
          OtherIsNotLower(list, k, i);
        }
      }
    }
  }

  lemma OtherIsNotLower(list: seq<Sourced>, k: nat, i: nat)
    requires Ascending(list, SourcedLess) && 0 < i < |list| && k < |list|
             && Priority(list[i].source) >= Priority(list[0].source)
    ensures exists d :: d in list && d != list[k] && Priority(d.source) >= Priority(list[k].source)
  {
    SourcedOrder();
    assert list[0] in list && list[i] in list;
    if k == 0 {
      assert SourcedLess(list[0], list[i]);
    } else {
      assert SourcedLess(list[0], list[k]);
    }
  }

  lemma EveryFieldListed(f: Field)
    ensures f in FIELDS
  {
  }

  lemma SomethingIsBest(cs: set<Sourced>)
    requires cs != {}
    ensures Distinct(cs) != []
  {
    var c :| c in cs;
    var b := HighestWithValue(cs, c);
    assert b in Best(cs);
  }

  lemma {:induction false} HighestWithValue(cs: set<Sourced>, c: Sourced) returns (b: Sourced)
    requires c in cs
    ensures b in cs && b.value == c.value && forall d :: d in cs && d.value == c.value ==>
            Priority(d.source) <= Priority(b.source)
    decreases 4 - Priority(c.source)
  {
    if d :| d in cs && d.value == c.value && Priority(d.source) > Priority(c.source) {
      b := HighestWithValue(cs, d);
    } else {
      b := c;
    }
  }

  lemma PoolOfField(check: Validator, raws: seq<Raw>, pool: map<Field, seq<Sourced>>, f: Field)
    requires FoundIn(pool) == AllFound(check, raws)
    ensures Elements(if f in pool then pool[f] else []) == CandidatesOf(check, raws, f)
  {
    var list := if f in pool then pool[f] else [];
    forall c: Sourced
      ensures c in Elements(list) <==> c in CandidatesOf(check, raws, f)
    {
      assert c in list <==> Found(f, c) in FoundIn(pool);
      assert Found(f, c) in AllFound(check, raws) <==> c in CandidatesOf(check, raws, f);
    }
  }
}
