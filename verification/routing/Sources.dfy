/** Which source decides a field. */
module EntityMerge {
  import opened Wrappers
  import opened Ordering
  import opened Merging
  import opened Consistency

  // --- What each source holds, in the form its field accepts ---

  function Held(check: Validator, f: Field, value: string): set<string> {
    if check(f, value).Some? then {check(f, value).value} else {}
  }

  function HeldIn(check: Validator, f: Field, m: map<Field, string>): set<string> {
    if f in m then Held(check, f, m[f]) else {}
  }

  function HeldConfirmed(check: Validator, f: Field, s: Session): set<string> {
    HeldIn(check, f, s.confirmed)
    + (if f == ORDER_ID && s.order.Some? then Held(check, f, s.order.value) else {})
    + (if f == TASK_ID && s.task.Some? then Held(check, f, s.task.value) else {})
  }

  function HeldAsCandidates(check: Validator, f: Field, s: Session): set<string> {
    if f in s.candidates
    then set v | v in s.candidates[f] && check(f, v).Some? :: check(f, v).value else {}
  }

  /** The accepted values of a source for a field. */
  function ValuesOf(check: Validator, user: map<Field, string>, page: Option<map<Field, string>>,
                    session: Option<Session>, source: Source, f: Field): set<string>
  {
    match source
    case UserMessage => HeldIn(check, f, user)
    case ConfirmedSession => if session.Some? then HeldConfirmed(check, f, session.value) else {}
    case PageHint => if page.Some? then HeldIn(check, f, page.value) else {}
    case SessionCandidate => if session.Some? then HeldAsCandidates(check, f, session.value) else {}
  }

  // --- Candidates come from these values ---

  lemma {:induction false} FromMapHolds(m: map<Field, string>, source: Source, n: nat, r: Raw)
    requires n <= |FIELDS|
    ensures r in FromMap(m, source, n) <==>
            r.source == source && r.field in m && r.value == m[r.field] && r.field in FIELDS[..n]
    decreases n
  {
    if n > 0 {
      FromMapHolds(m, source, n - 1, r);
      assert FIELDS[..n] == FIELDS[..n - 1] + [FIELDS[n - 1]];
    }
  }

  lemma {:induction false} FromCandidatesHolds(m: map<Field, seq<string>>, n: nat, r: Raw)
    requires n <= |FIELDS|
    ensures r in FromCandidates(m, n) <==>
            r.source == SessionCandidate && r.field in m && r.value in m[r.field] && r.field in FIELDS[..n]
    decreases n
  {
    if n > 0 {
      FromCandidatesHolds(m, n - 1, r);
      assert FIELDS[..n] == FIELDS[..n - 1] + [FIELDS[n - 1]];
      if FIELDS[n - 1] in m {
        FromListHolds(FIELDS[n - 1], m[FIELDS[n - 1]], r);
      }
    }
  }

  lemma FromListHolds(f: Field, values: seq<string>, r: Raw)
    ensures r in FromList(f, values) <==> r.source == SessionCandidate && r.field == f && r.value in values
  {
    if r.source == SessionCandidate && r.field == f && r.value in values {
      var i :| 0 <= i < |values| && values[i] == r.value;
      assert FromList(f, values)[i] == r;
    }
  }

  // What is read from which source.
  predicate IsRead(user: map<Field, string>, page: Option<map<Field, string>>, session: Option<Session>, r: Raw) {
    match r.source
    case UserMessage => r.field in user && r.value == user[r.field]
    case ConfirmedSession =>
      session.Some?
      && ((r.field in session.value.confirmed && r.value == session.value.confirmed[r.field])
          || (r.field == ORDER_ID && session.value.order == Some(r.value))
          || (r.field == TASK_ID && session.value.task == Some(r.value)))
    case PageHint => page.Some? && r.field in page.value && r.value == page.value[r.field]
    case SessionCandidate =>
      session.Some? && r.field in session.value.candidates && r.value in session.value.candidates[r.field]
  }

  lemma AllFieldsListed(f: Field)
    ensures f in FIELDS[..|FIELDS|]
  {
    EveryFieldListed(f);
    assert FIELDS[..|FIELDS|] == FIELDS;
  }

  lemma SessionHolds(s: Session, r: Raw)
    ensures r in FromSession(s) <==>
            && r.source == ConfirmedSession
            && ((r.field in s.confirmed && r.value == s.confirmed[r.field])
                || (r.field == ORDER_ID && s.order == Some(r.value)) || (r.field == TASK_ID && s.task == Some(r.value)))
  {
    FromMapHolds(s.confirmed, ConfirmedSession, |FIELDS|, r);
    AllFieldsListed(r.field);
    hide FromMap;
  }

  lemma AllRawHolds(user: map<Field, string>, page: Option<map<Field, string>>, session: Option<Session>, r: Raw)
    ensures r in AllRaw(user, page, session) <==> IsRead(user, page, session, r)
  {
    hide FromMap, FromCandidates, FromSession;
    AllFieldsListed(r.field);
    FromMapHolds(user, UserMessage, |FIELDS|, r);
    if page.Some? {
      FromMapHolds(page.value, PageHint, |FIELDS|, r);
    }
    if session.Some? {
      SessionHolds(session.value, r);
      FromCandidatesHolds(session.value.candidates, |FIELDS|, r);
    }
  }

  lemma ReadIsHeld(check: Validator, user: map<Field, string>, page: Option<map<Field, string>>,
                   session: Option<Session>, r: Raw)
    requires IsRead(user, page, session, r) && check(r.field, r.value).Some?
    ensures check(r.field, r.value).value in ValuesOf(check, user, page, session, r.source, r.field)
  {
  }

  lemma HeldIsRead(check: Validator, user: map<Field, string>, page: Option<map<Field, string>>,
                   session: Option<Session>, source: Source, f: Field, v: string)
    returns (r: Raw)
    requires v in ValuesOf(check, user, page, session, source, f)
    ensures IsRead(user, page, session, r) && r.source == source && r.field == f && check(f, r.value) == Some(v)
  {
    match source
    case UserMessage => r := Raw(f, user[f], source);
    case PageHint => r := Raw(f, page.value[f], source);
    case SessionCandidate =>
      var raw :| raw in session.value.candidates[f] && check(f, raw) == Some(v);
      r := Raw(f, raw, source);
    case ConfirmedSession =>
      if v in HeldIn(check, f, session.value.confirmed) {
        r := Raw(f, session.value.confirmed[f], source);
      } else if f == ORDER_ID {
        r := Raw(f, session.value.order.value, source);
      } else {
        r := Raw(f, session.value.task.value, source);
      }
  }

  /** The candidates of a field are exactly the accepted values of its sources. */
  lemma CandidatesAre(check: Validator, user: map<Field, string>, page: Option<map<Field, string>>,
                      session: Option<Session>, f: Field, c: Sourced)
    ensures c in CandidatesOf(check, AllRaw(user, page, session), f)
            <==> c.value in ValuesOf(check, user, page, session, c.source, f)
  {
    hide ValuesOf, AllRaw, IsRead;
    var raws := AllRaw(user, page, session);
    if c in CandidatesOf(check, raws, f) {
      var r :| r in raws && r.field == f && Accepted(check, r)
               && c == Sourced(check(r.field, r.value).value, r.source);
      AllRawHolds(user, page, session, r);
      ReadIsHeld(check, user, page, session, r);
    }
    if c.value in ValuesOf(check, user, page, session, c.source, f) {
      var r := HeldIsRead(check, user, page, session, c.source, f, c.value);
      AllRawHolds(user, page, session, r);
    }
  }

  // --- What the merge makes of them ---

  // One value of the deciding source is selected; several leave the field unresolved.
  ghost predicate SelectsFrom(m: Merged, f: Field, values: set<string>, source: Source) {
    if exists v :: values == {v} then
      f in m.entities && m.entities[f].source == source && values == {m.entities[f].value} && f !in m.unresolved
    else f !in m.entities && f in m.unresolved
  }

  // The order in which the sources are preferred.
  function Place(source: Source): nat {
    match source
    case UserMessage => 0
    case ConfirmedSession => 1
    case PageHint => 2
    case SessionCandidate => 3
  }

  // A value, named by the first source that holds it.
  ghost predicate FirstHolder(values: Source -> set<string>, c: Sourced) {
    c.value in values(c.source) && forall s: Source :: Place(s) < Place(c.source) ==> c.value !in values(s)
  }

  // Every value once, named by its first holder, by source and then by text.
  ghost predicate ListsValues(values: Source -> set<string>, list: seq<Sourced>) {
    && (forall c :: c in list <==> FirstHolder(values, c))
    && forall i, j :: 0 <= i < j < |list| ==>
         || Place(list[i].source) < Place(list[j].source)
         || (list[i].source == list[j].source && StringLess(list[i].value, list[j].value))
  }

  function Sources(check: Validator, user: map<Field, string>, page: Option<map<Field, string>>,
                   session: Option<Session>, f: Field): Source -> set<string>
  {
    s => ValuesOf(check, user, page, session, s, f)
  }

  /**
    * The user's message decides a field when it holds a value for it, otherwise the confirmed session, otherwise the
    * page, otherwise the session's candidates. A field that no source holds is neither resolved nor unresolved. A
    * conflict is recorded exactly when two different values are held, and lists each value once.
    */
  ghost predicate Decides(check: Validator, user: map<Field, string>, page: Option<map<Field, string>>,
                          session: Option<Session>, m: Merged, f: Field)
  {
    var values := Sources(check, user, page, session, f);
    && (if values(UserMessage) != {} then SelectsFrom(m, f, values(UserMessage), UserMessage)
        else if values(ConfirmedSession) != {} then SelectsFrom(m, f, values(ConfirmedSession), ConfirmedSession)
        else if values(PageHint) != {} then SelectsFrom(m, f, values(PageHint), PageHint)
        else if values(SessionCandidate) != {} then SelectsFrom(m, f, values(SessionCandidate), SessionCandidate)
        else f !in m.entities && f !in m.unresolved)
    && (HasConflict(m.conflicts, f) <==>
        exists s, t, v, w :: v in values(s) && w in values(t) && v != w)
    && (forall i :: 0 <= i < |m.conflicts| && m.conflicts[i].field == f ==>
          && ListsValues(values, m.conflicts[i].candidates)
          && m.conflicts[i].selected == (if f in m.entities then Some(m.entities[f]) else None))
  }

  ghost predicate Holds(cs: set<Sourced>, values: Source -> set<string>) {
    forall c: Sourced :: c in cs <==> c.value in values(c.source)
  }

  lemma PlaceIsPriority(a: Source, b: Source)
    ensures Place(a) < Place(b) <==> Priority(a) > Priority(b)
    ensures Place(a) == Place(b) <==> a == b
  {
  }

  lemma BestIsFirst(cs: set<Sourced>, values: Source -> set<string>, c: Sourced)
    requires Holds(cs, values)
    ensures c in Best(cs) <==> FirstHolder(values, c)
  {
    forall s: Source, t: Source
      ensures Place(s) < Place(t) <==> Priority(s) > Priority(t)
    {
      PlaceIsPriority(s, t);
    }
    hide Place, Priority;
    if FirstHolder(values, c) {
      forall d | d in cs && d.value == c.value
        ensures Priority(d.source) <= Priority(c.source)
      {
      }
    }
    if c in Best(cs) {
      assert forall s: Source :: Sourced(c.value, s) in cs <==> c.value in values(s);
    }
  }

  // The source with the least place that holds anything.
  ghost predicate IsFirst(values: Source -> set<string>, source: Source) {
    values(source) != {} && forall s: Source :: Place(s) < Place(source) ==> values(s) == {}
  }

  lemma FirstIsBest(cs: set<Sourced>, values: Source -> set<string>, source: Source, v: string)
    requires Holds(cs, values) && IsFirst(values, source) && v in values(source)
    ensures Sourced(v, source) in Best(cs)
    ensures forall d :: d in Best(cs) && d.source != source ==> Priority(d.source) < Priority(source)
  {
    BestIsFirst(cs, values, Sourced(v, source));
    forall d | d in Best(cs) && d.source != source
      ensures Priority(d.source) < Priority(source)
    {
      PlaceIsPriority(d.source, source);
      PlaceIsPriority(source, d.source);
      assert d in cs;
    }
  }

  lemma WinnerIs(cs: set<Sourced>, values: Source -> set<string>, source: Source)
    requires Holds(cs, values) && IsFirst(values, source)
    ensures forall c :: Wins(cs, c) <==> c.source == source && values(source) == {c.value}
  {
    forall v | v in values(source)
      ensures Sourced(v, source) in Best(cs)
      ensures forall d :: d in Best(cs) && d.source != source ==> Priority(d.source) < Priority(source)
    {
      FirstIsBest(cs, values, source, v);
    }
    hide IsFirst, Priority;
    var u :| u in values(source);
    forall c
      ensures Wins(cs, c) <==> c.source == source && values(source) == {c.value}
    {
      if Wins(cs, c) {
        assert c == Sourced(u, source);
        forall v | v in values(source)
          ensures v == c.value
        {
          assert Sourced(v, source) in Best(cs);
        }
      }
      if c.source == source && values(source) == {c.value} {
        forall d | d in Best(cs) && d != c
          ensures Priority(d.source) < Priority(c.source)
        {
          assert d in cs;
        }
      }
    }
  }

  lemma ExplainedSelects(check: Validator, raws: seq<Raw>, m: Merged, f: Field, values: Source -> set<string>,
                         source: Source)
    requires Explains(check, raws, m, f) && Holds(CandidatesOf(check, raws, f), values) && IsFirst(values, source)
    ensures SelectsFrom(m, f, values(source), source)
  {
    var cs := CandidatesOf(check, raws, f);
    WinnerIs(cs, values, source);
    var v :| v in values(source);
    assert Sourced(v, source) in cs;
    hide CandidatesOf, Wins, Holds, IsFirst;
    if w :| values(source) == {w} {
      assert Wins(cs, Sourced(w, source));
    }
  }

  lemma ExplainedNothing(check: Validator, raws: seq<Raw>, m: Merged, f: Field, values: Source -> set<string>)
    requires Explains(check, raws, m, f) && Holds(CandidatesOf(check, raws, f), values)
    requires forall s: Source :: values(s) == {}
    ensures f !in m.entities && f !in m.unresolved
  {
    var cs := CandidatesOf(check, raws, f);
    assert cs == {} by {
      if c :| c in cs {
        assert c.value in values(c.source);
      }
    }
  }

  lemma ConflictIff(cs: set<Sourced>, values: Source -> set<string>)
    requires Holds(cs, values)
    ensures |Distinct(cs)| > 1 <==> exists s, t, v, w :: v in values(s) && w in values(t) && v != w
  {
    var list := Distinct(cs);
    hide Distinct;
    if |list| > 1 {
      assert list[0] in list && list[1] in list;
      SourcedOrder();
      assert SourcedLess(list[0], list[1]) && list[0] != list[1];
      assert list[0] in cs && list[1] in cs;
      assert list[0].value != list[1].value by {
        BestApart(cs, list[0], list[1]);
      }
    }
    if s, t, v, w :| v in values(s) && w in values(t) && v != w {
      var a := HighestWithValue(cs, Sourced(v, s));
      var b := HighestWithValue(cs, Sourced(w, t));
      assert a in Best(cs) && b in Best(cs);
      assert a in list && b in list;
    }
  }

  lemma BestApart(cs: set<Sourced>, a: Sourced, b: Sourced)
    requires a in Best(cs) && b in Best(cs) && a != b
    ensures a.value != b.value
  {
    PlaceIsPriority(a.source, b.source);
    PlaceIsPriority(b.source, a.source);
  }

  lemma DistinctLists(cs: set<Sourced>, values: Source -> set<string>)
    requires Holds(cs, values)
    ensures ListsValues(values, Distinct(cs))
  {
    var list := Distinct(cs);
    forall c
      ensures c in list <==> FirstHolder(values, c)
    {
      BestIsFirst(cs, values, c);
    }
    forall i, j | 0 <= i < j < |list|
      ensures || Place(list[i].source) < Place(list[j].source)
              || (list[i].source == list[j].source && StringLess(list[i].value, list[j].value))
    {
      assert SourcedLess(list[i], list[j]);
      PlaceIsPriority(list[i].source, list[j].source);
      PlaceIsPriority(list[j].source, list[i].source);
    }
  }

  // --- The merge, field by field ---

  // The conflicts recorded so far.
  ghost predicate Records(check: Validator, raws: seq<Raw>, m: Merged) {
    forall i :: 0 <= i < |m.conflicts| ==>
      && m.conflicts[i].candidates == Distinct(CandidatesOf(check, raws, m.conflicts[i].field))
      && m.conflicts[i].selected == Winner(CandidatesOf(check, raws, m.conflicts[i].field))
  }

  lemma {:induction false} FieldsExplained(check: Validator, raws: seq<Raw>, n: nat)
    requires n <= |FIELDS|
    ensures forall k :: 0 <= k < n ==> Explains(check, raws, MergeOf(check, raws, n), FIELDS[k])
    ensures forall k :: n <= k < |FIELDS| ==> Unseen(MergeOf(check, raws, n), FIELDS[k])
    ensures Records(check, raws, MergeOf(check, raws, n))
    decreases n
  {
    hide CandidatesOf, Wins, Distinct, Winner, Explains, Unseen, Records;
    if n == 0 {
      NothingSeen(check, raws);
    } else {
      FieldsExplained(check, raws, n - 1);
      var before, f := MergeOf(check, raws, n - 1), FIELDS[n - 1];
      hide MergeOf, AddField;
      AddFieldExplains(check, raws, before, f);
      AddFieldRecords(check, raws, before, f);
      forall k | 0 <= k < |FIELDS| && k != n - 1
        ensures k < n ==> Explains(check, raws, AddField(before, f, CandidatesOf(check, raws, f)), FIELDS[k])
        ensures k >= n ==> Unseen(AddField(before, f, CandidatesOf(check, raws, f)), FIELDS[k])
      {
        if k < n - 1 {
          FieldsDiffer(k, n - 1);
        } else {
          FieldsDiffer(n - 1, k);
        }
        OtherExplained(check, raws, before, f, FIELDS[k]);
      }
    }
  }

  lemma NothingSeen(check: Validator, raws: seq<Raw>)
    ensures Records(check, raws, MergeOf(check, raws, 0)) && forall f :: Unseen(MergeOf(check, raws, 0), f)
  {
  }

  lemma AddFieldRecords(check: Validator, raws: seq<Raw>, m: Merged, f: Field)
    requires Records(check, raws, m)
    ensures Records(check, raws, AddField(m, f, CandidatesOf(check, raws, f)))
  {
    hide Distinct, Winner, CandidatesOf;
  }

  lemma OtherExplained(check: Validator, raws: seq<Raw>, m: Merged, f: Field, g: Field)
    requires g != f
    ensures var n := AddField(m, f, CandidatesOf(check, raws, f));
            && (Explains(check, raws, m, g) ==> Explains(check, raws, n, g)) && (Unseen(m, g) ==> Unseen(n, g))
  {
    OthersStay(m, f, CandidatesOf(check, raws, f), g);
    hide Distinct, Winner, Wins, CandidatesOf, AddField, HasConflict;
  }

  lemma SelectedIs(check: Validator, raws: seq<Raw>, m: Merged, i: nat)
    requires i < |m.conflicts| && Records(check, raws, m) && Explains(check, raws, m, m.conflicts[i].field)
    ensures var f := m.conflicts[i].field;
            m.conflicts[i].selected == if f in m.entities then Some(m.entities[f]) else None
  {
    var cs := CandidatesOf(check, raws, m.conflicts[i].field);
    hide CandidatesOf, Distinct, Best;
    assert forall c, d :: Wins(cs, c) && Wins(cs, d) ==> c == d;
  }

  /** What the merge of the four sources makes of each field. */
  lemma MergeDecides(check: Validator, user: map<Field, string>, page: Option<map<Field, string>>,
                     session: Option<Session>)
    ensures forall f :: Decides(check, user, page, session, MergeOf(check, AllRaw(user, page, session), |FIELDS|), f)
  {
    var raws := AllRaw(user, page, session);
    FieldsExplained(check, raws, |FIELDS|);
    var m := MergeOf(check, raws, |FIELDS|);
    hide MergeOf, AllRaw;
    forall f
      ensures Decides(check, user, page, session, m, f)
    {
      EveryFieldListed(f);
      FieldDecided(check, user, page, session, m, f);
    }
  }

  lemma FieldDecided(check: Validator, user: map<Field, string>, page: Option<map<Field, string>>,
                     session: Option<Session>, m: Merged, f: Field)
    requires Records(check, AllRaw(user, page, session), m) && Explains(check, AllRaw(user, page, session), m, f)
    ensures Decides(check, user, page, session, m, f)
  {
    var raws := AllRaw(user, page, session);
    var values := Sources(check, user, page, session, f);
    var cs := CandidatesOf(check, raws, f);
    SourcesHold(check, user, page, session, f);
    ConflictIff(cs, values);
    DistinctLists(cs, values);
    ConflictsListed(check, raws, m, f);
    SourceSelects(check, raws, m, f, values);
    hide AllRaw, Sources, CandidatesOf, Holds, Distinct, ListsValues, SelectsFrom, Records, Explains, HasConflict;
  }

  lemma SourcesHold(check: Validator, user: map<Field, string>, page: Option<map<Field, string>>,
                    session: Option<Session>, f: Field)
    ensures Holds(CandidatesOf(check, AllRaw(user, page, session), f), Sources(check, user, page, session, f))
  {
    hide AllRaw, ValuesOf, CandidatesOf;
    forall c
      ensures c in CandidatesOf(check, AllRaw(user, page, session), f)
              <==> c.value in ValuesOf(check, user, page, session, c.source, f)
    {
      CandidatesAre(check, user, page, session, f, c);
    }
  }

  lemma ConflictsListed(check: Validator, raws: seq<Raw>, m: Merged, f: Field)
    requires Records(check, raws, m) && Explains(check, raws, m, f)
    ensures forall i :: 0 <= i < |m.conflicts| && m.conflicts[i].field == f ==>
              && m.conflicts[i].candidates == Distinct(CandidatesOf(check, raws, f))
              && m.conflicts[i].selected == (if f in m.entities then Some(m.entities[f]) else None)
  {
    hide Explains, CandidatesOf, Distinct, Winner;
    forall i | 0 <= i < |m.conflicts| && m.conflicts[i].field == f
      ensures m.conflicts[i].selected == if f in m.entities then Some(m.entities[f]) else None
    {
      SelectedIs(check, raws, m, i);
    }
  }

  lemma SourceSelects(check: Validator, raws: seq<Raw>, m: Merged, f: Field, values: Source -> set<string>)
    requires Explains(check, raws, m, f) && Holds(CandidatesOf(check, raws, f), values)
    ensures if values(UserMessage) != {} then SelectsFrom(m, f, values(UserMessage), UserMessage)
            else if values(ConfirmedSession) != {} then SelectsFrom(m, f, values(ConfirmedSession), ConfirmedSession)
            else if values(PageHint) != {} then SelectsFrom(m, f, values(PageHint), PageHint)
            else if values(SessionCandidate) != {} then SelectsFrom(m, f, values(SessionCandidate), SessionCandidate)
            else f !in m.entities && f !in m.unresolved
    ensures HasConflict(m.conflicts, f) <==> |Distinct(CandidatesOf(check, raws, f))| > 1
  {
    hide Holds, SelectsFrom, CandidatesOf, Distinct;
    if values(UserMessage) != {} {
      ExplainedSelects(check, raws, m, f, values, UserMessage);
    } else if values(ConfirmedSession) != {} {
      ExplainedSelects(check, raws, m, f, values, ConfirmedSession);
    } else if values(PageHint) != {} {
      ExplainedSelects(check, raws, m, f, values, PageHint);
    } else if values(SessionCandidate) != {} {
      ExplainedSelects(check, raws, m, f, values, SessionCandidate);
    } else {
      forall s: Source
        ensures values(s) == {}
      {
        match s
        case UserMessage =>
        case ConfirmedSession =>
        case PageHint =>
        case SessionCandidate =>
      }
      ExplainedNothing(check, raws, m, f, values);
    }
  }

  lemma Segments(a: seq<Raw>, b: seq<Raw>, c: seq<Raw>, d: seq<Raw>, i: nat, j: nat)
    requires forall r :: r in a ==> r.source == UserMessage
    requires forall r :: r in b ==> r.source == ConfirmedSession
    requires forall r :: r in c ==> r.source == PageHint
    requires forall r :: r in d ==> r.source == SessionCandidate
    requires i < |a + b + c + d| && j < |a + b + c + d|
    requires Place((a + b + c + d)[j].source) < Place((a + b + c + d)[i].source)
    ensures j < i
  {
    var all := a + b + c + d;
    forall k | 0 <= k < |all|
      ensures Place(all[k].source) == if k < |a| then 0 else if k < |a + b| then 1 else if k < |a + b + c| then 2 else 3
    {
      if k < |a| {
        assert all[k] == a[k];
      } else if k < |a + b| {
        assert all[k] == b[k - |a|];
      } else if k < |a + b + c| {
        assert all[k] == c[k - |a + b|];
      } else {
        assert all[k] == d[k - |a + b + c|];
      }
    }
  }

  // A source is read before every source that it is preferred to.
  lemma ReadInOrder(user: map<Field, string>, page: Option<map<Field, string>>, session: Option<Session>, i: nat,
                    j: nat)
    requires i < |AllRaw(user, page, session)| && j < |AllRaw(user, page, session)|
    requires Place(AllRaw(user, page, session)[j].source) < Place(AllRaw(user, page, session)[i].source)
    ensures j < i
  {
    var a := FromMap(user, UserMessage, |FIELDS|);
    var b := if session.Some? then FromSession(session.value) else [];
    var c := if page.Some? then FromMap(page.value, PageHint, |FIELDS|) else [];
    var d := if session.Some? then FromCandidates(session.value.candidates, |FIELDS|) else [];
    hide FromMap, FromSession, FromCandidates;
    forall r: Raw
      ensures r in a ==> r.source == UserMessage
      ensures r in b ==> r.source == ConfirmedSession
      ensures r in c ==> r.source == PageHint
      ensures r in d ==> r.source == SessionCandidate
    {
      FromMapHolds(user, UserMessage, |FIELDS|, r);
      if page.Some? {
        FromMapHolds(page.value, PageHint, |FIELDS|, r);
      }
      if session.Some? {
        SessionHolds(session.value, r);
        FromCandidatesHolds(session.value.candidates, |FIELDS|, r);
      }
    }
    Segments(a, b, c, d, i, j);
  }

  // The first rejected value, as a statement about what is read.
  ghost predicate Rejects(check: Validator, user: map<Field, string>, page: Option<map<Field, string>>,
                          session: Option<Session>, r: Raw)
  {
    && IsRead(user, page, session, r) && check(r.field, r.value).None?
    && forall q: Raw :: IsRead(user, page, session, q) && Place(q.source) < Place(r.source) ==>
         check(q.field, q.value).Some?
  }

  lemma RejectedIs(check: Validator, user: map<Field, string>, page: Option<map<Field, string>>,
                   session: Option<Session>, i: nat)
    requires i < |AllRaw(user, page, session)| && IsFirstRejected(check, AllRaw(user, page, session), i)
    ensures Rejects(check, user, page, session, AllRaw(user, page, session)[i])
  {
    var raws := AllRaw(user, page, session);
    hide AllRaw, IsRead;
    AllRawHolds(user, page, session, raws[i]);
    forall q: Raw | IsRead(user, page, session, q) && Place(q.source) < Place(raws[i].source)
      ensures check(q.field, q.value).Some?
    {
      AllRawHolds(user, page, session, q);
      var j :| 0 <= j < |raws| && raws[j] == q;
      ReadInOrder(user, page, session, i, j);
      assert Accepted(check, raws[j]);
    }
  }

  // The order in which fields are merged, and hence asked about.
  function Order(f: Field): nat {
    match f
    case ORDER_ID => 0
    case TASK_ID => 1
    case ISSUE_ID => 2
    case BATCH_ID => 3
    case PRODUCT_TYPE => 4
    case SATELLITE_TYPE => 5
  }

  predicate InOrder(m: Merged) {
    && (forall i, j :: 0 <= i < j < |m.unresolved| ==> Order(m.unresolved[i]) < Order(m.unresolved[j]))
    && (forall i, j :: 0 <= i < j < |m.conflicts| ==> Order(m.conflicts[i].field) < Order(m.conflicts[j].field))
  }

  lemma {:induction false} MergesInOrder(check: Validator, raws: seq<Raw>, n: nat)
    requires n <= |FIELDS|
    ensures var m := MergeOf(check, raws, n);
            && InOrder(m) && (forall f :: f in m.unresolved ==> Order(f) < n)
            && forall c :: c in m.conflicts ==> Order(c.field) < n
    decreases n
  {
    if n > 0 {
      MergesInOrder(check, raws, n - 1);
      NextMerged(check, raws, n - 1);
      FieldsAreOrdered(n - 1);
      var m, f := MergeOf(check, raws, n - 1), FIELDS[n - 1];
      var cs := CandidatesOf(check, raws, f);
      hide MergeOf, CandidatesOf, Distinct, Winner, Order;
      assert AddField(m, f, cs).unresolved == m.unresolved || AddField(m, f, cs).unresolved == m.unresolved + [f];
    }
  }

  lemma FieldsAreOrdered(i: nat)
    requires i < |FIELDS|
    ensures Order(FIELDS[i]) == i
  {
  }

  lemma NothingMerged(check: Validator, raws: seq<Raw>)
    ensures MergeOf(check, raws, 0) == Merged(map[], [], [])
  {
  }

  lemma NextMerged(check: Validator, raws: seq<Raw>, n: nat)
    requires n < |FIELDS|
    ensures MergeOf(check, raws, n + 1)
            == AddField(MergeOf(check, raws, n), FIELDS[n], CandidatesOf(check, raws, FIELDS[n]))
  {
    hide AddField, CandidatesOf;
  }

  // One field: one candidate per value, sorted; the highest source decides unless it holds several values.
  method MergeField(check: Validator, ghost raws: seq<Raw>, pool: map<Field, seq<Sourced>>, f: Field, m: Merged)
    returns (merged: Merged)
    requires FoundIn(pool) == AllFound(check, raws)
    ensures merged == AddField(m, f, CandidatesOf(check, raws, f))
  {
    hide Distinct, Winner, Best, AllFound, FoundIn, CandidatesOf, SourcedLess, Priority;
    ghost var cs := CandidatesOf(check, raws, f);
    var found := if f in pool then pool[f] else [];
    PoolOfField(check, raws, pool, f);
    if found == [] {
      return m;
    }
    assert found[0] in Elements(found);
    var best := BestByValue(found);
    SourcedOrder();
    var distinct := Sort(best, SourcedLess);
    ListingIsUnique(distinct, Distinct(cs), Best(cs), SourcedLess);
    SomethingIsBest(cs);
    var selected := SelectHighest(distinct);
    FirstIsHighest(cs, selected);
    merged := m;
    if selected.None? {
      merged := merged.(unresolved := merged.unresolved + [f]);
    } else {
      merged := merged.(entities := merged.entities[f := selected.value]);
    }
    if |distinct| > 1 {
      merged := merged.(conflicts := merged.conflicts + [Conflict(f, selected, distinct, selected.Some?)]);
    }
  }

  /** The merge: all sources validated first, then each field on its own. */
  method Merge(check: Validator, user: map<Field, string>, page: Option<map<Field, string>>, session: Option<Session>)
    returns (r: Result<Merged, Raw>)
    ensures r.Ok? <==> forall raw :: IsRead(user, page, session, raw) ==> check(raw.field, raw.value).Some?
    ensures r.Ok? ==> r.value == MergeOf(check, AllRaw(user, page, session), |FIELDS|)
    ensures r.Ok? ==> InOrder(r.value)
    ensures r.Ok? ==> forall f :: Decides(check, user, page, session, r.value, f)
    ensures r.Err? ==> Rejects(check, user, page, session, r.error)
  {
    var raws := AllRaw(user, page, session);
    forall raw: Raw
      ensures raw in raws <==> IsRead(user, page, session, raw)
    {
      AllRawHolds(user, page, session, raw);
    }
    var candidates := new CandidatePool();
    var rejected := candidates.AppendAll(check, raws);
    if rejected.Some? {
      ghost var i :| 0 <= i < |raws| && raws[i] == rejected.value && IsFirstRejected(check, raws, i);
      RejectedIs(check, user, page, session, i);
      return Err(rejected.value);
    }
    var pool := candidates.pool;
    assert FoundIn(pool) == AllFound(check, raws);
    MergeDecides(check, user, page, session);
    MergesInOrder(check, raws, |FIELDS|);
    NothingMerged(check, raws);
    hide InOrder, AllRaw, AllFound, FoundIn, CandidatesOf, Decides, MergeOf, AddField, IsRead;
    var merged := Merged(map[], [], []);
    for n := 0 to |FIELDS|
      invariant merged == MergeOf(check, raws, n)
    {
      NextMerged(check, raws, n);
      merged := MergeField(check, raws, pool, FIELDS[n], merged);
    }
    r := Ok(merged);
  }
}
