/**
  * Orders and the sorted listing of a finite set. A strict total order gives every finite set exactly one listing, so
  * what is computed from a listing does not depend on the order in which the set was built or is visited.
  */
module Ordering {

  // --- Strict orders ---

  ghost predicate Strict<T(!new)>(less: (T, T) -> bool) {
    && (forall x: T :: !less(x, x))
    && (forall x: T, y: T, z: T :: less(x, y) && less(y, z) ==> less(x, z))
  }

  ghost predicate Total<T(!new)>(less: (T, T) -> bool) {
    Strict(less) && forall x: T, y: T :: x == y || less(x, y) || less(y, x)
  }

  // Any two different elements of a set are comparable.
  ghost predicate Connects<T(!new)>(less: (T, T) -> bool, s: set<T>) {
    forall x, y :: x in s && y in s ==> x == y || less(x, y) || less(y, x)
  }

  // --- Listings ---

  predicate NoRepeats<T(==)>(list: seq<T>) {
    forall i, j :: 0 <= i < j < |list| ==> list[i] != list[j]
  }

  predicate Ascending<T>(list: seq<T>, less: (T, T) -> bool) {
    forall i, j :: 0 <= i < j < |list| ==> less(list[i], list[j])
  }

  /** The elements of a set, each once, in ascending order. */
  ghost predicate IsListing<T(!new)>(list: seq<T>, s: set<T>, less: (T, T) -> bool) {
    Ascending(list, less) && forall x :: x in list <==> x in s
  }

  /** A set has at most one listing. */
  lemma {:induction false} ListingIsUnique<T(!new)>(a: seq<T>, b: seq<T>, s: set<T>, less: (T, T) -> bool)
    requires Strict(less) && IsListing(a, s, less) && IsListing(b, s, less)
    ensures a == b
    decreases |a|
  {
    if a == [] {
      assert forall i :: 0 <= i < |b| ==> b[i] in s;
    } else {
      assert a[0] in a && a[0] in b;
      assert b[0] in b && b[0] in a;
      assert a[0] == b[0];
      var x := a[0];
      TailIsListing(a, s, less);
      TailIsListing(b, s, less);
      ListingIsUnique(a[1..], b[1..], s - {x}, less);
      assert a == [x] + a[1..] && b == [x] + b[1..];
    }
  }

  lemma TailIsListing<T(!new)>(a: seq<T>, s: set<T>, less: (T, T) -> bool)
    requires Strict(less) && IsListing(a, s, less) && a != []
    ensures IsListing(a[1..], s - {a[0]}, less)
  {
    forall x
      ensures x in a[1..] <==> x in s - {a[0]}
    {
      if x in a[1..] {
        var i :| 0 <= i < |a[1..]| && a[1..][i] == x;
        assert less(a[0], a[i + 1]);
      }
      if x in s && x != a[0] {
        var i :| 0 <= i < |a| && a[i] == x;
        assert a[1..][i - 1] == x;
      }
    }
  }

  lemma {:induction false} ListingLength<T(!new)>(list: seq<T>, s: set<T>, less: (T, T) -> bool)
    requires Strict(less) && IsListing(list, s, less)
    ensures |list| == |s|
    decreases |list|
  {
    if list == [] {
      assert s == {};
    } else {
      assert list[0] in list;
      TailIsListing(list, s, less);
      ListingLength(list[1..], s - {list[0]}, less);
    }
  }

  // Inserting into a listing.
  function Insert<T>(x: T, list: seq<T>, less: (T, T) -> bool): seq<T> {
    if list == [] || less(x, list[0]) then [x] + list else [list[0]] + Insert(x, list[1..], less)
  }

  lemma {:induction false} InsertKeeps<T>(x: T, list: seq<T>, less: (T, T) -> bool)
    ensures forall y :: y in Insert(x, list, less) <==> y in list || y == x
  {
    if list != [] && !less(x, list[0]) {
      InsertKeeps(x, list[1..], less);
      assert list == [list[0]] + list[1..];
    }
  }

  lemma {:induction false} InsertAscends<T(!new)>(x: T, list: seq<T>, less: (T, T) -> bool)
    requires Strict(less) && Ascending(list, less) && x !in list
    requires forall y :: y in list ==> less(x, y) || less(y, x)
    ensures Ascending(Insert(x, list, less), less)
  {
    if list == [] {
    } else if less(x, list[0]) {
      var r := [x] + list;
      forall i, j | 0 <= i < j < |r|
        ensures less(r[i], r[j])
      {
        assert i == 0 && j > 1 ==> less(list[0], list[j - 1]);
      }
    } else {
      assert list[0] in list;
      InsertAscends(x, list[1..], less);
      InsertKeeps(x, list[1..], less);
      var rest := Insert(x, list[1..], less);
      forall j | 0 <= j < |rest|
        ensures less(list[0], rest[j])
      {
        assert rest[j] in rest;
      }
    }
  }

  lemma {:induction false} ListingExists<T(!new)>(s: set<T>, less: (T, T) -> bool) returns (list: seq<T>)
    requires Strict(less) && Connects(less, s)
    ensures IsListing(list, s, less)
    decreases s
  {
    if x :| x in s {
      var rest := ListingExists(s - {x}, less);
      InsertKeeps(x, rest, less);
      InsertAscends(x, rest, less);
      list := Insert(x, rest, less);
    } else {
      list := [];
    }
  }

  /** The listing of a set. */
  ghost function Listing<T(!new)>(s: set<T>, less: (T, T) -> bool): (list: seq<T>)
    requires Strict(less) && Connects(less, s)
    ensures IsListing(list, s, less)
  {
    assert exists list :: IsListing(list, s, less) by {
      var list := ListingExists(s, less);
    }
    var list :| IsListing(list, s, less);
    list
  }

  /** Sorting the elements of a set, taken in any order. */
  method Sort<T(!new, ==)>(s: set<T>, less: (T, T) -> bool) returns (list: seq<T>)
    requires Strict(less) && Connects(less, s)
    ensures list == Listing(s, less)
  {
    list := [];
    var rest := s;
    while rest != {}
      invariant rest <= s && IsListing(list, s - rest, less)
      decreases rest
    {
      var x :| x in rest;
      InsertKeeps(x, list, less);
      InsertAscends(x, list, less);
      list := Insert(x, list, less);
      rest := rest - {x};
    }
    ListingIsUnique(list, Listing(s, less), s, less);
  }

  // --- Lexicographic order ---

  predicate LexLess<T(==)>(a: seq<T>, b: seq<T>, less: (T, T) -> bool) {
    if b == [] then false
    else if a == [] then true
    else less(a[0], b[0]) || (a[0] == b[0] && LexLess(a[1..], b[1..], less))
  }

  lemma {:induction false} LexIrreflexive<T(!new)>(a: seq<T>, less: (T, T) -> bool)
    requires Strict(less)
    ensures !LexLess(a, a, less)
  {
    if a != [] {
      LexIrreflexive(a[1..], less);
    }
  }

  lemma {:induction false} LexTransitive<T(!new)>(a: seq<T>, b: seq<T>, c: seq<T>, less: (T, T) -> bool)
    requires Strict(less) && LexLess(a, b, less) && LexLess(b, c, less)
    ensures LexLess(a, c, less)
  {
    if a != [] && a[0] == b[0] == c[0] {
      LexTransitive(a[1..], b[1..], c[1..], less);
    }
  }

  lemma {:induction false} LexConnects<T(!new)>(a: seq<T>, b: seq<T>, less: (T, T) -> bool)
    requires Total(less)
    ensures a == b || LexLess(a, b, less) || LexLess(b, a, less)
  {
    if a != [] && b != [] && a[0] == b[0] {
      LexConnects(a[1..], b[1..], less);
      assert a == [a[0]] + a[1..] && b == [b[0]] + b[1..];
    }
  }

  predicate CharLess(a: char, b: char) {
    a < b
  }

  predicate StringLess(a: string, b: string) {
    LexLess(a, b, CharLess)
  }

  predicate StringsLess(a: seq<string>, b: seq<string>) {
    LexLess(a, b, StringLess)
  }

  /** Strings, and sequences of strings, are totally ordered. */
  lemma StringsAreOrdered()
    ensures Total(StringLess) && Total(StringsLess)
  {
    assert Total(CharLess);
    LexIsTotal(CharLess, StringLess);
    LexIsTotal(StringLess, StringsLess);
  }

  lemma LexIsTotal<T(!new)>(less: (T, T) -> bool, lex: (seq<T>, seq<T>) -> bool)
    requires Total(less) && forall a, b :: lex(a, b) == LexLess(a, b, less)
    ensures Total(lex)
  {
    forall a: seq<T>
      ensures !lex(a, a)
    {
      LexIrreflexive(a, less);
    }
    forall a: seq<T>, b: seq<T>, c: seq<T> | lex(a, b) && lex(b, c)
      ensures lex(a, c)
    {
      LexTransitive(a, b, c, less);
    }
    forall a: seq<T>, b: seq<T>
      ensures a == b || lex(a, b) || lex(b, a)
    {
      LexConnects(a, b, less);
    }
  }
}
