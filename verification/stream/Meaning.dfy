/** What a block means. */
module BlockMeaning {
  import opened Wrappers
  import opened EventBlocks
  import opened Delivery
  import Text

  // --- Lines ---

  /** Lines end at a line feed, and a carriage return before it belongs to the end. */
  lemma LinesAre(a: string, rest: string)
    requires '\n' !in a
    ensures Lines(a) == [a] && Lines(a + "\r\n" + rest) == [a] + Lines(rest)
    ensures a == "" || a[|a| - 1] != '\r' ==> Lines(a + "\n" + rest) == [a] + Lines(rest)
  {
    assert forall k :: 0 <= k < |a| ==> a[k] in a;
    IndexOfIs(a, '\n', |a|);
    var s, t := a + "\r\n" + rest, a + "\n" + rest;
    IndexOfIs(s, '\n', |a| + 1);
    IndexOfIs(t, '\n', |a|);
    assert s[..|a| + 1] == a + "\r" && s[|a| + 2..] == rest;
    assert (a + "\r")[..|a|] == a;
    assert t[..|a|] == a && t[|a| + 1..] == rest;
  }

  // --- Fields ---

  /** A line gives a field a value: the name alone, or name, colon, at most one blank, and the value. */
  predicate Says(line: string, field: string, value: string) {
    || (line == field && value == "")
    || line == field + ": " + value
    || (line == field + ":" + value && !(" " <= value))
  }

  /** A comment that confirms the connection: a colon, white space, and a word that begins like this. */
  ghost predicate Confirms(line: string) {
    exists n: nat :: ConfirmsAt(line, n)
  }

  predicate ConfirmsAt(line: string, n: nat) {
    && n < |line| && line[0] == ':' && (forall k :: 0 < k <= n ==> IsScriptSpace(line[k]))
    && "connected" <= line[n + 1..]
  }

  predicate IsName(field: string) {
    field != "" && ':' !in field
  }

  // How the parser takes a line apart.
  predicate ReadsAs(line: string, field: string, value: string) {
    var separator := IndexOf(line, ':');
    && line[..separator] == field
    && value == if separator == |line| then "" else DropOneBlank(line[separator + 1..])
  }

  lemma NameReads(field: string, rest: string)
    requires IsName(field)
    ensures ReadsAs(field, field, "") && ReadsAs(field + ":" + rest, field, DropOneBlank(rest))
  {
    assert forall k :: 0 <= k < |field| ==> field[k] in field;
    IndexOfIs(field, ':', |field|);
    var line := field + ":" + rest;
    IndexOfIs(line, ':', |field|);
    assert field[..|field|] == field && line[..|field|] == field && line[|field| + 1..] == rest;
  }

  lemma SaysReads(line: string, field: string, value: string)
    requires IsName(field) && Says(line, field, value)
    ensures ReadsAs(line, field, value)
  {
    if line == field + ": " + value {
      NameReads(field, " " + value);
      assert line == field + ":" + (" " + value) && (" " + value)[1..] == value;
    } else {
      NameReads(field, value);
    }
    hide ReadsAs;
  }

  lemma ReadsSays(line: string, field: string, value: string)
    requires ReadsAs(line, field, value)
    ensures Says(line, field, value)
  {
    var separator := IndexOf(line, ':');
    IndexFinds(line, ':');
    if separator == |line| {
      assert line[..separator] == line;
    } else {
      var rest := line[separator + 1..];
      assert line == field + ":" + rest;
      if rest != [] && rest[0] == ' ' {
        assert rest == " " + rest[1..];
        assert line == field + ": " + value;
      }
    }
  }

  lemma {:induction false} IndexFinds(s: string, c: char)
    ensures forall k :: 0 <= k < IndexOf(s, c) ==> s[k] != c
    ensures IndexOf(s, c) < |s| ==> s[IndexOf(s, c)] == c
  {
    if s != [] && s[0] != c {
      IndexFinds(s[1..], c);
    }
  }

  lemma {:induction false} TrimIs(s: string, n: nat)
    requires n <= |s| && (forall k :: 0 <= k < n ==> IsScriptSpace(s[k])) && (n < |s| ==> !IsScriptSpace(s[n]))
    ensures TrimStart(s) == s[n..]
  {
    if n > 0 {
      TrimIs(s[1..], n - 1);
      assert s[1..][n - 1..] == s[n..];
    }
  }

  lemma {:induction false} TrimEnds(s: string) returns (n: nat)
    ensures n <= |s| && (forall k :: 0 <= k < n ==> IsScriptSpace(s[k])) && (n < |s| ==> !IsScriptSpace(s[n]))
  {
    n := 0;
    if s != [] && IsScriptSpace(s[0]) {
      var m := TrimEnds(s[1..]);
      n := m + 1;
    }
  }

  lemma ConfirmsIs(line: string)
    ensures Confirms(line) <==> line != [] && line[0] == ':' && "connected" <= TrimStart(line[1..])
  {
    if line != [] {
      var rest := line[1..];
      var m := TrimEnds(rest);
      TrimIs(rest, m);
      assert forall k :: 0 < k <= m ==> line[k] == rest[k - 1];
      assert rest[m..] == line[m + 1..];
      if line[0] == ':' && "connected" <= TrimStart(rest) {
        assert ConfirmsAt(line, m);
      }
      if Confirms(line) {
        var n: nat :| ConfirmsAt(line, n);
        assert line[n + 1] == 'c' && !IsScriptSpace('c');
        assert forall k :: 0 <= k < n ==> rest[k] == line[k + 1];
        TrimIs(rest, n);
        assert rest[n..] == line[n + 1..];
      }
    }
  }

  // --- All lines of a block ---

  // The value that the last line gives a field, or the one it has without any.
  ghost predicate LastSays(lines: seq<string>, field: string, default: string, value: string) {
    if forall i, v :: 0 <= i < |lines| ==> !Says(lines[i], field, v) then value == default
    else exists i: nat :: LastAt(lines, field, value, i)
  }

  ghost predicate LastAt(lines: seq<string>, field: string, value: string, i: nat) {
    i < |lines| && Says(lines[i], field, value) && forall j, v :: i < j < |lines| ==> !Says(lines[j], field, v)
  }

  // The data lines, in order.
  ghost predicate DataAt(lines: seq<string>, data: seq<string>, places: seq<nat>) {
    && |places| == |data|
    && (forall k :: 0 <= k < |places| ==> places[k] < |lines| && Says(lines[places[k]], "data", data[k]))
    && (forall k :: 0 < k < |places| ==> places[k - 1] < places[k])
    && (forall i, v :: 0 <= i < |lines| && Says(lines[i], "data", v) ==> i in places)
  }

  /** Comments aside, the last id and the last name count, and all data; other lines mean nothing. */
  ghost predicate Means(lines: seq<string>, f: Fields, places: seq<nat>) {
    && LastSays(lines, "id", "", f.id) && LastSays(lines, "event", "message", f.name) && DataAt(lines, f.data, places)
    && (f.connected <==> exists i :: 0 <= i < |lines| && Confirms(lines[i]))
  }

  // The three fields that count.
  predicate IsField(field: string) {
    field == "id" || field == "event" || field == "data"
  }

  function WithField(f: Fields, field: string, value: string): Fields {
    if field == "id" then f.(id := value)
    else if field == "event" then f.(name := value)
    else if field == "data" then f.(data := f.data + [value])
    else f
  }

  lemma FieldIsName(field: string)
    requires IsField(field)
    ensures IsName(field)
  {
  }

  lemma FieldRead(f: Fields, line: string, field: string, value: string)
    requires IsField(field) && Says(line, field, value)
    ensures ReadLine(f, line) == WithField(f, field, value)
    ensures forall other, v :: IsField(other) && Says(line, other, v) ==> other == field && v == value
    ensures !Confirms(line)
  {
    FieldIsName(field);
    SaysReads(line, field, value);
    forall other, v | IsField(other) && Says(line, other, v)
      ensures ReadsAs(line, other, v)
    {
      FieldIsName(other);
      SaysReads(line, other, v);
    }
    ConfirmsIs(line);
    IndexFinds(line, ':');
    assert line != [] && line[0] == field[0] && field[0] in field;
    hide Says, Confirms, TrimStart, IndexOf, DropOneBlank;
  }

  lemma OtherRead(f: Fields, line: string)
    requires forall field, v :: IsField(field) ==> !Says(line, field, v)
    ensures ReadLine(f, line) == if Confirms(line) then f.(connected := true) else f
  {
    hide Says, Confirms, TrimStart, IndexOf, DropOneBlank;
    ConfirmsIs(line);
    var separator := IndexOf(line, ':');
    var value := if separator == |line| then "" else DropOneBlank(line[separator + 1..]);
    ReadsSays(line, line[..separator], value);
    assert !IsField(line[..separator]);
    hide IsField;
    NoFieldRead(f, line);
  }

  lemma NoFieldRead(f: Fields, line: string)
    requires !IsField(line[..IndexOf(line, ':')])
    ensures ReadLine(f, line) == if line != [] && line[0] == ':' && "connected" <= TrimStart(line[1..])
                                 then f.(connected := true) else f
  {
    hide TrimStart, IndexOf, DropOneBlank;
  }

  // What one more line does to the fields read so far.
  ghost predicate Moves(f: Fields, g: Fields, line: string) {
    && (if exists v :: Says(line, "id", v) then Says(line, "id", g.id) else g.id == f.id)
    && (if exists v :: Says(line, "event", v) then Says(line, "event", g.name) else g.name == f.name)
    && (if exists v :: Says(line, "data", v) then exists v :: OnlySays(line, v) && g.data == f.data + [v]
        else g.data == f.data)
    && (g.connected <==> f.connected || Confirms(line))
  }

  ghost predicate OnlySays(line: string, v: string) {
    Says(line, "data", v) && forall w :: Says(line, "data", w) ==> w == v
  }

  lemma LineMoves(f: Fields, line: string)
    ensures Moves(f, ReadLine(f, line), line)
  {
    hide Says, Confirms;
    if field, v :| IsField(field) && Says(line, field, v) {
      FieldRead(f, line, field, v);
      hide ReadLine;
      FieldMoves(f, line, field, v);
    } else {
      OtherRead(f, line);
      assert IsField("id") && IsField("event") && IsField("data");
      hide ReadLine;
    }
  }

  lemma FieldMoves(f: Fields, line: string, field: string, v: string)
    requires IsField(field) && Says(line, field, v) && !Confirms(line)
    requires forall other, w :: IsField(other) && Says(line, other, w) ==> other == field && w == v
    ensures Moves(f, WithField(f, field, v), line)
  {
    hide Says, Confirms;
    assert IsField("id") && IsField("event") && IsField("data");
    if field == "data" {
      assert OnlySays(line, v);
    }
  }

  lemma {:induction false} ReadLinesAppend(f: Fields, lines: seq<string>, line: string)
    ensures ReadLines(f, lines + [line]) == ReadLine(ReadLines(f, lines), line)
    decreases |lines|
  {
    hide ReadLine;
    if lines != [] {
      assert (lines + [line])[1..] == lines[1..] + [line];
      ReadLinesAppend(ReadLine(f, lines[0]), lines[1..], line);
    } else {
      assert (lines + [line])[1..] == [];
    }
  }

  lemma LastSaysAppend(lines: seq<string>, line: string, field: string, default: string, value: string, next: string)
    requires LastSays(lines, field, default, value)
    requires if exists v :: Says(line, field, v) then Says(line, field, next) else next == value
    ensures LastSays(lines + [line], field, default, next)
  {
    hide Says;
    var all := lines + [line];
    assert all[|lines|] == line;
    if exists v :: Says(line, field, v) {
      assert LastAt(all, field, next, |lines|);
    } else if i: nat :| LastAt(lines, field, value, i) {
      assert LastAt(all, field, next, i);
      assert Says(all[i], field, value);
    }
  }

  lemma DataAppend(lines: seq<string>, line: string, data: seq<string>, places: seq<nat>) returns (next: seq<nat>)
    requires DataAt(lines, data, places)
    ensures (forall v :: !Says(line, "data", v)) ==> DataAt(lines + [line], data, next)
    ensures forall v :: OnlySays(line, v) ==> DataAt(lines + [line], data + [v], next)
  {
    hide Says;
    var all := lines + [line];
    assert all[|lines|] == line;
    if v :| Says(line, "data", v) {
      next := places + [|lines|];
    } else {
      next := places;
    }
  }

  lemma {:induction false} LinesMean(lines: seq<string>) returns (places: seq<nat>)
    ensures Means(lines, ReadLines(NO_FIELDS, lines), places)
    decreases |lines|
  {
    if lines == [] {
      places := [];
    } else {
      var front, line := lines[..|lines| - 1], lines[|lines| - 1];
      var before := LinesMean(front);
      assert lines == front + [line];
      ReadLinesAppend(NO_FIELDS, front, line);
      hide ReadLines, ReadLine;
      places := LineMeans(front, line, ReadLines(NO_FIELDS, front), before);
    }
  }

  lemma LineMeans(lines: seq<string>, line: string, f: Fields, places: seq<nat>) returns (next: seq<nat>)
    requires Means(lines, f, places)
    ensures Means(lines + [line], ReadLine(f, line), next)
  {
    var g := ReadLine(f, line);
    var all := lines + [line];
    assert all[|lines|] == line && forall i :: 0 <= i < |lines| ==> all[i] == lines[i];
    LineMoves(f, line);
    next := DataAppend(lines, line, f.data, places);
    hide ReadLine, Says, Confirms, LastSays, DataAt, OnlySays;
    LastSaysAppend(lines, line, "id", "", f.id, g.id);
    LastSaysAppend(lines, line, "event", "message", f.name, g.name);
    ConfirmedAppend(lines, line);
  }

  lemma ConfirmedAppend(lines: seq<string>, line: string)
    ensures (exists i :: 0 <= i < |lines + [line]| && Confirms((lines + [line])[i])) <==>
            (exists i :: 0 <= i < |lines| && Confirms(lines[i])) || Confirms(line)
  {
    hide Confirms;
    var all := lines + [line];
    if i :| 0 <= i < |lines| && Confirms(lines[i]) {
      assert Confirms(all[i]);
    }
    if Confirms(line) {
      assert Confirms(all[|lines|]);
    }
  }

  // --- The block as a whole ---

  // An event is accepted when its number is safe and the other fields of the block agree with it.
  predicate Agrees(e: RunEvent, f: Fields) {
    && 1 <= e.id <= MAX_SAFE_INTEGER && (f.id == "" || f.id == Decimal(e.id)) && f.name == KindName(e.kind)
  }

  /**
    * A block without data brings no event. One with data brings the event that its data decodes to, provided that the
    * event agrees with the other fields; anything else is a fault.
    */
  lemma BlockIs(block: string, codec: Codec) returns (f: Fields, places: seq<nat>)
    ensures Means(Lines(block), f, places)
    ensures var o := ParseBlock(block, codec);
            var e := codec.decode(Text.Join("\n", f.data));
            && o.connected == f.connected
            && (o.faulty <==> f.data != [] && (e.None? || !Agrees(e.value, f)))
            && o.event == (if f.data != [] && !o.faulty then e else None)
  {
    f := ReadLines(NO_FIELDS, Lines(block));
    places := LinesMean(Lines(block));
    hide ReadLines, Lines, Means, Decimal, KindName;
  }

  // --- Numbers and names are told apart ---

  function Digits(s: string): int {
    if s == [] then 0 else 10 * Digits(s[..|s| - 1]) + (s[|s| - 1] as int - '0' as int)
  }

  /** The decimal form of a number is read back as that number, so different numbers have different forms. */
  lemma {:induction false} DecimalReads(n: nat)
    ensures Digits(Decimal(n)) == n
  {
    var s := Decimal(n);
    var digit := ['0' + (n % 10) as char];
    if n >= 10 {
      DecimalReads(n / 10);
      assert s == Decimal(n / 10) + digit && s[..|s| - 1] == Decimal(n / 10);
    } else {
      assert s[..|s| - 1] == [] && Digits([]) == 0;
    }
  }

  /** Kinds are named apart. */
  lemma NamesDiffer(a: Kind, b: Kind)
    requires a != b
    ensures KindName(a) != KindName(b)
  {
  }

  // --- The gate on event numbers ---

  /**
    * A written event is ignored when its number is not above the last one, delivered when it is the next one or the
    * first of all, and a fault when numbers are missing before it.
    */
  lemma EventIsGated(c: Client, e: RunEvent, codec: Codec)
    requires Faithful(codec) && ValidEvent(e)
    ensures var s := OnBlock(c, EventBlock(e, codec), codec);
            && (e.id <= c.last ==> s == Step(c, false))
            && (c.last > 0 && e.id > c.last + 1 ==> s == Step(c, true))
            && (e.id == c.last + 1 || (c.last == 0 && e.id > 0) ==>
                  && !s.faulty && s.client.last == e.id && s.client.delivered == c.delivered + [e]
                  && (s.client.terminal <==> c.terminal || e.kind in {RunCompleted, RunFailed, WritebackCompleted}))
  {
    EventRoundTrip(e, codec);
    hide EventBlock, ParseBlock;
  }
}
