/** apps/server/src/services/drizzle-raw-event-repository.ts: the raw_events table, its ordered read and
    its keyset pagination. */
module RawEvents {
  import opened Basics
  import opened SessionEvents

  /** `createdAt` is the instant its ISO text denotes: for the years 0 to 9999 texts and instants are
      in the same order, and converting there and back changes nothing. */
  datatype Row = Row(id: string, sessionId: string, dir: Direction, raw: string, createdAt: int)

  datatype Key = Key(createdAt: int, id: string)

  function KeyOf(r: Row): Key { Key(r.createdAt, r.id) }

  function ToRawEvent(r: Row): RawEvent { RawEvent(r.createdAt, r.sessionId, r.dir, r.raw) }

  function RowOf(e: RawEvent, id: string): Row { Row(id, e.sessionId, e.direction, e.raw, e.timestamp) }

  function ToRawEvents(rows: seq<Row>): seq<RawEvent> {
    seq(|rows|, i requires 0 <= i < |rows| => ToRawEvent(rows[i]))
  }

  // ---- The order of (createdAt, id) ----

  predicate LexLess(a: string, b: string) {
    if b == "" then false
    else if a == "" then true
    else if a[0] != b[0] then a[0] < b[0]
    else LexLess(a[1..], b[1..])
  }

  lemma {:induction false} LexTotal(a: string, b: string)
    ensures LexLess(a, b) || a == b || LexLess(b, a)
    ensures !(LexLess(a, b) && LexLess(b, a))
    decreases |a|
  {
    if a != "" && b != "" {
      assert a == [a[0]] + a[1..] && b == [b[0]] + b[1..];
      LexTotal(a[1..], b[1..]);
    }
  }

  lemma {:induction false} LexTransitive(a: string, b: string, c: string)
    requires LexLess(a, b) && LexLess(b, c)
    ensures LexLess(a, c)
    decreases |a|
  {
    if a != "" && a[0] == b[0] == c[0] { LexTransitive(a[1..], b[1..], c[1..]); }
  }

  /** The texts agree up to the k-th character, where the first one ends or has the lesser character. */
  predicate LessAt(a: string, b: string, k: nat) {
    k <= |a| && k < |b| && a[..k] == b[..k] && (k == |a| || a[k] < b[k])
  }

  /** Texts are compared at their first difference; a proper prefix comes first. */
  lemma {:induction false} LexLessIff(a: string, b: string)
    ensures LexLess(a, b) <==> exists k: nat :: LessAt(a, b, k)
    decreases |a|
  {
    if b == "" || a == "" {
      assert b != "" ==> LessAt(a, b, 0);
    } else if a[0] != b[0] {
      assert a[0] < b[0] ==> LessAt(a, b, 0);
      forall k: nat | LessAt(a, b, k) ensures k == 0 {}
    } else {
      LexLessIff(a[1..], b[1..]);
      if k: nat :| LessAt(a[1..], b[1..], k) {
        assert a[..k + 1] == [a[0]] + a[1..][..k] && b[..k + 1] == [b[0]] + b[1..][..k];
        assert LessAt(a, b, k + 1);
      }
      if k: nat :| LessAt(a, b, k) {
        assert k > 0 && a[1..][..k - 1] == a[..k][1..] && b[1..][..k - 1] == b[..k][1..];
        assert LessAt(a[1..], b[1..], k - 1);
      }
    }
  }

  predicate Before(a: Key, b: Key) { a.createdAt < b.createdAt || (a.createdAt == b.createdAt && LexLess(a.id, b.id)) }

  lemma BeforeOrder(a: Key, b: Key, c: Key)
    ensures Before(a, b) || a == b || Before(b, a)
    ensures !(Before(a, b) && Before(b, a)) && !Before(a, a)
    ensures Before(a, b) && Before(b, c) ==> Before(a, c)
  {
    LexTotal(a.id, b.id);
    LexTotal(a.id, a.id);
    if LexLess(a.id, b.id) && LexLess(b.id, c.id) { LexTransitive(a.id, b.id, c.id); }
  }

  predicate Sorted(rows: seq<Row>) { forall i, j :: 0 <= i < j < |rows| ==> Before(KeyOf(rows[i]), KeyOf(rows[j])) }

  // ---- Queries ----

  /** `WHERE session_id = ...` */
  function InSession(rows: seq<Row>, sessionId: string): seq<Row> {
    if rows == [] then []
    else (if rows[0].sessionId == sessionId then [rows[0]] else []) + InSession(rows[1..], sessionId)
  }

  /** `WHERE (created_at, id) > (...)` */
  function After(rows: seq<Row>, k: Key): seq<Row> {
    if rows == [] then []
    else (if Before(k, KeyOf(rows[0])) then [rows[0]] else []) + After(rows[1..], k)
  }

  /** `ORDER BY created_at, id` */
  function Insert(r: Row, rows: seq<Row>): seq<Row> {
    if rows == [] || Before(KeyOf(r), KeyOf(rows[0])) then [r] + rows else [rows[0]] + Insert(r, rows[1..])
  }

  function Order(rows: seq<Row>): seq<Row> {
    if rows == [] then [] else Insert(rows[0], Order(rows[1..]))
  }

  /** The plain ordered read of a session. */
  function Read(rows: seq<Row>, sessionId: string): seq<Row> { Order(InSession(rows, sessionId)) }

  predicate UniqueIds(rows: seq<Row>) { forall i, j :: 0 <= i < j < |rows| ==> rows[i].id != rows[j].id }

  // ---- Ordering ----

  lemma {:induction false} InsertMembers(r: Row, rows: seq<Row>)
    ensures multiset(Insert(r, rows)) == multiset(rows) + multiset{r}
  {
    if rows != [] && !Before(KeyOf(r), KeyOf(rows[0])) {
      InsertMembers(r, rows[1..]);
      assert rows == [rows[0]] + rows[1..];
    }
  }

  lemma {:induction false} InsertSorted(r: Row, rows: seq<Row>)
    requires Sorted(rows) && forall x :: x in rows ==> KeyOf(x) != KeyOf(r)
    ensures Sorted(Insert(r, rows))
  {
    if rows != [] {
      var s := Insert(r, rows);
      if Before(KeyOf(r), KeyOf(rows[0])) {
        forall j | 0 <= j < |rows| ensures Before(KeyOf(r), KeyOf(rows[j])) {
          if j > 0 { BeforeOrder(KeyOf(r), KeyOf(rows[0]), KeyOf(rows[j])); }
        }
      } else {
        InsertSorted(r, rows[1..]);
        InsertMembers(r, rows[1..]);
        BeforeOrder(KeyOf(r), KeyOf(rows[0]), KeyOf(r));
        assert rows[0] in rows;
        forall j | 0 < j < |s| ensures Before(KeyOf(rows[0]), KeyOf(s[j])) {
          assert s[j] in multiset(Insert(r, rows[1..]));
          assert s[j] == r || s[j] in rows[1..];
        }
      }
    }
  }

  lemma {:induction false} OrderIsSorted(rows: seq<Row>)
    requires UniqueIds(rows)
    ensures Sorted(Order(rows)) && multiset(Order(rows)) == multiset(rows)
  {
    if rows != [] {
      OrderIsSorted(rows[1..]);
      assert rows == [rows[0]] + rows[1..];
      forall x | x in Order(rows[1..]) ensures KeyOf(x) != KeyOf(rows[0]) {
        assert x in multiset(rows[1..]);
      }
      InsertSorted(rows[0], Order(rows[1..]));
      InsertMembers(rows[0], Order(rows[1..]));
    }
  }

  lemma {:induction false} OrderOfSorted(rows: seq<Row>)
    requires Sorted(rows)
    ensures Order(rows) == rows
  {
    if rows != [] {
      OrderOfSorted(rows[1..]);
      assert rows == [rows[0]] + rows[1..];
    }
  }

  /** Exactly the session's rows, in strictly increasing order of (createdAt, id). */
  ghost predicate Lists(read: seq<Row>, rows: seq<Row>, sessionId: string) {
    Sorted(read) && forall r :: r in read <==> r in rows && r.sessionId == sessionId
  }

  lemma {:induction false} SortedUnique(a: seq<Row>, b: seq<Row>)
    requires Sorted(a) && Sorted(b) && forall r :: r in a <==> r in b
    ensures a == b
  {
    assert |a| > 0 ==> a[0] in b;
    assert |b| > 0 ==> b[0] in a;
    if a != [] && b != [] {
      FirstIsLeast(a, b[0]);
      FirstIsLeast(b, a[0]);
      BeforeOrder(KeyOf(a[0]), KeyOf(b[0]), KeyOf(a[0]));
      assert a == [a[0]] + a[1..] && b == [b[0]] + b[1..];
      FirstOnce(a);
      FirstOnce(b);
      forall r ensures r in a[1..] <==> r in b[1..] {
        assert r in a <==> r in b;
      }
      SortedUnique(a[1..], b[1..]);
    }
  }

  lemma FirstIsLeast(a: seq<Row>, r: Row)
    requires Sorted(a) && r in a
    ensures r == a[0] || Before(KeyOf(a[0]), KeyOf(r))
  {
    var i :| 0 <= i < |a| && a[i] == r;
  }

  lemma FirstOnce(a: seq<Row>)
    requires Sorted(a) && a != []
    ensures a[0] !in a[1..]
  {
    BeforeOrder(KeyOf(a[0]), KeyOf(a[0]), KeyOf(a[0]));
  }

  /** The ordered read is the one list of exactly the session's rows in that order. */
  lemma ReadIsTheList(rows: seq<Row>, sessionId: string, read: seq<Row>)
    requires UniqueIds(rows)
    ensures Lists(read, rows, sessionId) <==> read == Read(rows, sessionId)
  {
    var all := Read(rows, sessionId);
    SessionMembers(rows, sessionId);
    OrderIsSorted(InSession(rows, sessionId));
    SameMembers(all, InSession(rows, sessionId));
    if Lists(read, rows, sessionId) { SortedUnique(read, all); }
  }

  /** The ordered read goes forward in time, and within an instant by the text of the id. */
  lemma ReadIsChronological(rows: seq<Row>, sessionId: string)
    requires UniqueIds(rows)
    ensures var read := Read(rows, sessionId);
      forall i, j :: 0 <= i < j < |read| ==>
        && read[i].createdAt <= read[j].createdAt
        && (read[i].createdAt == read[j].createdAt ==> exists k: nat :: LessAt(read[i].id, read[j].id, k))
  {
    var read := Read(rows, sessionId);
    SessionMembers(rows, sessionId);
    OrderIsSorted(InSession(rows, sessionId));
    forall i, j | 0 <= i < j < |read|
      ensures read[i].createdAt <= read[j].createdAt
      ensures read[i].createdAt == read[j].createdAt ==> exists k: nat :: LessAt(read[i].id, read[j].id, k)
    {
      assert Before(KeyOf(read[i]), KeyOf(read[j]));
      LexLessIff(read[i].id, read[j].id);
    }
  }

  predicate Chronological(events: seq<RawEvent>) {
    forall i, j :: 0 <= i < j < |events| ==> events[i].timestamp <= events[j].timestamp
  }

  lemma EventsAreChronological(rows: seq<Row>, sessionId: string)
    requires UniqueIds(rows)
    ensures Chronological(ToRawEvents(Read(rows, sessionId)))
  {
    ReadIsChronological(rows, sessionId);
  }

  lemma SameMembers(a: seq<Row>, b: seq<Row>)
    requires multiset(a) == multiset(b)
    ensures forall r :: r in a <==> r in b
  {
    forall r ensures r in a <==> r in b { assert r in a <==> r in multiset(a); assert r in b <==> r in multiset(b); }
  }

  // ---- Filters ----

  lemma SessionCons(r: Row, rows: seq<Row>, sessionId: string)
    ensures InSession([r] + rows, sessionId)
            == (if r.sessionId == sessionId then [r] else []) + InSession(rows, sessionId)
  {
    assert ([r] + rows)[1..] == rows;
  }

  lemma {:induction false} SessionAppend(a: seq<Row>, b: seq<Row>, sessionId: string)
    ensures InSession(a + b, sessionId) == InSession(a, sessionId) + InSession(b, sessionId)
  {
    if a == [] {
      assert a + b == b;
    } else {
      var first, rest := a[0], a[1..];
      assert a == [first] + rest && a + b == [first] + (rest + b);
      SessionCons(first, rest, sessionId);
      SessionCons(first, rest + b, sessionId);
      SessionAppend(rest, b, sessionId);
    }
  }

  lemma {:induction false} SessionMembers(rows: seq<Row>, sessionId: string)
    ensures forall r :: r in InSession(rows, sessionId) <==> r in rows && r.sessionId == sessionId
    ensures UniqueIds(rows) ==> UniqueIds(InSession(rows, sessionId))
  {
    if rows != [] { SessionMembers(rows[1..], sessionId); }
  }

  lemma AfterCons(r: Row, rows: seq<Row>, k: Key)
    ensures After([r] + rows, k) == (if Before(k, KeyOf(r)) then [r] else []) + After(rows, k)
  {
    assert ([r] + rows)[1..] == rows;
  }

  lemma InsertCons(r: Row, first: Row, rows: seq<Row>)
    ensures Insert(r, [first] + rows) ==
            if Before(KeyOf(r), KeyOf(first)) then [r, first] + rows else [first] + Insert(r, rows)
  {
    assert ([first] + rows)[1..] == rows;
    assert [r] + ([first] + rows) == [r, first] + rows;
  }

  lemma {:induction false} AfterInsert(r: Row, rows: seq<Row>, k: Key)
    requires Sorted(rows)
    ensures After(Insert(r, rows), k) == if Before(k, KeyOf(r)) then Insert(r, After(rows, k)) else After(rows, k)
  {
    if rows == [] {
      AfterCons(r, [], k);
    } else {
      var first, rest := rows[0], rows[1..];
      assert rows == [first] + rest;
      InsertCons(r, first, rest);
      AfterCons(first, rest, k);
      InsertCons(r, first, After(rest, k));
      BeforeOrder(k, KeyOf(r), KeyOf(first));
      BeforeOrder(KeyOf(r), k, KeyOf(first));
      if Before(KeyOf(r), KeyOf(first)) {
        AfterCons(r, rows, k);
      } else {
        AfterInsert(r, rest, k);
        AfterCons(first, Insert(r, rest), k);
        assert [] + After(rest, k) == After(rest, k) && [] + Insert(r, After(rest, k)) == Insert(r, After(rest, k));
      }
    }
  }

  lemma OrderCons(r: Row, rows: seq<Row>)
    ensures Order([r] + rows) == Insert(r, Order(rows))
  {
    assert ([r] + rows)[1..] == rows;
  }

  lemma {:induction false} AfterOrder(rows: seq<Row>, k: Key)
    requires UniqueIds(rows)
    ensures Order(After(rows, k)) == After(Order(rows), k)
  {
    if rows != [] {
      var first, rest := rows[0], rows[1..];
      AfterOrder(rest, k);
      OrderIsSorted(rest);
      AfterStep(first, rest, k);
      assert rows == [first] + rest;
    }
  }

  lemma AfterStep(first: Row, rest: seq<Row>, k: Key)
    requires Sorted(Order(rest)) && Order(After(rest, k)) == After(Order(rest), k)
    ensures Order(After([first] + rest, k)) == After(Order([first] + rest), k)
  {
    OrderCons(first, rest);
    AfterCons(first, rest, k);
    OrderCons(first, After(rest, k));
    AfterInsert(first, Order(rest), k);
    assert [] + After(rest, k) == After(rest, k);
  }

  /** In an ordered read, what lies after the i-th key is what follows the i-th row. */
  lemma {:induction false} AfterIsSuffix(rows: seq<Row>, i: nat)
    requires Sorted(rows) && i < |rows|
    ensures After(rows, KeyOf(rows[i])) == rows[i + 1..]
    decreases |rows|
  {
    var k := KeyOf(rows[i]);
    if i == 0 {
      BeforeOrder(k, k, k);
      AllAfter(rows[1..], k);
    } else {
      BeforeOrder(KeyOf(rows[0]), k, k);
      AfterIsSuffix(rows[1..], i - 1);
      assert rows[1..][i..] == rows[i + 1..];
    }
  }

  lemma {:induction false} AllAfter(rows: seq<Row>, k: Key)
    requires forall r :: r in rows ==> Before(k, KeyOf(r))
    ensures After(rows, k) == rows
  {
    if rows != [] {
      AllAfter(rows[1..], k);
      assert rows == [rows[0]] + rows[1..];
    }
  }

  /** The keyset query, cut by nothing: the plain read from just after the cursor on. */
  lemma PageQuery(rows: seq<Row>, sessionId: string, i: nat)
    requires UniqueIds(rows) && i < |Read(rows, sessionId)|
    ensures Order(After(InSession(rows, sessionId), KeyOf(Read(rows, sessionId)[i]))) == Read(rows, sessionId)[i + 1..]
  {
    SessionMembers(rows, sessionId);
    OrderIsSorted(InSession(rows, sessionId));
    AfterOrder(InSession(rows, sessionId), KeyOf(Read(rows, sessionId)[i]));
    AfterIsSuffix(Read(rows, sessionId), i);
  }

  function Flatten(batches: seq<seq<RawEvent>>): seq<RawEvent> {
    if batches == [] then [] else Flatten(batches[..|batches| - 1]) + batches[|batches| - 1]
  }

  // ---- Cloning ----

  /** The rows `cloneEvents` inserts for an ordered read. */
  function Clones(rows: seq<Row>, to: string, ids: seq<string>): seq<Row>
    requires |ids| >= |rows|
  {
    seq(|rows|, i requires 0 <= i < |rows| => rows[i].(id := ids[i], sessionId := to))
  }

  /** Ids that keep events of the same instant in order; UUIDv7 ids do, as they only grow. */
  predicate KeepOrder(rows: seq<Row>, ids: seq<string>)
    requires |ids| >= |rows|
  {
    forall i, j :: 0 <= i < j < |rows| && rows[i].createdAt == rows[j].createdAt ==> LexLess(ids[i], ids[j])
  }

  lemma {:induction false} AllInSession(rows: seq<Row>, sessionId: string)
    requires forall r :: r in rows ==> r.sessionId == sessionId
    ensures InSession(rows, sessionId) == rows
    ensures forall other :: other != sessionId ==> InSession(rows, other) == []
  {
    if rows != [] {
      AllInSession(rows[1..], sessionId);
      assert rows == [rows[0]] + rows[1..];
      forall other | other != sessionId ensures InSession(rows, other) == [] {
        assert InSession(rows[1..], other) == [];
      }
    }
  }

  lemma ClonesSortedIff(rows: seq<Row>, to: string, ids: seq<string>)
    requires Sorted(rows) && |ids| >= |rows|
    ensures Sorted(Clones(rows, to, ids)) <==> KeepOrder(rows, ids)
  {
    var clones := Clones(rows, to, ids);
    forall i, j | 0 <= i < j < |clones|
      ensures Before(KeyOf(clones[i]), KeyOf(clones[j])) <==>
              (rows[i].createdAt == rows[j].createdAt ==> LexLess(ids[i], ids[j]))
    {
      assert Before(KeyOf(rows[i]), KeyOf(rows[j]));
    }
  }

  lemma ReadAfterClone(rows: seq<Row>, clones: seq<Row>, to: string, s: string)
    requires forall r :: r in clones ==> r.sessionId == to
    ensures InSession(rows + clones, s) == InSession(rows, s) + (if s == to then clones else [])
  {
    SessionAppend(rows, clones, s);
    AllInSession(clones, to);
  }

  /** A clone into an empty session reads back as the source with the session id replaced, in
      the same order. */
  lemma CloneReadsLikeSource(rows: seq<Row>, from: string, to: string, ids: seq<string>)
    requires UniqueIds(rows) && InSession(rows, to) == []
    requires |ids| >= |Read(rows, from)| && KeepOrder(Read(rows, from), ids)
    ensures Read(rows + Clones(Read(rows, from), to, ids), to) == Clones(Read(rows, from), to, ids)
    ensures ToRawEvents(Read(rows + Clones(Read(rows, from), to, ids), to))
            == var read := Read(rows, from);
               seq(|read|, i requires 0 <= i < |read| => ToRawEvent(read[i]).(sessionId := to))
  {
    var source := Read(rows, from);
    var clones := Clones(source, to, ids);
    SessionMembers(rows, from);
    OrderIsSorted(InSession(rows, from));
    ClonesSortedIff(source, to, ids);
    OrderOfSorted(clones);
    ReadAfterClone(rows, clones, to, to);
    assert [] + clones == clones;
  }

  /** Rows of a clone come back in the order they were inserted exactly when the ids keep events of
      the same instant in order. */
  lemma CloneOrderIff(rows: seq<Row>, from: string, to: string, ids: seq<string>)
    requires InSession(rows, to) == [] && |ids| >= |Read(rows, from)|
    requires UniqueIds(rows + Clones(Read(rows, from), to, ids))
    ensures Read(rows + Clones(Read(rows, from), to, ids), to) == Clones(Read(rows, from), to, ids)
            <==> KeepOrder(Read(rows, from), ids)
  {
    var source := Read(rows, from);
    var clones := Clones(source, to, ids);
    UniqueParts(rows, clones);
    SessionMembers(rows, from);
    OrderIsSorted(InSession(rows, from));
    ClonesSortedIff(source, to, ids);
    ReadAfterClone(rows, clones, to, to);
    assert [] + clones == clones;
    OrderIsSorted(clones);
    if Sorted(clones) { OrderOfSorted(clones); }
  }

  lemma UniqueParts(a: seq<Row>, b: seq<Row>)
    requires UniqueIds(a + b)
    ensures UniqueIds(a) && UniqueIds(b)
  {
    assert forall i :: 0 <= i < |a| ==> (a + b)[i] == a[i];
    assert forall i :: 0 <= i < |b| ==> (a + b)[|a| + i] == b[i];
  }

  /** No other session reads differently. */
  lemma CloneTouchesNoOtherSession(rows: seq<Row>, from: string, to: string, ids: seq<string>, other: string)
    requires other != to && |ids| >= |Read(rows, from)|
    ensures Read(rows + Clones(Read(rows, from), to, ids), other) == Read(rows, other)
  {
    ReadAfterClone(rows, Clones(Read(rows, from), to, ids), to, other);
    assert InSession(rows, other) + [] == InSession(rows, other);
  }

  // ---- The store ----

  predicate MayInsert(rows: seq<Row>, more: seq<Row>) { UniqueIds(rows + more) }

  function Without(rows: seq<Row>, sessionId: string): seq<Row> {
    if rows == [] then []
    else (if rows[0].sessionId == sessionId then [] else [rows[0]]) + Without(rows[1..], sessionId)
  }

  lemma {:induction false} WithoutMembers(rows: seq<Row>, sessionId: string)
    ensures forall r :: r in Without(rows, sessionId) <==> r in rows && r.sessionId != sessionId
    ensures UniqueIds(rows) ==> UniqueIds(Without(rows, sessionId))
  {
    if rows != [] { WithoutMembers(rows[1..], sessionId); }
  }

  lemma {:induction false} WithoutSession(rows: seq<Row>, sessionId: string, s: string)
    ensures InSession(Without(rows, sessionId), s) == if s == sessionId then [] else InSession(rows, s)
  {
    if rows != [] {
      WithoutSession(rows[1..], sessionId, s);
      var rest := Without(rows[1..], sessionId);
      if rows[0].sessionId == sessionId {
        assert [] + rest == rest && [] + InSession(rows[1..], s) == InSession(rows[1..], s);
      } else {
        SessionCons(rows[0], rest, s);
      }
    }
  }

  lemma WithoutReads(rows: seq<Row>, sessionId: string)
    ensures forall r :: r in Without(rows, sessionId) <==> r in rows && r.sessionId != sessionId
    ensures UniqueIds(rows) ==> UniqueIds(Without(rows, sessionId))
    ensures forall s :: InSession(Without(rows, sessionId), s) == if s == sessionId then [] else InSession(rows, s)
  {
    WithoutMembers(rows, sessionId);
    forall s ensures InSession(Without(rows, sessionId), s) == if s == sessionId then [] else InSession(rows, s) {
      WithoutSession(rows, sessionId, s);
    }
  }

  // ---- An event appended is read back ----

  lemma {:induction false} InsertEvents(r: Row, rows: seq<Row>)
    ensures multiset(ToRawEvents(Insert(r, rows))) == multiset(ToRawEvents(rows)) + multiset{ToRawEvent(r)}
  {
    if rows == [] || Before(KeyOf(r), KeyOf(rows[0])) {
      assert ToRawEvents([r] + rows) == [ToRawEvent(r)] + ToRawEvents(rows);
    } else {
      InsertEvents(r, rows[1..]);
      assert ToRawEvents(rows) == [ToRawEvent(rows[0])] + ToRawEvents(rows[1..]);
      assert ToRawEvents([rows[0]] + Insert(r, rows[1..])) == [ToRawEvent(rows[0])] + ToRawEvents(Insert(r, rows[1..]));
    }
  }

  lemma {:induction false} OrderEvents(rows: seq<Row>)
    ensures multiset(ToRawEvents(Order(rows))) == multiset(ToRawEvents(rows))
  {
    if rows != [] {
      OrderEvents(rows[1..]);
      InsertEvents(rows[0], Order(rows[1..]));
      assert ToRawEvents(rows) == [ToRawEvent(rows[0])] + ToRawEvents(rows[1..]);
    }
  }

  /** The session of the event reads as before with the event itself among the others, every other session as
      before. */
  ghost predicate ReadsWith(before: seq<Row>, after: seq<Row>, event: RawEvent) {
    forall s ::
      multiset(ToRawEvents(Read(after, s)))
      == multiset(ToRawEvents(Read(before, s))) + (if s == event.sessionId then multiset{event} else multiset{})
  }

  lemma AppendReadsBack(rows: seq<Row>, event: RawEvent, id: string)
    ensures ReadsWith(rows, rows + [RowOf(event, id)], event)
  {
    forall s
      ensures multiset(ToRawEvents(Read(rows + [RowOf(event, id)], s)))
              == multiset(ToRawEvents(Read(rows, s))) + (if s == event.sessionId then multiset{event} else multiset{})
    {
      SessionReadsWith(rows, event, id, s);
    }
  }

  lemma SessionReadsWith(rows: seq<Row>, event: RawEvent, id: string, s: string)
    ensures multiset(ToRawEvents(Read(rows + [RowOf(event, id)], s)))
            == multiset(ToRawEvents(Read(rows, s))) + (if s == event.sessionId then multiset{event} else multiset{})
  {
    var row, before := RowOf(event, id), InSession(rows, s);
    SessionAppend(rows, [row], s);
    OrderEvents(before);
    if s == event.sessionId {
      assert InSession([row], s) == [row];
      OrderEvents(before + [row]);
      assert ToRawEvents(before + [row]) == ToRawEvents(before) + [event];
    } else {
      assert InSession([row], s) == [] && before + [] == before;
    }
  }

  /** Which clones can be inserted: their ids differ from each other and from those in the table. */
  lemma ClonesFitIff(rows: seq<Row>, read: seq<Row>, to: string, ids: seq<string>)
    requires UniqueIds(rows) && |ids| >= |read|
    ensures MayInsert(rows, Clones(read, to, ids)) <==>
              && (forall i, j :: 0 <= i < j < |read| ==> ids[i] != ids[j])
              && (forall i, r :: 0 <= i < |read| && r in rows ==> ids[i] != r.id)
  {
    var clones := Clones(read, to, ids);
    var all := rows + clones;
    assert forall i :: 0 <= i < |read| ==> all[|rows| + i].id == ids[i];
    assert forall i :: 0 <= i < |rows| ==> all[i] == rows[i];
    if MayInsert(rows, clones) {
      forall i, r | 0 <= i < |read| && r in rows ensures ids[i] != r.id {
        var k :| 0 <= k < |rows| && rows[k] == r;
        assert all[k].id != all[|rows| + i].id;
      }
      forall i, j | 0 <= i < j < |read| ensures ids[i] != ids[j] { assert all[|rows| + i].id != all[|rows| + j].id; }
    }
  }

  class RawEventStore {
    var rows: seq<Row>

    ghost predicate Valid()
      reads this
    {
      UniqueIds(rows)
    }

    constructor ()
      ensures Valid() && rows == []
    {
      rows := [];
    }

    /** `INSERT`: all rows or, if an id is taken, none. */
    method InsertAll(more: seq<Row>) returns (ok: bool)
      requires Valid()
      modifies this
      ensures Valid() && (ok <==> MayInsert(old(rows), more))
      ensures rows == if ok then old(rows) + more else old(rows)
    {
      ok := MayInsert(rows, more);
      if ok { rows := rows + more; }
    }

    /** `id` is the caller's id or the one drawn. */
    method Append(event: RawEvent, id: string) returns (r: Result<string>)
      requires Valid()
      modifies this
      ensures Valid() && (r.Ok? <==> forall x :: x in old(rows) ==> x.id != id)
      ensures r.Ok? ==> r.value == id && rows == old(rows) + [RowOf(event, id)]
      ensures r.Ok? ==> ReadsWith(old(rows), rows, event)
      ensures r.Err? ==> rows == old(rows)
    {
      AppendReadsBack(rows, event, id);
      var row := RowOf(event, id);
      var ok := InsertAll([row]);
      assert (old(rows) + [row])[|old(rows)|] == row;
      assert forall k :: 0 <= k < |old(rows)| ==> (old(rows) + [row])[k] == old(rows)[k] && old(rows)[k] in old(rows);
      return if ok then Ok(id) else Err("unique");
    }

    method GetEventsBySession(sessionId: string) returns (events: seq<RawEvent>)
      requires Valid()
      ensures forall read :: Lists(read, rows, sessionId) ==> events == ToRawEvents(read)
      ensures Lists(Read(rows, sessionId), rows, sessionId) && |events| == |Read(rows, sessionId)|
      ensures Chronological(events)
    {
      EventsAreChronological(rows, sessionId);
      events := ToRawEvents(Read(rows, sessionId));
      forall read { ReadIsTheList(rows, sessionId, read); }
    }

    /** `ids[i]` is the id given for row i, or drawn when the caller gives none. */
    method CloneEvents(from: string, to: string, ids: seq<string>) returns (r: Result<()>)
      requires Valid() && |ids| >= |Read(rows, from)|
      modifies this
      ensures Valid()
      ensures r.Ok? <==> from != to && MayInsert(old(rows), Clones(Read(old(rows), from), to, ids))
      ensures r.Ok? <==>
                && from != to
                && (forall i, j :: 0 <= i < j < |Read(old(rows), from)| ==> ids[i] != ids[j])
                && (forall i, x :: 0 <= i < |Read(old(rows), from)| && x in old(rows) ==> ids[i] != x.id)
      ensures rows == if r.Ok? then old(rows) + Clones(Read(old(rows), from), to, ids) else old(rows)
    {
      ClonesFitIff(rows, Read(rows, from), to, ids);
      if from == to { return Err("cloneEvents: source and destination sessionId must differ"); }
      var source := Read(rows, from);
      if |source| == 0 {
        assert rows + [] == rows;
        return Ok(());
      }
      var ok := InsertAll(Clones(source, to, ids));
      return if ok then Ok(()) else Err("unique");
    }

    method DeleteBySession(sessionId: string)
      requires Valid()
      modifies this
      ensures Valid() && rows == Without(old(rows), sessionId)
      ensures forall s :: InSession(rows, s) == if s == sessionId then [] else InSession(old(rows), s)
    {
      WithoutReads(rows, sessionId);
      rows := Without(rows, sessionId);
    }

    /** One keyset query: when the cursor is at the last of the first `done` rows of the ordered read, the
        next rows of it, as many as the batch size allows. */
    method Page(sessionId: string, cursor: Option<Key>, batchSize: nat, ghost done: nat) returns (page: seq<Row>)
      requires Valid() && done <= |Read(rows, sessionId)|
      requires cursor == if done == 0 then None else Some(KeyOf(Read(rows, sessionId)[done - 1]))
      ensures page == Limit(Read(rows, sessionId)[done..], batchSize)
    {
      NextRows(rows, sessionId, done);
      var cond := if cursor.None? then InSession(rows, sessionId) else After(InSession(rows, sessionId), cursor.value);
      page := Limit(Order(cond), batchSize);
    }

    /** For any batch size of at least 1 the batches are non-empty, at most that long, and together
        the plain ordered read; a batch size of 0 yields nothing at all. */
    method StreamBySession(sessionId: string, batchSize: nat) returns (batches: seq<seq<RawEvent>>)
      requires Valid()
      ensures batchSize >= 1 ==> Flatten(batches) == ToRawEvents(Read(rows, sessionId))
      ensures Chronological(Flatten(batches))
      ensures forall b :: b in batches ==> 1 <= |b| <= batchSize
      ensures forall i :: 0 <= i < |batches| - 1 ==> |batches[i]| == batchSize
      ensures batchSize == 0 ==> batches == []
    {
      batches := [];
      var cursor: Option<Key> := None;
      ghost var all, done := Read(rows, sessionId), 0;
      while true
        invariant Streamed(all, done, cursor, batches, batchSize)
        invariant batches != [] ==> |batches[|batches| - 1]| == batchSize
        decreases |all| - done
      {
        var page := NextPage(sessionId, cursor, batchSize, done, batches);
        if |page| == 0 { break; }
        cursor := Some(KeyOf(page[|page| - 1]));
        batches := batches + [ToRawEvents(page)];
        done := done + |page|;
        if |page| < batchSize { break; }
      }
      StreamEnds(all, done, cursor, batches, batchSize);
      EventsAreChronological(rows, sessionId);
    }

    /** The query of one turn, and what yielding its rows comes to. */
    method NextPage(sessionId: string, cursor: Option<Key>, batchSize: nat, ghost done: nat,
                    ghost batches: seq<seq<RawEvent>>)
      returns (page: seq<Row>)
      requires Valid() && Streamed(Read(rows, sessionId), done, cursor, batches, batchSize)
      requires batches != [] ==> |batches[|batches| - 1]| == batchSize
      ensures |page| < batchSize ==> done + |page| == |Read(rows, sessionId)|
      ensures page != [] ==>
                Streamed(Read(rows, sessionId), done + |page|, Some(KeyOf(page[|page| - 1])),
                         batches + [ToRawEvents(page)], batchSize)
    {
      page := Page(sessionId, cursor, batchSize, done);
      if |page| < batchSize { LastPage(Read(rows, sessionId), done, batchSize); }
      assert forall i :: 0 <= i < |batches| ==> |batches[i]| == batchSize;
      if page != [] { OnePageMore(Read(rows, sessionId), done, batches, batchSize, page); }
    }
  }

  /** `done` rows have been yielded, and the cursor is at the last of them. */
  ghost predicate Streamed(all: seq<Row>, done: nat, cursor: Option<Key>, batches: seq<seq<RawEvent>>, batchSize: nat) {
    && done <= |all| && Flatten(batches) == ToRawEvents(all[..done])
    && cursor == (if done == 0 then None else Some(KeyOf(all[done - 1])))
    && (forall b :: b in batches ==> 1 <= |b| <= batchSize)
    && (forall i :: 0 <= i < |batches| - 1 ==> |batches[i]| == batchSize)
  }

  function Limit(rows: seq<Row>, n: nat): seq<Row> { if |rows| <= n then rows else rows[..n] }

  /** What the query after `done` rows selects from. */
  lemma NextRows(rows: seq<Row>, sessionId: string, done: nat)
    requires UniqueIds(rows) && done <= |Read(rows, sessionId)|
    ensures done == 0 ==> Read(rows, sessionId)[done..] == Read(rows, sessionId)
    ensures done > 0 ==>
              Order(After(InSession(rows, sessionId), KeyOf(Read(rows, sessionId)[done - 1]))) ==
                  Read(rows, sessionId)[done..]
  {
    if done > 0 { PageQuery(rows, sessionId, done - 1); }
  }

  lemma LastPage(all: seq<Row>, done: nat, batchSize: nat)
    requires done <= |all| && |Limit(all[done..], batchSize)| < batchSize
    ensures done + |Limit(all[done..], batchSize)| == |all|
  {}

  /** What has been yielded by the end. */
  lemma StreamEnds(all: seq<Row>, done: nat, cursor: Option<Key>, batches: seq<seq<RawEvent>>, batchSize: nat)
    requires Streamed(all, done, cursor, batches, batchSize) && (batchSize >= 1 ==> done == |all|)
    ensures batchSize >= 1 ==> Flatten(batches) == ToRawEvents(all)
    ensures forall b :: b in batches ==> 1 <= |b| <= batchSize
    ensures batchSize == 0 ==> batches == []
  {
    assert all[..|all|] == all;
    assert batches != [] ==> batches[0] in batches;
  }

  lemma OnePageMore(all: seq<Row>, done: nat, batches: seq<seq<RawEvent>>, batchSize: nat, page: seq<Row>)
    requires done <= |all| && Flatten(batches) == ToRawEvents(all[..done])
    requires forall b :: b in batches ==> 1 <= |b| <= batchSize
    requires forall i :: 0 <= i < |batches| ==> |batches[i]| == batchSize
    requires page != [] && page == Limit(all[done..], batchSize)
    ensures Streamed(all, done + |page|, Some(KeyOf(page[|page| - 1])), batches + [ToRawEvents(page)], batchSize)
  {
    assert (batches + [ToRawEvents(page)])[..|batches|] == batches;
    assert page == all[done..done + |page|];
    assert all[..done + |page|] == all[..done] + page;
  }
}
