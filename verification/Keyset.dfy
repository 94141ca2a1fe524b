// Keyset pagination over a product table that keeps changing: sort orders that mix
// directions, the cursor condition compiled into SQL, one page, and a whole traversal.
module Keyset {
  import opened Prelude

  datatype Sort = Featured | ByName | Newest | Updated | Relevance | Unknown

  datatype Column = IsFeatured | Name | CreatedAt | UpdatedAt | Rank | Id

  datatype SortKey = SortKey(column: Column, desc: bool)

  // The columns a listing sorts by. Each takes its values in a total order; a name
  // stands for its place in the database's collation.
  datatype Row = Row(id: nat, featured: bool, name: real, createdAt: real, updatedAt: real, rank: real)

  function FlagValue(b: bool): real {
    if b then 1.0 else 0.0
  }

  function Value(r: Row, c: Column): real {
    match c
    case IsFeatured => FlagValue(r.featured)
    case Name => r.name
    case CreatedAt => r.createdAt
    case UpdatedAt => r.updatedAt
    case Rank => r.rank
    case Id => r.id as real
  }

  function SortKeys(sort: Sort, hasQuery: bool): (keys: Option<seq<SortKey>>)
    ensures keys.Some? ==> Unique(keys.value)
    ensures keys.None? <==> sort == Unknown || (sort == Relevance && !hasQuery)
  {
    match sort
    case Featured => Some([SortKey(IsFeatured, true), SortKey(Name, false), SortKey(Id, false)])
    case ByName => Some([SortKey(Name, false), SortKey(Id, false)])
    case Newest => Some([SortKey(CreatedAt, true), SortKey(Id, true)])
    case Updated => Some([SortKey(UpdatedAt, true), SortKey(Id, true)])
    case Relevance => if hasQuery then Some([SortKey(Rank, true), SortKey(Id, false)]) else None
    case Unknown => None
  }

  // The last key is the row's id, so no two rows tie.
  predicate Unique(keys: seq<SortKey>) {
    keys != [] && keys[|keys| - 1].column == Id
  }

  function KeyValues(keys: seq<SortKey>, r: Row): (vals: seq<real>)
    ensures |vals| == |keys| && forall i :: 0 <= i < |keys| ==> vals[i] == Value(r, keys[i].column)
  {
    seq(|keys|, i requires 0 <= i < |keys| => Value(r, keys[i].column))
  }

  // ---- the order -----------------------------------------------------------------------

  predicate Beyond(k: SortKey, a: real, b: real) {
    if k.desc then b < a else a < b
  }

  // b comes strictly after a: lexicographic, each key in its own direction.
  predicate Later(keys: seq<SortKey>, a: seq<real>, b: seq<real>)
    requires |a| == |b| == |keys|
  {
    keys != [] && (Beyond(keys[0], a[0], b[0]) || (a[0] == b[0] && Later(keys[1..], a[1..], b[1..])))
  }

  predicate RowAfter(keys: seq<SortKey>, a: Row, b: Row) {
    Later(keys, KeyValues(keys, a), KeyValues(keys, b))
  }

  // a stands before b in the order asked for, in the rows' own terms: featured products
  // first and then by name; by name; the newest or the last updated first; the most
  // relevant first. Ids settle ties.
  ghost predicate Precedes(sort: Sort, a: Row, b: Row) {
    match sort
    case Featured =>
      || (a.featured && !b.featured)
      || (a.featured == b.featured && (a.name < b.name || (a.name == b.name && a.id < b.id)))
    case ByName => a.name < b.name || (a.name == b.name && a.id < b.id)
    case Newest => a.createdAt > b.createdAt || (a.createdAt == b.createdAt && a.id > b.id)
    case Updated => a.updatedAt > b.updatedAt || (a.updatedAt == b.updatedAt && a.id > b.id)
    case Relevance => a.rank > b.rank || (a.rank == b.rank && a.id < b.id)
    case Unknown => false
  }

  lemma LaterOfOne(keys: seq<SortKey>, a: seq<real>, b: seq<real>)
    requires |a| == |b| == |keys| == 1
    ensures Later(keys, a, b) <==> Beyond(keys[0], a[0], b[0])
  {
    assert keys[1..] == [];
  }

  lemma LaterOfTwo(keys: seq<SortKey>, a: seq<real>, b: seq<real>)
    requires |a| == |b| == |keys| == 2
    ensures Later(keys, a, b) <==> Beyond(keys[0], a[0], b[0]) || (a[0] == b[0] && Beyond(keys[1], a[1], b[1]))
  {
    LaterOfOne(keys[1..], a[1..], b[1..]);
  }

  lemma LaterOfThree(keys: seq<SortKey>, a: seq<real>, b: seq<real>)
    requires |a| == |b| == |keys| == 3
    ensures Later(keys, a, b) <==>
      (Beyond(keys[0], a[0], b[0]) ||
       (a[0] == b[0] && (Beyond(keys[1], a[1], b[1]) || (a[1] == b[1] && Beyond(keys[2], a[2], b[2])))))
  {
    LaterOfTwo(keys[1..], a[1..], b[1..]);
  }

  // The keys of an order sort rows as the order says.
  lemma SortMeaning(sort: Sort, hasQuery: bool, a: Row, b: Row)
    requires SortKeys(sort, hasQuery).Some?
    ensures RowAfter(SortKeys(sort, hasQuery).value, a, b) <==> Precedes(sort, a, b)
  {
    var keys := SortKeys(sort, hasQuery).value;
    if sort == Featured {
      LaterOfThree(keys, KeyValues(keys, a), KeyValues(keys, b));
    } else {
      LaterOfTwo(keys, KeyValues(keys, a), KeyValues(keys, b));
    }
  }

  lemma {:induction false} LaterIrreflexive(keys: seq<SortKey>, a: seq<real>)
    requires |a| == |keys|
    ensures !Later(keys, a, a)
  {
    if keys != [] {
      LaterIrreflexive(keys[1..], a[1..]);
    }
  }

  lemma {:induction false} LaterTransitive(keys: seq<SortKey>, a: seq<real>, b: seq<real>, c: seq<real>)
    requires |a| == |b| == |c| == |keys| && Later(keys, a, b) && Later(keys, b, c)
    ensures Later(keys, a, c)
  {
    if a[0] == b[0] && b[0] == c[0] {
      LaterTransitive(keys[1..], a[1..], b[1..], c[1..]);
    }
  }

  lemma {:induction false} LaterTotal(keys: seq<SortKey>, a: seq<real>, b: seq<real>)
    requires |a| == |b| == |keys| && a != b
    ensures Later(keys, a, b) || Later(keys, b, a)
  {
    if a[0] == b[0] {
      assert a == [a[0]] + a[1..] && b == [b[0]] + b[1..];
      LaterTotal(keys[1..], a[1..], b[1..]);
    }
  }

  lemma RowsOrdered(keys: seq<SortKey>, a: Row, b: Row)
    requires Unique(keys) && a.id != b.id
    ensures RowAfter(keys, a, b) != RowAfter(keys, b, a)
  {
    var n := |keys| - 1;
    assert KeyValues(keys, a)[n] != KeyValues(keys, b)[n];
    LaterTotal(keys, KeyValues(keys, a), KeyValues(keys, b));
    if RowAfter(keys, a, b) && RowAfter(keys, b, a) {
      LaterTransitive(keys, KeyValues(keys, a), KeyValues(keys, b), KeyValues(keys, a));
      LaterIrreflexive(keys, KeyValues(keys, a));
    }
  }

  // ---- the cursor condition ---------------------------------------------------------------

  datatype Op = Equal | Greater | Less

  // column op $arg
  datatype Atom = Atom(column: Column, op: Op, arg: nat)

  predicate AtomHolds(t: Atom, args: seq<real>, r: Row) {
    t.arg < |args| &&
    match t.op
    case Equal => Value(r, t.column) == args[t.arg]
    case Greater => Value(r, t.column) > args[t.arg]
    case Less => Value(r, t.column) < args[t.arg]
  }

  predicate AllHold(ands: seq<Atom>, args: seq<real>, r: Row) {
    forall k :: 0 <= k < |ands| ==> AtomHolds(ands[k], args, r)
  }

  // (a AND b) OR (c AND d) OR ...
  predicate AnyHolds(ors: seq<seq<Atom>>, args: seq<real>, r: Row) {
    exists i :: 0 <= i < |ors| && AllHold(ors[i], args, r)
  }

  // A statement's arguments, numbered in the order they were added.
  class QueryBuilder {
    var args: seq<real>

    constructor ()
      ensures args == []
    {
      args := [];
    }

    method Arg(v: real) returns (placeholder: nat)
      modifies this
      ensures args == old(args) + [v] && placeholder == |old(args)|
    {
      placeholder := |args|;
      args := args + [v];
    }
  }

  // The i-th alternative: earlier keys equal the cursor's, key i is beyond it.
  predicate Alternative(keys: seq<SortKey>, vals: seq<real>, i: nat, ands: seq<Atom>, args: seq<real>)
    requires i < |keys| == |vals|
  {
    && |ands| == i + 1
    && (forall k :: 0 <= k < |ands| ==>
      ands[k].arg < |args| && args[ands[k].arg] == vals[k] && ands[k].column == keys[k].column)
    && (forall k :: 0 <= k < i ==> ands[k].op == Equal)
    && ands[i].op == if keys[i].desc then Less else Greater
  }

  predicate FirstBeyondAt(keys: seq<SortKey>, a: seq<real>, b: seq<real>, i: nat)
    requires |a| == |b| == |keys| && i < |keys|
  {
    (forall k :: 0 <= k < i ==> a[k] == b[k]) && Beyond(keys[i], a[i], b[i])
  }

  lemma {:induction false} LaterAtSomeKey(keys: seq<SortKey>, a: seq<real>, b: seq<real>)
    requires |a| == |b| == |keys|
    ensures Later(keys, a, b) <==> exists i :: 0 <= i < |keys| && FirstBeyondAt(keys, a, b, i)
  {
    if keys != [] {
      LaterAtSomeKey(keys[1..], a[1..], b[1..]);
      if Beyond(keys[0], a[0], b[0]) {
        assert FirstBeyondAt(keys, a, b, 0);
      } else if a[0] == b[0] && Later(keys[1..], a[1..], b[1..]) {
        var i :| 0 <= i < |keys[1..]| && FirstBeyondAt(keys[1..], a[1..], b[1..], i);
        assert FirstBeyondAt(keys, a, b, i + 1);
      }
      forall i | 0 <= i < |keys| && FirstBeyondAt(keys, a, b, i)
        ensures Later(keys, a, b)
      {
        assert i > 0 ==> FirstBeyondAt(keys[1..], a[1..], b[1..], i - 1);
      }
    }
  }

  lemma AlternativeHolds(keys: seq<SortKey>, vals: seq<real>, i: nat, ands: seq<Atom>, args: seq<real>, r: Row)
    requires i < |keys| == |vals| && Alternative(keys, vals, i, ands, args)
    ensures AllHold(ands, args, r) <==> FirstBeyondAt(keys, vals, KeyValues(keys, r), i)
  {
  }

  lemma {:induction false} ConditionMeaning(keys: seq<SortKey>, vals: seq<real>, ors: seq<seq<Atom>>, args: seq<real>,
                                            r: Row)
    requires |vals| == |keys| == |ors| && forall i :: 0 <= i < |keys| ==> Alternative(keys, vals, i, ors[i], args)
    ensures AnyHolds(ors, args, r) <==> Later(keys, vals, KeyValues(keys, r))
  {
    LaterAtSomeKey(keys, vals, KeyValues(keys, r));
    forall i | 0 <= i < |keys|
      ensures AllHold(ors[i], args, r) <==> FirstBeyondAt(keys, vals, KeyValues(keys, r), i)
    {
      AlternativeHolds(keys, vals, i, ors[i], args, r);
    }
    if AnyHolds(ors, args, r) {
      var i :| 0 <= i < |ors| && AllHold(ors[i], args, r);
      assert FirstBeyondAt(keys, vals, KeyValues(keys, r), i);
    }
    if Later(keys, vals, KeyValues(keys, r)) {
      var i :| 0 <= i < |keys| && FirstBeyondAt(keys, vals, KeyValues(keys, r), i);
      assert AllHold(ors[i], args, r);
    }
  }

  // Arguments already in place stay there.
  method AfterCursor(b: QueryBuilder, keys: seq<SortKey>, vals: seq<real>) returns (ors: seq<seq<Atom>>)
    requires |vals| == |keys|
    modifies b
    ensures old(b.args) <= b.args
    ensures forall r :: AnyHolds(ors, b.args, r) <==> Later(keys, vals, KeyValues(keys, r))
  {
    ors := [];
    for i := 0 to |keys|
      invariant old(b.args) <= b.args && |ors| == i
      invariant forall k :: 0 <= k < i ==> Alternative(keys, vals, k, ors[k], b.args)
    {
      var ands: seq<Atom> := [];
      for j := 0 to i
        invariant old(b.args) <= b.args && |ands| == j && |ors| == i
        invariant forall k :: 0 <= k < i ==> Alternative(keys, vals, k, ors[k], b.args)
        invariant forall k :: 0 <= k < j ==>
          ands[k].arg < |b.args| && b.args[ands[k].arg] == vals[k] && ands[k].column == keys[k].column &&
            ands[k].op == Equal
      {
        var p := b.Arg(vals[j]);
        ands := ands + [Atom(keys[j].column, Equal, p)];
      }
      var op := if keys[i].desc then Less else Greater;
      var p := b.Arg(vals[i]);
      ands := ands + [Atom(keys[i].column, op, p)];
      ors := ors + [ands];
    }
    forall r
      ensures AnyHolds(ors, b.args, r) <==> Later(keys, vals, KeyValues(keys, r))
    {
      ConditionMeaning(keys, vals, ors, b.args, r);
    }
  }

  // ---- cursors ------------------------------------------------------------------------------

  datatype Cursor = Cursor(sort: Sort, featured: Option<bool>, name: Option<real>, at: Option<real>, rank: Option<real>,
    id: nat)

  function CursorValues(c: Cursor): Option<seq<real>> {
    match c.sort
    case Featured =>
      if c.featured.Some? && c.name.Some? then Some([FlagValue(c.featured.value), c.name.value, c.id as real]) else None
    case ByName => if c.name.Some? then Some([c.name.value, c.id as real]) else None
    case Newest => if c.at.Some? then Some([c.at.value, c.id as real]) else None
    case Updated => if c.at.Some? then Some([c.at.value, c.id as real]) else None
    case Relevance => if c.rank.Some? then Some([c.rank.value, c.id as real]) else None
    case Unknown => None
  }

  function CursorFor(sort: Sort, last: Row): Cursor {
    var c := Cursor(sort, None, None, None, None, last.id);
    match sort
    case Featured => c.(featured := Some(last.featured), name := Some(last.name))
    case ByName => c.(name := Some(last.name))
    case Newest => c.(at := Some(last.createdAt))
    case Updated => c.(at := Some(last.updatedAt))
    case Relevance => c.(rank := Some(last.rank))
    case Unknown => c
  }

  // A cursor carries exactly its row's place in the order.
  lemma CursorMarksItsRow(sort: Sort, hasQuery: bool, r: Row)
    requires SortKeys(sort, hasQuery).Some?
    ensures CursorValues(CursorFor(sort, r)) == Some(KeyValues(SortKeys(sort, hasQuery).value, r))
  {
    var keys := SortKeys(sort, hasQuery).value;
    var vals := KeyValues(keys, r);
    match sort
    case Featured => assert vals == [FlagValue(r.featured), r.name, r.id as real];
    case ByName => assert vals == [r.name, r.id as real];
    case Newest => assert vals == [r.createdAt, r.id as real];
    case Updated => assert vals == [r.updatedAt, r.id as real];
    case Relevance => assert vals == [r.rank, r.id as real];
  }

  // ---- one page --------------------------------------------------------------------------------

  ghost predicate Table(t: set<Row>) {
    forall a, b :: a in t && b in t && a.id == b.id ==> a == b
  }

  ghost predicate Ascending(keys: seq<SortKey>, rows: seq<Row>) {
    forall i, j :: 0 <= i < j < |rows| ==> RowAfter(keys, rows[i], rows[j])
  }

  // The first n matching rows in the order of the keys.
  ghost predicate Answers(keys: seq<SortKey>, matching: set<Row>, n: nat, rows: seq<Row>) {
    && Ascending(keys, rows)
    && (forall r :: r in rows ==> r in matching)
    && |rows| <= n
    && (forall r, s :: r in matching && r !in rows && s in rows ==> RowAfter(keys, s, r))
    && (|rows| < n ==> forall r :: r in matching ==> r in rows)
  }

  method First(keys: seq<SortKey>, rows: set<Row>) returns (least: Row)
    requires rows != {} && Unique(keys) && Table(rows)
    ensures least in rows && forall r :: r in rows && r != least ==> RowAfter(keys, least, r)
  {
    var todo := rows;
    least :| least in todo;
    todo := todo - {least};
    while todo != {}
      invariant todo <= rows && least in rows && least !in todo
      invariant forall r :: r in rows && r !in todo && r != least ==> RowAfter(keys, least, r)
    {
      var r :| r in todo;
      todo := todo - {r};
      RowsOrdered(keys, least, r);
      if RowAfter(keys, r, least) {
        forall s | s in rows && s !in todo && s != r && s != least
          ensures RowAfter(keys, r, s)
        {
          LaterTransitive(keys, KeyValues(keys, r), KeyValues(keys, least), KeyValues(keys, s));
        }
        least := r;
      }
    }
  }

  method Select(keys: seq<SortKey>, matching: set<Row>, n: nat) returns (rows: seq<Row>)
    requires Unique(keys) && Table(matching)
    ensures Answers(keys, matching, n, rows)
  {
    rows := [];
    var rest := matching;
    while |rows| < n && rest != {}
      invariant |rows| <= n && rest == matching - (set r | r in rows)
      invariant Ascending(keys, rows) && forall r :: r in rows ==> r in matching
      invariant forall r, s :: r in rest && s in rows ==> RowAfter(keys, s, r)
      decreases n - |rows|
    {
      var least := First(keys, rest);
      ghost var before := rows;
      rows := rows + [least];
      assert (set r | r in rows) == (set r | r in before) + {least};
      rest := rest - {least};
    }
    forall r | r in matching && r !in rows
      ensures |rows| == n
    {
      assert r in rest;
    }
  }

  datatype Page = Page(items: seq<Row>, next: Option<Cursor>)

  // The rows of t that come after the cursor, or all of them without one.
  ghost function Remaining(keys: seq<SortKey>, t: set<Row>, from: Option<seq<real>>): set<Row>
    requires from.Some? ==> |from.value| == |keys|
  {
    set r | r in t && (from.None? || Later(keys, from.value, KeyValues(keys, r)))
  }

  // The first rows after the cursor, at most limit of them, and a cursor for the last one
  // exactly when more rows follow.
  ghost predicate IsPage(sort: Sort, keys: seq<SortKey>, t: set<Row>, from: Option<seq<real>>, limit: nat, page: Page)
    requires from.Some? ==> |from.value| == |keys|
  {
    && Answers(keys, Remaining(keys, t, from), limit, page.items)
    && (page.next.Some? <==> exists r :: r in Remaining(keys, t, from) && r !in page.items)
    && (page.next.Some? ==>
      |page.items| == limit && limit > 0 && page.next.value == CursorFor(sort, page.items[limit - 1]))
  }

  // A cursor is refused when it was cut for another order or lacks a value of this one.
  predicate CursorFits(sort: Sort, cursor: Option<Cursor>) {
    cursor.Some? ==> cursor.value.sort == sort && CursorValues(cursor.value).Some?
  }

  function From(cursor: Option<Cursor>): Option<seq<real>> {
    if cursor.Some? then CursorValues(cursor.value) else None
  }

  lemma CursorLength(sort: Sort, hasQuery: bool, cursor: Cursor)
    requires cursor.sort == sort && SortKeys(sort, hasQuery).Some? && CursorValues(cursor).Some?
    ensures |CursorValues(cursor).value| == |SortKeys(sort, hasQuery).value|
  {
  }

  // The cursor has the values its order needs.
  ghost predicate Complete(c: Cursor) {
    match c.sort
    case Featured => c.featured.Some? && c.name.Some?
    case ByName => c.name.Some?
    case Newest => c.at.Some?
    case Updated => c.at.Some?
    case Relevance => c.rank.Some?
    case Unknown => false
  }

  // A row with the values a cursor carries.
  ghost function Marked(c: Cursor): Row {
    Row(c.id, c.featured == Some(true), if c.name.Some? then c.name.value else 0.0,
        if c.at.Some? then c.at.value else 0.0, if c.at.Some? then c.at.value else 0.0,
        if c.rank.Some? then c.rank.value else 0.0)
  }

  ghost predicate Past(cursor: Option<Cursor>, r: Row) {
    cursor.None? || Precedes(cursor.value.sort, Marked(cursor.value), r)
  }

  // The page holds, in the order asked for, the first rows past the cursor, at most limit of
  // them; it has a cursor for its last row exactly when it leaves some out.
  ghost predicate PageMeans(sort: Sort, t: set<Row>, cursor: Option<Cursor>, limit: nat, page: Page) {
    && (forall i, j :: 0 <= i < j < |page.items| ==> Precedes(sort, page.items[i], page.items[j]))
    && (forall r :: r in page.items ==> r in t && Past(cursor, r))
    && |page.items| <= limit
    && (forall r, s :: r in t && Past(cursor, r) && r !in page.items && s in page.items ==> Precedes(sort, s, r))
    && (page.next.Some? <==> exists r :: r in t && Past(cursor, r) && r !in page.items)
    && (page.next.Some? ==> |page.items| == limit && limit > 0 && Marks(sort, page.next.value, page.items[limit - 1]))
  }

  // The cursor stands where the row does, for every row that may follow.
  ghost predicate Marks(sort: Sort, c: Cursor, r: Row) {
    && c.sort == sort && c.id == r.id && Complete(c)
    && forall s :: Precedes(sort, Marked(c), s) <==> Precedes(sort, r, s)
  }

  lemma CompleteMeans(sort: Sort, hasQuery: bool, c: Cursor)
    requires c.sort == sort && SortKeys(sort, hasQuery).Some?
    ensures Complete(c) <==> CursorValues(c).Some?
    ensures Complete(c) ==> CursorValues(c).value == KeyValues(SortKeys(sort, hasQuery).value, Marked(c))
  {
  }

  lemma PastMeans(sort: Sort, hasQuery: bool, t: set<Row>, cursor: Option<Cursor>, r: Row)
    requires SortKeys(sort, hasQuery).Some? && CursorFits(sort, cursor)
    requires From(cursor).Some? ==> |From(cursor).value| == |SortKeys(sort, hasQuery).value|
    ensures r in Remaining(SortKeys(sort, hasQuery).value, t, From(cursor)) <==> r in t && Past(cursor, r)
  {
    if cursor.Some? {
      CompleteMeans(sort, hasQuery, cursor.value);
      SortMeaning(sort, hasQuery, Marked(cursor.value), r);
    }
  }

  lemma CursorMarks(sort: Sort, hasQuery: bool, r: Row)
    requires SortKeys(sort, hasQuery).Some?
    ensures Marks(sort, CursorFor(sort, r), r)
  {
  }

  lemma PageIsMeant(sort: Sort, hasQuery: bool, t: set<Row>, cursor: Option<Cursor>, limit: nat, page: Page)
    requires SortKeys(sort, hasQuery).Some? && CursorFits(sort, cursor)
    requires From(cursor).Some? ==> |From(cursor).value| == |SortKeys(sort, hasQuery).value|
    requires IsPage(sort, SortKeys(sort, hasQuery).value, t, From(cursor), limit, page)
    ensures PageMeans(sort, t, cursor, limit, page)
  {
    forall a, b
      ensures RowAfter(SortKeys(sort, hasQuery).value, a, b) <==> Precedes(sort, a, b)
    {
      SortMeaning(sort, hasQuery, a, b);
    }
    forall r
      ensures r in Remaining(SortKeys(sort, hasQuery).value, t, From(cursor)) <==> r in t && Past(cursor, r)
    {
      PastMeans(sort, hasQuery, t, cursor, r);
    }
    if page.next.Some? {
      CursorMarks(sort, hasQuery, page.items[limit - 1]);
    }
  }

  // One row more than asked for tells whether another page follows; it is not shown.
  lemma ExtraRowTells(sort: Sort, keys: seq<SortKey>, t: set<Row>, from: Option<seq<real>>, limit: nat, rows: seq<Row>)
    requires limit > 0 && (from.Some? ==> |from.value| == |keys|) &&
      Answers(keys, Remaining(keys, t, from), limit + 1, rows)
    ensures IsPage(sort, keys, t, from, limit,
      if |rows| <= limit then Page(rows, None) else Page(rows[..limit], Some(CursorFor(sort, rows[limit - 1]))))
  {
    if |rows| > limit {
      var items := rows[..limit];
      assert rows[limit] in Remaining(keys, t, from);
      if rows[limit] in items {
        var i :| 0 <= i < limit && items[i] == rows[limit];
        assert RowAfter(keys, rows[i], rows[limit]);
        LaterIrreflexive(keys, KeyValues(keys, rows[limit]));
      }
      forall r, s | r in Remaining(keys, t, from) && r !in items && s in items
        ensures RowAfter(keys, s, r)
      {
        var i :| 0 <= i < limit && rows[i] == s;
        if r in rows {
          assert r == rows[limit];
        }
      }
    }
  }

  // The matching rows after the cursor, by the condition built for it.
  method RowsAfterCursor(t: set<Row>, keys: seq<SortKey>, vals: seq<real>) returns (matching: set<Row>)
    requires |vals| == |keys|
    ensures matching == Remaining(keys, t, Some(vals))
  {
    var b := new QueryBuilder();
    var extra := AfterCursor(b, keys, vals);
    matching := set p | p in t && AnyHolds(extra, b.args, p);
  }

  method ListProducts(t: set<Row>, hasQuery: bool, sort: Sort, cursor: Option<Cursor>, limit: nat)
    returns (r: Result<Page, string>)
    requires Table(t) && limit > 0
    ensures r.Ok? <==>
      && sort != Unknown && (sort == Relevance ==> hasQuery)
      && (cursor.Some? ==> cursor.value.sort == sort && Complete(cursor.value))
    ensures r.Ok? ==> PageMeans(sort, t, cursor, limit, r.value)
    ensures r.Ok? ==> SortKeys(sort, hasQuery).Some?
    ensures r.Ok? ==> From(cursor).Some? ==> |From(cursor).value| == |SortKeys(sort, hasQuery).value|
    ensures r.Ok? ==> IsPage(sort, SortKeys(sort, hasQuery).value, t, From(cursor), limit, r.value)
  {
    var sorted := SortKeys(sort, hasQuery);
    if sorted.None? {
      return Err("sort");
    }
    var keys := sorted.value;
    var matching := t;
    if cursor.Some? {
      if cursor.value.sort != sort {
        return Err("cursor is invalid or belongs to a different sort order");
      }
      CompleteMeans(sort, hasQuery, cursor.value);
      var vals := CursorValues(cursor.value);
      if vals.None? {
        return Err("cursor is invalid");
      }
      CursorLength(sort, hasQuery, cursor.value);
      matching := RowsAfterCursor(t, keys, vals.value);
    }
    assert matching == Remaining(keys, t, From(cursor));
    var rows := Select(keys, matching, limit + 1);
    ExtraRowTells(sort, keys, t, From(cursor), limit, rows);
    r := Ok(if |rows| <= limit then Page(rows, None) else Page(rows[..limit], Some(CursorFor(sort, rows[limit - 1]))));
    PageIsMeant(sort, hasQuery, t, cursor, limit, r.value);
  }

  // ---- a whole traversal ---------------------------------------------------------------------------

  // page answers, on table t, the cursor the page before it handed out.
  ghost predicate Continues(sort: Sort, keys: seq<SortKey>, limit: nat, t: set<Row>, before: Option<Page>, page: Page) {
    && Table(t)
    && (before.Some? ==> before.value.next.Some?)
    && var from := StartOf(before);
      (from.Some? ==> |from.value| == |keys|) && IsPage(sort, keys, t, from, limit, page)
  }

  function StartOf(before: Option<Page>): Option<seq<real>> {
    From(if before.None? then None else before.value.next)
  }

  function Before(pages: seq<Page>, i: nat): Option<Page>
    requires i <= |pages|
  {
    if i == 0 then None else Some(pages[i - 1])
  }

  // pages[i] was read from tables[i]; anything may have changed between two pages.
  ghost predicate Traversal(sort: Sort, keys: seq<SortKey>, limit: nat, tables: seq<set<Row>>, pages: seq<Page>) {
    if pages == [] then tables == []
    else
      var n := |pages| - 1;
      && |tables| == n + 1
      && Traversal(sort, keys, limit, tables[..n], pages[..n])
      && Continues(sort, keys, limit, tables[n], Before(pages, n), pages[n])
  }

  function Shown(pages: seq<Page>): seq<Row> {
    if pages == [] then [] else Shown(pages[..|pages| - 1]) + pages[|pages| - 1].items
  }

  // A page starts after the last row of the page before it.
  lemma StartsAfterPrevious(sort: Sort, hasQuery: bool, keys: seq<SortKey>, limit: nat, t: set<Row>,
                            before: Option<Page>, page: Page)
    requires SortKeys(sort, hasQuery) == Some(keys) && Continues(sort, keys, limit, t, before, page)
    ensures page.next.Some? ==> page.items != [] && StartOf(Some(page)) == Some(KeyValues(keys, Last(page.items)))
  {
    if page.next.Some? {
      CursorMarksItsRow(sort, hasQuery, Last(page.items));
    }
  }

  ghost predicate Follows(keys: seq<SortKey>, last: Row, rows: seq<Row>) {
    forall r :: r in rows ==> RowAfter(keys, last, r)
  }

  lemma AscendingConcat(keys: seq<SortKey>, a: seq<Row>, b: seq<Row>)
    requires Ascending(keys, a) && Ascending(keys, b) && a != [] && Follows(keys, a[|a| - 1], b)
    ensures Ascending(keys, a + b)
  {
    var last := a[|a| - 1];
    forall i, j | 0 <= i < j < |a + b|
      ensures RowAfter(keys, (a + b)[i], (a + b)[j])
    {
      if i < |a| <= j {
        assert (a + b)[j] in b;
        if i < |a| - 1 {
          LaterTransitive(keys, KeyValues(keys, a[i]), KeyValues(keys, last), KeyValues(keys, (a + b)[j]));
        }
      }
    }
  }

  lemma PageFollows(sort: Sort, hasQuery: bool, keys: seq<SortKey>, limit: nat, t: set<Row>, before: Option<Page>,
                    page: Page, shown: seq<Row>)
    requires SortKeys(sort, hasQuery) == Some(keys) && Continues(sort, keys, limit, t, before, page) &&
      Ascending(keys, shown)
    requires if before.None? then shown == [] else shown != [] && StartOf(before) == Some(KeyValues(keys, Last(shown)))
    ensures Ascending(keys, shown + page.items)
    ensures page.next.Some? ==>
      shown + page.items != [] && StartOf(Some(page)) == Some(KeyValues(keys, Last(shown + page.items)))
  {
    StartsAfterPrevious(sort, hasQuery, keys, limit, t, before, page);
    if before.None? {
      assert shown + page.items == page.items;
    } else {
      assert Follows(keys, Last(shown), page.items);
      AscendingConcat(keys, shown, page.items);
    }
  }

  // Pages never step back or repeat a place in the order, however the table changes.
  lemma {:induction false} PagesAscend(sort: Sort, hasQuery: bool, keys: seq<SortKey>, limit: nat,
                                       tables: seq<set<Row>>, pages: seq<Page>)
    requires SortKeys(sort, hasQuery) == Some(keys) && Traversal(sort, keys, limit, tables, pages)
    ensures Ascending(keys, Shown(pages))
    ensures pages != [] && pages[|pages| - 1].next.Some? ==>
      Shown(pages) != [] && StartOf(Some(pages[|pages| - 1])) == Some(KeyValues(keys, Last(Shown(pages))))
  {
    if pages != [] {
      var n := |pages| - 1;
      var before := Shown(pages[..n]);
      PagesAscend(sort, hasQuery, keys, limit, tables[..n], pages[..n]);
      assert n > 0 ==> pages[..n][n - 1] == pages[n - 1];
      PageFollows(sort, hasQuery, keys, limit, tables[n], Before(pages, n), pages[n], before);
    }
  }

  // The rows shown stand in the order asked for.
  lemma PagesInOrder(sort: Sort, hasQuery: bool, keys: seq<SortKey>, limit: nat, tables: seq<set<Row>>,
                     pages: seq<Page>)
    requires SortKeys(sort, hasQuery) == Some(keys) && Traversal(sort, keys, limit, tables, pages)
    ensures forall i, j :: 0 <= i < j < |Shown(pages)| ==> Precedes(sort, Shown(pages)[i], Shown(pages)[j])
  {
    PagesAscend(sort, hasQuery, keys, limit, tables, pages);
    forall i, j | 0 <= i < j < |Shown(pages)|
      ensures Precedes(sort, Shown(pages)[i], Shown(pages)[j])
    {
      SortMeaning(sort, hasQuery, Shown(pages)[i], Shown(pages)[j]);
    }
  }

  // A product that is there, with these sort values, in every table a page was read from.
  ghost predicate Throughout(keys: seq<SortKey>, tables: seq<set<Row>>, id: nat, vals: seq<real>) {
    forall i :: 0 <= i < |tables| ==> Here(keys, tables[i], id, vals)
  }

  ghost predicate Here(keys: seq<SortKey>, t: set<Row>, id: nat, vals: seq<real>) {
    exists r :: r in t && r.id == id && KeyValues(keys, r) == vals
  }

  ghost predicate ShownAt(rows: seq<Row>, id: nat, k: nat) {
    k < |rows| && rows[k].id == id
  }

  lemma ThroughoutPrefix(keys: seq<SortKey>, tables: seq<set<Row>>, id: nat, vals: seq<real>, n: nat)
    requires Throughout(keys, tables, id, vals) && n < |tables|
    ensures Throughout(keys, tables[..n], id, vals) && Here(keys, tables[n], id, vals)
  {
  }

  lemma PageUnchanged(sort: Sort, keys: seq<SortKey>, limit: nat, t: set<Row>, before: Option<Page>, page: Page,
                      id: nat, vals: seq<real>, r: Row)
    requires Continues(sort, keys, limit, t, before, page) && Here(keys, t, id, vals) && r in page.items && r.id == id
    ensures KeyValues(keys, r) == vals
  {
  }

  // Whatever is shown of the product carries those sort values.
  lemma {:induction false} ShownUnchanged(sort: Sort, keys: seq<SortKey>, limit: nat, tables: seq<set<Row>>,
                                          pages: seq<Page>, id: nat, vals: seq<real>)
    requires Traversal(sort, keys, limit, tables, pages) && Throughout(keys, tables, id, vals)
    ensures forall r :: r in Shown(pages) && r.id == id ==> KeyValues(keys, r) == vals
  {
    if pages != [] {
      var n := |pages| - 1;
      ThroughoutPrefix(keys, tables, id, vals, n);
      ShownUnchanged(sort, keys, limit, tables[..n], pages[..n], id, vals);
      forall r | r in pages[n].items && r.id == id
        ensures KeyValues(keys, r) == vals
      {
        PageUnchanged(sort, keys, limit, tables[n], Before(pages, n), pages[n], id, vals, r);
      }
    }
  }

  ghost predicate After(keys: seq<SortKey>, from: Option<seq<real>>, vals: seq<real>)
    requires |vals| == |keys|
  {
    from.Some? && |from.value| == |keys| && Later(keys, from.value, vals)
  }

  ghost predicate IsShown(rows: seq<Row>, id: nat) {
    exists r :: r in rows && r.id == id
  }

  lemma PageShowsOrPasses(sort: Sort, hasQuery: bool, keys: seq<SortKey>, limit: nat, t: set<Row>, before: Option<Page>,
                          page: Page, id: nat, vals: seq<real>)
    requires SortKeys(sort, hasQuery) == Some(keys) && Continues(sort, keys, limit, t, before, page)
    requires Here(keys, t, id, vals) && |vals| == |keys| && (before.None? || After(keys, StartOf(before), vals))
    ensures IsShown(page.items, id) || (page.next.Some? && After(keys, StartOf(Some(page)), vals))
  {
    StartsAfterPrevious(sort, hasQuery, keys, limit, t, before, page);
    var r :| r in t && r.id == id && KeyValues(keys, r) == vals;
    assert r in Remaining(keys, t, StartOf(before));
    if r !in page.items {
      assert Last(page.items) in page.items;
    }
  }

  // Either the product has been shown, or it comes after everything shown so far.
  lemma {:induction false} ShownOrStillAhead(sort: Sort, hasQuery: bool, keys: seq<SortKey>, limit: nat,
                                             tables: seq<set<Row>>, pages: seq<Page>, id: nat, vals: seq<real>)
    requires SortKeys(sort, hasQuery) == Some(keys) && Traversal(sort, keys, limit, tables, pages) && pages != []
    requires Throughout(keys, tables, id, vals) && |vals| == |keys|
    ensures IsShown(Shown(pages), id) ||
      (pages[|pages| - 1].next.Some? && After(keys, StartOf(Some(pages[|pages| - 1])), vals))
  {
    var n := |pages| - 1;
    ThroughoutPrefix(keys, tables, id, vals, n);
    if n > 0 {
      assert pages[..n][n - 1] == pages[n - 1];
      ShownOrStillAhead(sort, hasQuery, keys, limit, tables[..n], pages[..n], id, vals);
    }
    if n > 0 && IsShown(Shown(pages[..n]), id) {
      var r :| r in Shown(pages[..n]) && r.id == id;
      assert r in Shown(pages);
    } else {
      PageShowsOrPasses(sort, hasQuery, keys, limit, tables[n], Before(pages, n), pages[n], id, vals);
      if IsShown(pages[n].items, id) {
        var r :| r in pages[n].items && r.id == id;
        assert r in Shown(pages);
      }
    }
  }

  lemma AscendingOnce(keys: seq<SortKey>, rows: seq<Row>, k: nat, l: nat)
    requires Ascending(keys, rows) && k < |rows| && l < |rows| && KeyValues(keys, rows[k]) == KeyValues(keys, rows[l])
    ensures k == l
  {
    assert k < l ==> RowAfter(keys, rows[k], rows[l]);
    assert l < k ==> RowAfter(keys, rows[l], rows[k]);
    LaterIrreflexive(keys, KeyValues(keys, rows[k]));
  }

  // A product present throughout, with unchanged sort values, is shown exactly once.
  lemma {:induction false} ShownExactlyOnce(sort: Sort, hasQuery: bool, keys: seq<SortKey>, limit: nat,
                                            tables: seq<set<Row>>, pages: seq<Page>, id: nat, vals: seq<real>)
    requires SortKeys(sort, hasQuery) == Some(keys) && Traversal(sort, keys, limit, tables, pages)
    requires pages != [] && pages[|pages| - 1].next.None?
    requires Throughout(keys, tables, id, vals) && |vals| == |keys|
    ensures exists k: nat :: ShownAt(Shown(pages), id, k) && forall l: nat :: ShownAt(Shown(pages), id, l) ==> l == k
  {
    ShownOrStillAhead(sort, hasQuery, keys, limit, tables, pages, id, vals);
    PagesAscend(sort, hasQuery, keys, limit, tables, pages);
    ShownUnchanged(sort, keys, limit, tables, pages, id, vals);
    var rows := Shown(pages);
    var r :| r in rows && r.id == id;
    var k: nat :| k < |rows| && rows[k] == r;
    assert ShownAt(rows, id, k);
    forall l: nat | ShownAt(rows, id, l)
      ensures l == k
    {
      AscendingOnce(keys, rows, k, l);
    }
  }

  // ---- a table that does not change ----------------------------------------------------------------

  lemma {:induction false} AscendingDistinct(keys: seq<SortKey>, rows: seq<Row>, t: set<Row>)
    requires Ascending(keys, rows) && forall r :: r in rows ==> r in t
    ensures |rows| <= |t|
  {
    if rows != [] {
      var n := |rows| - 1;
      var last := rows[n];
      if last in rows[..n] {
        var i :| 0 <= i < n && rows[i] == last;
        assert RowAfter(keys, rows[i], rows[n]);
        LaterIrreflexive(keys, KeyValues(keys, last));
      }
      AscendingDistinct(keys, rows[..n], t - {last});
    }
  }

  lemma {:induction false} FullPages(sort: Sort, keys: seq<SortKey>, limit: nat, t: set<Row>, tables: seq<set<Row>>,
                                     pages: seq<Page>)
    requires Traversal(sort, keys, limit, tables, pages) && forall i :: 0 <= i < |tables| ==> tables[i] == t
    requires forall i :: 0 <= i < |pages| ==> pages[i].next.Some?
    ensures |Shown(pages)| == |pages| * limit && forall r :: r in Shown(pages) ==> r in t
  {
    if pages != [] {
      var n := |pages| - 1;
      FullPages(sort, keys, limit, t, tables[..n], pages[..n]);
      assert tables[n] == t;
      assert |pages| * limit == n * limit + limit;
    }
  }

  // Pages that promise another one never outnumber the table's rows divided by the limit.
  lemma {:induction false} TraversalEnds(sort: Sort, hasQuery: bool, keys: seq<SortKey>, limit: nat, t: set<Row>,
                                         tables: seq<set<Row>>, pages: seq<Page>)
    requires SortKeys(sort, hasQuery) == Some(keys) && Traversal(sort, keys, limit, tables, pages)
    requires forall i :: 0 <= i < |tables| ==> tables[i] == t
    requires forall i :: 0 <= i < |pages| ==> pages[i].next.Some?
    ensures |pages| * limit <= |t|
  {
    FullPages(sort, keys, limit, t, tables, pages);
    PagesAscend(sort, hasQuery, keys, limit, tables, pages);
    AscendingDistinct(keys, Shown(pages), t);
  }
}
