// Attribute values as table rows: exploding values into rows, merging rows back into
// values whatever order they are read in, and the projection both sides agree on.
module Projection {
  import opened Prelude
  import opened JsonPath
  import opened Attributes

  // A row holds one value slot; a multi_enum value is one row per selected option.
  type Row = AttributeValue

  // The attributes bound to a category, by id.
  type Schema = map<Id, Attribute>

  ghost predicate SoundSchema(schema: Schema) {
    && (forall id :: id in schema ==> schema[id].id == id && SoundAttribute(schema[id]))
    && (forall a, b :: a in schema && b in schema && schema[a].key == schema[b].key ==> a == b)
  }

  // ---- rows --------------------------------------------------------------------

  function RowOf(v: AttributeValue, option: Id): Row {
    v.(optionIds := [option])
  }

  function Exploded(v: AttributeValue): (rows: seq<Row>)
    ensures v.optionIds == [] ==> rows == [v]
    ensures v.optionIds != [] ==> |rows| == |v.optionIds| && forall i :: 0 <= i < |rows| ==>
      rows[i] == RowOf(v, v.optionIds[i])
  {
    if v.optionIds == [] then [v]
    else seq(|v.optionIds|, i requires 0 <= i < |v.optionIds| => RowOf(v, v.optionIds[i]))
  }

  function ExplodedAll(values: seq<AttributeValue>): seq<Row> {
    if values == [] then []
    else ExplodedAll(values[..|values| - 1]) + Exploded(values[|values| - 1])
  }

  method InsertValues(values: seq<AttributeValue>) returns (rows: seq<Row>)
    ensures rows == ExplodedAll(values)
  {
    rows := [];
    for i := 0 to |values|
      invariant rows == ExplodedAll(values[..i])
    {
      assert values[..i + 1][..i] == values[..i];
      var v := values[i];
      if v.optionIds == [] {
        rows := rows + [v];
      } else {
        ghost var before := rows;
        for k := 0 to |v.optionIds|
          invariant rows == before + Exploded(v)[..k]
        {
          assert Exploded(v)[..k + 1] == Exploded(v)[..k] + [RowOf(v, v.optionIds[k])];
          rows := rows + [RowOf(v, v.optionIds[k])];
        }
      }
    }
    assert values[..|values|] == values;
  }

  // ---- what values and rows say, whatever their order ---------------------------

  datatype Key = Key(attr: Id, variant: Option<Id>)

  // A value with its options as a set, beside the value stripped of them.
  datatype Slot = Slot(base: AttributeValue, options: set<Id>)

  function KeyOf(v: AttributeValue): Key {
    Key(v.attr, v.variant)
  }

  function Bare(v: AttributeValue): AttributeValue {
    v.(optionIds := [])
  }

  function SlotOf(v: AttributeValue): Slot {
    Slot(Bare(v), SetOf(v.optionIds))
  }

  ghost predicate DistinctKeys(values: seq<AttributeValue>) {
    forall i, j :: 0 <= i < j < |values| ==> KeyOf(values[i]) != KeyOf(values[j])
  }

  function Reading(values: seq<AttributeValue>): map<Key, Slot> {
    if values == [] then map[]
    else
      var n := |values| - 1;
      Reading(values[..n])[KeyOf(values[n]) := SlotOf(values[n])]
  }

  // Rows with the same key must agree on everything but their option.
  ghost predicate Consistent(rows: set<Row>) {
    forall q, r :: q in rows && r in rows && KeyOf(q) == KeyOf(r) ==> Bare(q) == Bare(r)
  }

  function KeysOf(rows: set<Row>): set<Key> {
    set r | r in rows :: KeyOf(r)
  }

  function OptionsAt(rows: set<Row>, k: Key): set<Id> {
    set r, id | r in rows && KeyOf(r) == k && id in r.optionIds :: id
  }

  ghost function BaseAt(rows: set<Row>, k: Key): AttributeValue
    requires k in KeysOf(rows)
  {
    var r :| r in rows && KeyOf(r) == k;
    Bare(r)
  }

  // What a table's rows say, as a set: no reading order is involved.
  ghost function TableReading(rows: set<Row>): map<Key, Slot> {
    map k | k in KeysOf(rows) :: Slot(BaseAt(rows, k), OptionsAt(rows, k))
  }

  function WithRow(m: map<Key, Slot>, r: Row): map<Key, Slot> {
    var k := KeyOf(r);
    if k in m then m[k := m[k].(options := m[k].options + SetOf(r.optionIds))] else m[k := SlotOf(r)]
  }

  lemma OneMoreRow(rows: set<Row>, r: Row)
    requires Consistent(rows + {r})
    ensures TableReading(rows + {r}) == WithRow(TableReading(rows), r)
  {
    var all := rows + {r};
    assert KeysOf(all) == KeysOf(rows) + {KeyOf(r)};
    forall k | k in KeysOf(all)
      ensures TableReading(all)[k] == WithRow(TableReading(rows), r)[k]
    {
      assert r in all;
      if k == KeyOf(r) {
        assert OptionsAt(all, k) == OptionsAt(rows, k) + SetOf(r.optionIds);
      } else {
        assert OptionsAt(all, k) == OptionsAt(rows, k);
      }
      if k !in KeysOf(rows) {
        assert OptionsAt(rows, k) == {};
      }
    }
  }

  // ---- merging ------------------------------------------------------------------------

  function IndexOf(values: seq<AttributeValue>, k: Key): (i: Option<nat>)
    ensures i.Some? ==> i.value < |values| && KeyOf(values[i.value]) == k
    ensures i.None? ==> forall j :: 0 <= j < |values| ==> KeyOf(values[j]) != k
  {
    if values == [] then None
    else
      var n := |values| - 1;
      if KeyOf(values[n]) == k then Some(n) else IndexOf(values[..n], k)
  }

  function MergedInto(values: seq<AttributeValue>, r: Row): seq<AttributeValue> {
    match IndexOf(values, KeyOf(r))
    case None => values + [r]
    case Some(i) => values[i := values[i].(optionIds := values[i].optionIds + r.optionIds)]
  }

  function Merged(rows: seq<Row>): seq<AttributeValue> {
    if rows == [] then [] else MergedInto(Merged(rows[..|rows| - 1]), rows[|rows| - 1])
  }

  lemma {:induction false} MergedKeysDistinct(rows: seq<Row>)
    ensures DistinctKeys(Merged(rows))
  {
    if rows != [] {
      MergedKeysDistinct(rows[..|rows| - 1]);
    }
  }

  // index says where each key's value is.
  ghost predicate Indexed(index: map<Key, nat>, values: seq<AttributeValue>) {
    && (forall k :: k in index ==> index[k] < |values| && KeyOf(values[index[k]]) == k)
    && (forall j :: 0 <= j < |values| ==> KeyOf(values[j]) in index)
  }

  lemma {:induction false} IndexedRow(index: map<Key, nat>, values: seq<AttributeValue>, r: Row)
    requires Indexed(index, values) && DistinctKeys(values)
    ensures IndexOf(values, KeyOf(r)) == if KeyOf(r) in index then Some(index[KeyOf(r)]) else None
  {
  }

  lemma IndexKept(index: map<Key, nat>, values: seq<AttributeValue>, r: Row)
    requires Indexed(index, values)
    ensures KeyOf(r) !in index ==> Indexed(index[KeyOf(r) := |values|], values + [r])
    ensures KeyOf(r) in index ==>
      var at := index[KeyOf(r)];
      Indexed(index, values[at := values[at].(optionIds := values[at].optionIds + r.optionIds)])
  {
  }

  method MergeValues(rows: seq<Row>) returns (out: seq<AttributeValue>)
    ensures out == Merged(rows)
  {
    var index: map<Key, nat> := map[];
    out := [];
    for i := 0 to |rows|
      invariant out == Merged(rows[..i]) && Indexed(index, out)
    {
      assert rows[..i + 1][..i] == rows[..i];
      var r := rows[i];
      MergedKeysDistinct(rows[..i]);
      IndexedRow(index, out, r);
      IndexKept(index, out, r);
      if KeyOf(r) in index {
        var at := index[KeyOf(r)];
        out := out[at := out[at].(optionIds := out[at].optionIds + r.optionIds)];
      } else {
        index := index[KeyOf(r) := |out|];
        out := out + [r];
      }
    }
    assert rows[..|rows|] == rows;
  }

  lemma {:induction false} ReadingMembers(values: seq<AttributeValue>)
    requires DistinctKeys(values)
    ensures forall i :: 0 <= i < |values| ==>
      KeyOf(values[i]) in Reading(values) && Reading(values)[KeyOf(values[i])] == SlotOf(values[i])
    ensures forall k :: k in Reading(values) ==> exists i :: 0 <= i < |values| && KeyOf(values[i]) == k
  {
    if values != [] {
      var n := |values| - 1;
      ReadingMembers(values[..n]);
      forall i | 0 <= i < n
        ensures KeyOf(values[i]) in Reading(values) && Reading(values)[KeyOf(values[i])] == SlotOf(values[i])
      {
        assert values[..n][i] == values[i];
      }
      forall k | k in Reading(values)
        ensures exists i :: 0 <= i < |values| && KeyOf(values[i]) == k
      {
        if k == KeyOf(values[n]) {
          assert KeyOf(values[n]) == k;
        } else {
          var i :| 0 <= i < n && KeyOf(values[..n][i]) == k;
          assert KeyOf(values[i]) == k;
        }
      }
    }
  }

  // Replacing one value by another of its key replaces its slot in the reading.
  lemma {:induction false} ReadingUpdated(values: seq<AttributeValue>, i: nat, v: AttributeValue)
    requires DistinctKeys(values) && i < |values| && KeyOf(v) == KeyOf(values[i])
    ensures DistinctKeys(values[i := v])
    ensures Reading(values[i := v]) == Reading(values)[KeyOf(v) := SlotOf(v)]
  {
    var n := |values| - 1;
    if i < n {
      ReadingUpdated(values[..n], i, v);
      assert values[i := v][..n] == values[..n][i := v];
    } else {
      assert values[i := v][..n] == values[..n];
    }
  }

  lemma {:induction false} MergeReads(values: seq<AttributeValue>, r: Row)
    requires DistinctKeys(values)
    ensures DistinctKeys(MergedInto(values, r))
    ensures Reading(MergedInto(values, r)) == WithRow(Reading(values), r)
  {
    ReadingMembers(values);
    match IndexOf(values, KeyOf(r))
    case None => assert MergedInto(values, r)[..|values|] == values;
    case Some(i) =>
      var v := values[i].(optionIds := values[i].optionIds + r.optionIds);
      ReadingUpdated(values, i, v);
      assert SlotOf(v) == SlotOf(values[i]).(options := SetOf(values[i].optionIds) + SetOf(r.optionIds));
  }

  // Merging says what the rows say, in whatever order they are read.
  lemma {:induction false} MergedReads(rows: seq<Row>)
    requires Consistent(SetOf(rows))
    ensures Reading(Merged(rows)) == TableReading(SetOf(rows))
  {
    if rows == [] {
      assert SetOf(rows) == {};
    } else {
      var n := |rows| - 1;
      assert SetOf(rows) == SetOf(rows[..n]) + {rows[n]};
      MergedReads(rows[..n]);
      MergedKeysDistinct(rows[..n]);
      MergeReads(Merged(rows[..n]), rows[n]);
      OneMoreRow(SetOf(rows[..n]), rows[n]);
    }
  }

  // ---- exploding ---------------------------------------------------------------------

  lemma {:induction false} ExplodedMembers(values: seq<AttributeValue>)
    ensures forall r :: r in ExplodedAll(values) <==> exists v :: v in values && r in Exploded(v)
  {
    if values != [] {
      var n := |values| - 1;
      ExplodedMembers(values[..n]);
      assert values == values[..n] + [values[n]];
    }
  }

  lemma ExplodedRow(v: AttributeValue, r: Row)
    requires r in Exploded(v)
    ensures KeyOf(r) == KeyOf(v) && Bare(r) == Bare(v)
  {
  }

  lemma KeyedOnce(values: seq<AttributeValue>, v: AttributeValue, w: AttributeValue)
    requires DistinctKeys(values) && v in values && w in values && KeyOf(v) == KeyOf(w)
    ensures v == w
  {
  }

  lemma {:induction false} ExplodedConsistent(values: seq<AttributeValue>)
    requires DistinctKeys(values)
    ensures Consistent(SetOf(ExplodedAll(values)))
  {
    ExplodedMembers(values);
    var rows := SetOf(ExplodedAll(values));
    forall q, r | q in rows && r in rows && KeyOf(q) == KeyOf(r)
      ensures Bare(q) == Bare(r)
    {
      var v :| v in values && q in Exploded(v);
      var w :| w in values && r in Exploded(w);
      ExplodedRow(v, q);
      ExplodedRow(w, r);
      KeyedOnce(values, v, w);
    }
  }

  lemma ConsistentSubset(some: set<Row>, all: set<Row>)
    requires some <= all && Consistent(all)
    ensures Consistent(some)
  {
  }

  lemma ReadsOneMore(before: set<Row>, r: Row, after: set<Row>, m: map<Key, Slot>, next: map<Key, Slot>)
    requires after == before + {r} && Consistent(after) && TableReading(before) == m && next == WithRow(m, r)
    ensures TableReading(after) == next
  {
    OneMoreRow(before, r);
  }

  function SlotUpTo(v: AttributeValue, n: nat): Slot
    requires n <= |v.optionIds|
  {
    Slot(Bare(v), SetOf(v.optionIds[..n]))
  }

  // The first n rows of v on top of others.
  function WithRows(rows: set<Row>, v: AttributeValue, n: nat): set<Row>
    requires n <= |v.optionIds|
  {
    if n == 0 then rows else WithRows(rows, v, n - 1) + {RowOf(v, v.optionIds[n - 1])}
  }

  lemma {:induction false} WithRowsMembers(rows: set<Row>, v: AttributeValue, n: nat)
    requires n <= |v.optionIds|
    ensures forall r :: r in WithRows(rows, v, n) <==>
      r in rows || exists i :: 0 <= i < n && r == RowOf(v, v.optionIds[i])
  {
    if n > 0 {
      WithRowsMembers(rows, v, n - 1);
    }
  }

  lemma {:induction false} AllRowsAdded(rows: set<Row>, v: AttributeValue)
    requires v.optionIds != []
    ensures WithRows(rows, v, |v.optionIds|) == rows + SetOf(Exploded(v))
  {
    WithRowsMembers(rows, v, |v.optionIds|);
    forall r
      ensures r in Exploded(v) <==> exists i :: 0 <= i < |v.optionIds| && r == RowOf(v, v.optionIds[i])
    {
      if r in Exploded(v) {
        var i :| 0 <= i < |Exploded(v)| && Exploded(v)[i] == r;
      }
      if i :| 0 <= i < |v.optionIds| && r == RowOf(v, v.optionIds[i]) {
        assert Exploded(v)[i] == r;
      }
    }
  }

  // The rows of one value, added in turn to what does not mention its key, add its slot.
  lemma {:induction false} WithRowsReads(rows: set<Row>, v: AttributeValue, n: nat, m: map<Key, Slot>)
    requires 1 <= n <= |v.optionIds| && m == TableReading(rows) && KeyOf(v) !in m && Consistent(WithRows(rows, v, n))
    ensures TableReading(WithRows(rows, v, n)) == m[KeyOf(v) := SlotUpTo(v, n)]
  {
    var before, r := WithRows(rows, v, n - 1), RowOf(v, v.optionIds[n - 1]);
    if n == 1 {
      FirstOptionSlot(m, v);
      ReadsOneMore(rows, r, WithRows(rows, v, n), m, m[KeyOf(v) := SlotUpTo(v, 1)]);
    } else {
      ConsistentSubset(before, before + {r});
      WithRowsReads(rows, v, n - 1, m);
      NextOptionSlot(m, v, n);
      ReadsOneMore(before, r, before + {r}, m[KeyOf(v) := SlotUpTo(v, n - 1)], m[KeyOf(v) := SlotUpTo(v, n)]);
    }
  }

  lemma FirstOptionSlot(m: map<Key, Slot>, v: AttributeValue)
    requires v.optionIds != [] && KeyOf(v) !in m
    ensures WithRow(m, RowOf(v, v.optionIds[0])) == m[KeyOf(v) := SlotUpTo(v, 1)]
  {
    assert SetOf(v.optionIds[..1]) == SetOf([v.optionIds[0]]);
  }

  lemma NextOptionSlot(m: map<Key, Slot>, v: AttributeValue, n: nat)
    requires 1 < n <= |v.optionIds|
    ensures WithRow(m[KeyOf(v) := SlotUpTo(v, n - 1)], RowOf(v, v.optionIds[n - 1])) ==
      m[KeyOf(v) := SlotUpTo(v, n)]
  {
    assert SetOf(v.optionIds[..n]) == SetOf(v.optionIds[..n - 1]) + SetOf([v.optionIds[n - 1]]);
  }

  lemma ExplodedReads(rows: set<Row>, v: AttributeValue)
    requires KeyOf(v) !in KeysOf(rows) && Consistent(rows + SetOf(Exploded(v)))
    ensures TableReading(rows + SetOf(Exploded(v))) == TableReading(rows)[KeyOf(v) := SlotOf(v)]
  {
    if v.optionIds == [] {
      assert SetOf(Exploded(v)) == {v};
      OneMoreRow(rows, v);
    } else {
      AllRowsAdded(rows, v);
      WithRowsReads(rows, v, |v.optionIds|, TableReading(rows));
      assert v.optionIds[..|v.optionIds|] == v.optionIds;
    }
  }

  // Splitting values into rows says the same thing.
  lemma {:induction false} ExplodingReads(values: seq<AttributeValue>)
    requires DistinctKeys(values)
    ensures TableReading(SetOf(ExplodedAll(values))) == Reading(values)
  {
    if values == [] {
      assert SetOf(ExplodedAll(values)) == {};
    } else {
      var n := |values| - 1;
      ExplodingReads(values[..n]);
      ExplodedMembers(values[..n]);
      ExplodedConsistent(values);
      assert SetOf(ExplodedAll(values)) == SetOf(ExplodedAll(values[..n])) + SetOf(Exploded(values[n]));
      ExplodedReads(SetOf(ExplodedAll(values[..n])), values[n]);
    }
  }

  // Exploding values into rows and merging the rows, read back in any order, loses nothing.
  lemma {:induction false} ExplodeThenMerge(values: seq<AttributeValue>, rows: seq<Row>)
    requires DistinctKeys(values) && SetOf(rows) == SetOf(ExplodedAll(values))
    ensures Reading(Merged(rows)) == Reading(values)
  {
    ExplodingReads(values);
    ExplodedConsistent(values);
    MergedReads(rows);
  }

  lemma OptionComesFromARow(rows: set<Row>, k: Key, id: Id) returns (r: Row)
    requires id in OptionsAt(rows, k)
    ensures r in rows && KeyOf(r) == k && id in r.optionIds
  {
    r :| r in rows && KeyOf(r) == k && id in r.optionIds;
  }

  // A row not read before brings an option its value does not list yet.
  lemma {:induction false} RowBringsNewOption(values: seq<AttributeValue>, rows: set<Row>, r: Row, i: nat)
    requires DistinctKeys(values) && Reading(values) == TableReading(rows)
    requires r !in rows && |r.optionIds| == 1
    requires forall q :: q in rows && KeyOf(q) == KeyOf(r) ==> Bare(q) == Bare(r) && |q.optionIds| <= 1
    requires i < |values| && KeyOf(values[i]) == KeyOf(r)
    ensures r.optionIds[0] !in values[i].optionIds
  {
    var id := r.optionIds[0];
    ReadingMembers(values);
    assert id in values[i].optionIds <==> id in SlotOf(values[i]).options;
    if id in OptionsAt(rows, KeyOf(r)) {
      var q := OptionComesFromARow(rows, KeyOf(r), id);
      SameRow(q, r, id);
    }
  }

  lemma SameRow(q: Row, r: Row, id: Id)
    requires Bare(q) == Bare(r) && |q.optionIds| <= 1 && |r.optionIds| <= 1 && id in q.optionIds && id in r.optionIds
    ensures q == r
  {
  }

  // Adding a row not read before keeps each value's options distinct.
  lemma {:induction false} RowKeepsDistinct(values: seq<AttributeValue>, rows: set<Row>, r: Row)
    requires DistinctKeys(values) && Reading(values) == TableReading(rows) && r !in rows && |r.optionIds| <= 1
    requires forall q :: q in rows && KeyOf(q) == KeyOf(r) ==> Bare(q) == Bare(r) && |q.optionIds| <= 1
    requires forall w :: w in values ==> Distinct(w.optionIds)
    ensures forall w :: w in MergedInto(values, r) ==> Distinct(w.optionIds)
  {
    var at := IndexOf(values, KeyOf(r));
    if at.Some? {
      assert values[at.value] in values;
      if r.optionIds != [] {
        RowBringsNewOption(values, rows, r, at.value);
      }
    }
  }

  // Distinct rows never repeat an option within a value.
  lemma {:induction false} MergedOptionsDistinct(rows: seq<Row>)
    requires Distinct(rows) && Consistent(SetOf(rows)) && forall r :: r in rows ==> |r.optionIds| <= 1
    ensures forall w :: w in Merged(rows) ==> Distinct(w.optionIds)
  {
    if rows != [] {
      var front, r := rows[..|rows| - 1], rows[|rows| - 1];
      assert SetOf(rows) == SetOf(front) + {r};
      MergedOptionsDistinct(front);
      MergedReads(front);
      MergedKeysDistinct(front);
      RowKeepsDistinct(Merged(front), SetOf(front), r);
    }
  }

  // ---- the projection ----------------------------------------------------------------

  // The values of the product itself, or of one of its variants.
  function AtLevel(values: seq<AttributeValue>, variant: Option<Id>): seq<AttributeValue> {
    if values == [] then []
    else
      var n := |values| - 1;
      AtLevel(values[..n], variant) + if values[n].variant == variant then [values[n]] else []
  }

  // Key to rendered value, skipping attributes the category does not bind.
  function ProjectionOf(schema: Schema, values: seq<AttributeValue>): Fields {
    if values == [] then map[]
    else
      var n := |values| - 1;
      var v := values[n];
      var m := ProjectionOf(schema, values[..n]);
      if v.attr in schema then m[schema[v.attr].key := ApiValue(schema[v.attr], v)] else m
  }

  method Project(schema: Schema, values: seq<AttributeValue>) returns (m: Fields)
    ensures m == ProjectionOf(schema, values)
  {
    m := map[];
    for i := 0 to |values|
      invariant m == ProjectionOf(schema, values[..i])
    {
      assert values[..i + 1][..i] == values[..i];
      var v := values[i];
      if v.attr in schema {
        m := m[schema[v.attr].key := ApiValue(schema[v.attr], v)];
      }
    }
    assert values[..|values|] == values;
  }

  lemma {:induction false} AtLevelMembers(values: seq<AttributeValue>, variant: Option<Id>)
    ensures forall v :: v in AtLevel(values, variant) <==> v in values && v.variant == variant
  {
    if values != [] {
      var n := |values| - 1;
      AtLevelMembers(values[..n], variant);
      assert values == values[..n] + [values[n]];
    }
  }

  lemma {:induction false} AtLevelDistinct(values: seq<AttributeValue>, variant: Option<Id>)
    requires DistinctKeys(values)
    ensures DistinctKeys(AtLevel(values, variant))
  {
    if values != [] {
      var n := |values| - 1;
      AtLevelDistinct(values[..n], variant);
      AtLevelMembers(values[..n], variant);
      forall v | v in values[..n]
        ensures KeyOf(v) != KeyOf(values[n])
      {
        var i :| 0 <= i < n && values[i] == v;
      }
    }
  }

  // Two values of one level never share a key of the projection.
  lemma KeysApart(schema: Schema, values: seq<AttributeValue>, variant: Option<Id>, v: AttributeValue, n: nat)
    requires SoundSchema(schema) && DistinctKeys(values) && n < |values| && v in values[..n]
    requires forall v :: v in values ==> v.variant == variant && v.attr in schema
    ensures v in values && schema[v.attr].key != schema[values[n].attr].key
  {
    var i :| 0 <= i < n && values[..n][i] == v;
    assert values[i] == v;
    assert KeyOf(values[i]) != KeyOf(values[n]);
  }

  lemma {:induction false} ValueHasEntry(schema: Schema, values: seq<AttributeValue>, variant: Option<Id>,
                                         v: AttributeValue)
    requires SoundSchema(schema) && DistinctKeys(values) && v in values
    requires forall v :: v in values ==> v.variant == variant && v.attr in schema
    ensures schema[v.attr].key in ProjectionOf(schema, values)
    ensures ProjectionOf(schema, values)[schema[v.attr].key] == ApiValue(schema[v.attr], v)
  {
    var n := |values| - 1;
    if v != values[n] {
      assert v in values[..n];
      ValueHasEntry(schema, values[..n], variant, v);
      KeysApart(schema, values, variant, v, n);
    }
  }

  lemma {:induction false} EntryHasValue(schema: Schema, values: seq<AttributeValue>, key: string)
    returns (v: AttributeValue)
    requires (forall v :: v in values ==> v.attr in schema) && key in ProjectionOf(schema, values)
    ensures v in values && schema[v.attr].key == key
  {
    var n := |values| - 1;
    if key == schema[values[n].attr].key {
      v := values[n];
    } else {
      v := EntryHasValue(schema, values[..n], key);
    }
  }

  // One entry per value, holding its rendering.
  lemma {:induction false} ProjectionEntries(schema: Schema, values: seq<AttributeValue>, variant: Option<Id>)
    requires SoundSchema(schema) && DistinctKeys(values)
    requires forall v :: v in values ==> v.variant == variant && v.attr in schema
    ensures forall v :: v in values ==>
      && schema[v.attr].key in ProjectionOf(schema, values)
      && ProjectionOf(schema, values)[schema[v.attr].key] == ApiValue(schema[v.attr], v)
    ensures forall key :: key in ProjectionOf(schema, values) ==> exists v :: v in values && schema[v.attr].key == key
  {
    forall v | v in values
      ensures schema[v.attr].key in ProjectionOf(schema, values)
      ensures ProjectionOf(schema, values)[schema[v.attr].key] == ApiValue(schema[v.attr], v)
    {
      ValueHasEntry(schema, values, variant, v);
    }
    forall key | key in ProjectionOf(schema, values)
      ensures exists v :: v in values && schema[v.attr].key == key
    {
      var v := EntryHasValue(schema, values, key);
    }
  }

  lemma {:induction false} SameTokens(options: seq<AttrOption>, ids: seq<Id>, others: seq<Id>)
    requires forall id :: id in ids <==> id in others
    ensures TokensOf(options, ids) == TokensOf(options, others)
  {
    if options != [] {
      SameTokens(options[..|options| - 1], ids, others);
    }
  }

  lemma SingletonOf(ids: seq<Id>, id: Id)
    requires Distinct(ids) && SetOf(ids) == {id}
    ensures ids == [id]
  {
    assert id in SetOf(ids);
    assert ids[0] in SetOf(ids);
    assert |ids| > 1 ==> ids[0] != ids[1];
    forall i | 0 <= i < |ids|
      ensures ids[i] == id
    {
      assert ids[i] in SetOf(ids);
    }
    assert id in SetOf(ids);
  }

  // Values with the same slot are equally valid and render the same.
  lemma SameSlot(a: Attribute, v: AttributeValue, w: AttributeValue)
    requires ValidValue(a, v) && SlotOf(v) == SlotOf(w) && Distinct(w.optionIds)
    ensures ValidValue(a, w) && ApiValue(a, w) == ApiValue(a, v)
  {
    forall id
      ensures id in v.optionIds <==> id in w.optionIds
    {
      assert id in v.optionIds <==> id in SlotOf(v).options;
      assert id in w.optionIds <==> id in SlotOf(w).options;
    }
    assert v == Bare(v).(optionIds := v.optionIds) && w == Bare(v).(optionIds := w.optionIds);
    if w.optionIds != [] {
      assert w.optionIds[0] in v.optionIds;
    }
    if v.optionIds != [] {
      assert v.optionIds[0] in w.optionIds;
    }
    if a.dataType in {Enum, Color} {
      assert v.optionIds == [v.optionIds[0]];
      SingletonOf(w.optionIds, v.optionIds[0]);
    }
    SameTokens(a.options, v.optionIds, w.optionIds);
  }
}
