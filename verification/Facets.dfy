// Compiled listing queries and disjunctive facets: every count shown beside a facet
// value is the size of the listing that choosing the value would give.
module Facets {
  import opened Prelude
  import opened JsonPath
  import opened Attributes
  import opened Filters
  import opened FacetSpec

  datatype AttrPath = AttrPath(key: string, path: Path)

  // ---- compiling a query's filters ----------------------------------------------

  ghost predicate Usable(attrs: Registry, f: AttributeFilter, num: NumberReader) {
    f.key in attrs && attrs[f.key].filterable && Meaningful(attrs[f.key], f, num)
  }

  // Collects one path per filter, and the field name of each filter that is unusable.
  method CompileFilters(attrs: Registry, filters: seq<AttributeFilter>, num: NumberReader)
    returns (paths: seq<AttrPath>, errors: seq<string>)
    requires SoundRegistry(attrs)
    ensures errors == [] <==> forall i :: 0 <= i < |filters| ==> Usable(attrs, filters[i], num)
    ensures errors == [] ==> |paths| == |filters| && Compiled(attrs, filters, num, PathsOf(paths))
    ensures errors == [] ==> forall i :: 0 <= i < |filters| ==> paths[i].key == filters[i].key
    ensures forall i :: 0 <= i < |paths| ==> paths[i].key in attrs
  {
    paths, errors := [], [];
    for i := 0 to |filters|
      invariant errors == [] <==> forall j :: 0 <= j < i ==> Usable(attrs, filters[j], num)
      invariant errors == [] ==> |paths| == i
      invariant errors == [] ==> forall j :: 0 <= j < i ==>
        && filters[j].key in attrs && paths[j].key == filters[j].key
        && FilterPath(attrs[filters[j].key], filters[j], num) == Ok(paths[j].path)
      invariant forall j :: 0 <= j < |paths| ==> paths[j].key in attrs
    {
      var f := filters[i];
      if f.key !in attrs || !attrs[f.key].filterable {
        errors := errors + ["attr." + f.key];
      } else {
        CompilesIffMeaningful(attrs[f.key], f, num);
        match FilterPath(attrs[f.key], f, num)
        case Err(_) => errors := errors + ["attr." + f.key];
        case Ok(path) => paths := paths + [AttrPath(f.key, path)];
      }
    }
  }

  function PathsOf(paths: seq<AttrPath>): (ps: seq<Path>)
    ensures |ps| == |paths| && forall i :: 0 <= i < |ps| ==> ps[i] == paths[i].path
  {
    seq(|paths|, i requires 0 <= i < |paths| => paths[i].path)
  }

  // Every path but those of one attribute.
  function Kept(paths: seq<AttrPath>, exceptKey: string): seq<Path> {
    if paths == [] then []
    else
      var n := |paths| - 1;
      Kept(paths[..n], exceptKey) + if paths[n].key != exceptKey then [paths[n].path] else []
  }

  // How many of the first n paths are on other attributes.
  ghost function OthersBefore(paths: seq<AttrPath>, n: nat, exceptKey: string): nat
    requires n <= |paths|
  {
    |set i | 0 <= i < n && paths[i].key != exceptKey|
  }

  lemma OneMoreOther(paths: seq<AttrPath>, n: nat, exceptKey: string)
    requires n < |paths|
    ensures OthersBefore(paths, n + 1, exceptKey) ==
      OthersBefore(paths, n, exceptKey) + if paths[n].key != exceptKey then 1 else 0
  {
    var before := set i | 0 <= i < n && paths[i].key != exceptKey;
    assert (set i | 0 <= i < n + 1 && paths[i].key != exceptKey) ==
      before + if paths[n].key != exceptKey then {n} else {};
  }

  lemma OthersInPrefix(paths: seq<AttrPath>, n: nat, i: nat, exceptKey: string)
    requires i <= n <= |paths|
    ensures OthersBefore(paths[..n], i, exceptKey) == OthersBefore(paths, i, exceptKey)
  {
    assert (set k | 0 <= k < i && paths[..n][k].key != exceptKey) == set k | 0 <= k < i && paths[k].key != exceptKey;
  }

  lemma {:induction false} KeptMembers(paths: seq<AttrPath>, exceptKey: string)
    ensures forall q :: q in Kept(paths, exceptKey) <==>
      exists i :: 0 <= i < |paths| && paths[i].key != exceptKey && paths[i].path == q
  {
    if paths != [] {
      var n := |paths| - 1;
      KeptMembers(paths[..n], exceptKey);
      assert paths == paths[..n] + [paths[n]];
    }
  }

  lemma {:induction false} KeptLength(paths: seq<AttrPath>, exceptKey: string)
    ensures |Kept(paths, exceptKey)| == OthersBefore(paths, |paths|, exceptKey)
  {
    if paths != [] {
      var n := |paths| - 1;
      KeptLength(paths[..n], exceptKey);
      OthersInPrefix(paths, n, n, exceptKey);
      OneMoreOther(paths, n, exceptKey);
    }
  }

  // A path on another attribute is kept, at its place among those.
  lemma {:induction false} KeptPlace(paths: seq<AttrPath>, exceptKey: string, i: nat)
    requires i < |paths| && paths[i].key != exceptKey
    ensures OthersBefore(paths, i, exceptKey) < |Kept(paths, exceptKey)|
    ensures Kept(paths, exceptKey)[OthersBefore(paths, i, exceptKey)] == paths[i].path
  {
    var n := |paths| - 1;
    KeptLength(paths[..n], exceptKey);
    OthersInPrefix(paths, n, n, exceptKey);
    if i < n {
      KeptPlace(paths[..n], exceptKey, i);
      OthersInPrefix(paths, n, i, exceptKey);
    }
  }

  method FilterExcept(paths: seq<AttrPath>, exceptKey: string) returns (kept: seq<Path>)
    ensures kept == Kept(paths, exceptKey)
    ensures |kept| == OthersBefore(paths, |paths|, exceptKey)
    ensures forall i :: 0 <= i < |paths| && paths[i].key != exceptKey ==>
      OthersBefore(paths, i, exceptKey) < |kept| && kept[OthersBefore(paths, i, exceptKey)] == paths[i].path
    ensures forall q :: q in kept <==> exists i :: 0 <= i < |paths| && paths[i].key != exceptKey && paths[i].path == q
  {
    KeptMembers(paths, exceptKey);
    KeptLength(paths, exceptKey);
    forall i | 0 <= i < |paths| && paths[i].key != exceptKey
      ensures OthersBefore(paths, i, exceptKey) < |Kept(paths, exceptKey)|
      ensures Kept(paths, exceptKey)[OthersBefore(paths, i, exceptKey)] == paths[i].path
    {
      KeptPlace(paths, exceptKey, i);
    }
    kept := [];
    for i := 0 to |paths|
      invariant kept == Kept(paths[..i], exceptKey)
    {
      assert paths[..i + 1][..i] == paths[..i];
      if paths[i].key != exceptKey {
        kept := kept + [paths[i].path];
      }
    }
    assert paths[..|paths|] == paths;
  }

  lemma {:induction false} KeptAll(paths: seq<AttrPath>, exceptKey: string)
    requires forall i :: 0 <= i < |paths| ==> paths[i].key != exceptKey
    ensures Kept(paths, exceptKey) == PathsOf(paths)
  {
    if paths != [] {
      var n := |paths| - 1;
      KeptAll(paths[..n], exceptKey);
      assert PathsOf(paths) == PathsOf(paths[..n]) + [paths[n].path];
    }
  }

  // ---- the two queries -------------------------------------------------------------

  datatype ProductRow = ProductRow(attrs: Fields, variants: seq<Fields>)

  type Table = map<Id, ProductRow>

  function Matching(table: Table, base: set<Id>, paths: seq<Path>): set<Id> {
    set id | id in base && id in table && ProductMatches(table[id].attrs, table[id].variants, paths)
  }

  // base holds the products that meet every constraint other than the attribute filters.
  function CountProducts(table: Table, base: set<Id>, paths: seq<Path>): nat {
    |Matching(table, base, paths)|
  }

  // jsonb_array_elements_text of one element; only tokens and flags are ever counted.
  function TextOf(j: Json): Option<string> {
    match j
    case JStr(s) => Some(s)
    case JBool(b) => Some(if b then "true" else "false")
    case _ => None
  }

  predicate HasText(j: Json, value: string) {
    exists item | item in Unwrap(j) :: TextOf(item) == Some(value)
  }

  // The joined variant satisfies the paths and carries the value under the key.
  predicate Carries(row: ProductRow, n: nat, paths: seq<Path>, key: string, value: string)
    requires n < |row.variants|
  {
    var fields := row.attrs + row.variants[n];
    VariantMatches(row.attrs, row.variants[n], paths) && key in fields && HasText(fields[key], value)
  }

  // count(DISTINCT p.id) of one (key, value) group.
  function Carriers(table: Table, base: set<Id>, paths: seq<Path>, key: string, value: string): set<Id> {
    set id | id in base && id in table && exists n ::
      0 <= n < |table[id].variants| && Carries(table[id], n, paths, key, value)
  }

  type Counts = map<string, map<string, nat>>

  // The values some joined row carries under the key.
  function Seen(table: Table, base: set<Id>, paths: seq<Path>, key: string): set<string> {
    set id, n, item |
      && id in base && id in table && 0 <= n < |table[id].variants|
      && VariantMatches(table[id].attrs, table[id].variants[n], paths)
      && key in table[id].attrs + table[id].variants[n]
      && item in Unwrap((table[id].attrs + table[id].variants[n])[key])
      && TextOf(item).Some? :: TextOf(item).value
  }

  // GROUP BY key, value over the requested keys.
  function FacetCounts(table: Table, base: set<Id>, paths: seq<Path>, keys: set<string>): Counts {
    map key | key in keys :: map value | value in Seen(table, base, paths, key) ::
      |Carriers(table, base, paths, key, value)|
  }

  // A value has a group exactly when some product carries it; without one it reads as zero.
  lemma LookupCounts(table: Table, base: set<Id>, paths: seq<Path>, keys: set<string>, key: string, value: string)
    requires key in keys
    ensures value in FacetCounts(table, base, paths, keys)[key] <==> Carriers(table, base, paths, key, value) != {}
    ensures Lookup(FacetCounts(table, base, paths, keys), key, value) == |Carriers(table, base, paths, key, value)|
  {
    if id :| id in Carriers(table, base, paths, key, value) {
      var n :| 0 <= n < |table[id].variants| && Carries(table[id], n, paths, key, value);
      var stored := (table[id].attrs + table[id].variants[n])[key];
      var item :| item in Unwrap(stored) && TextOf(item) == Some(value);
      assert value in Seen(table, base, paths, key);
    }
    if value in Seen(table, base, paths, key) {
      var id, n, item :| id in base && id in table && 0 <= n < |table[id].variants|
        && VariantMatches(table[id].attrs, table[id].variants[n], paths)
        && key in table[id].attrs + table[id].variants[n]
        && item in Unwrap((table[id].attrs + table[id].variants[n])[key])
        && TextOf(item) == Some(value);
      assert Carries(table[id], n, paths, key, value);
      assert id in Carriers(table, base, paths, key, value);
    }
  }

  function Lookup(counts: Counts, key: string, value: string): nat {
    if key in counts && value in counts[key] then counts[key][value] else 0
  }

  // ---- the observed range of a numeric attribute ---------------------------------------

  type Ranges = map<string, Range>

  function MemberNumber(j: Json, name: string): Option<real> {
    if j.JObj? && name in j.fields && j.fields[name].JNum? then Some(j.fields[name].num) else None
  }

  // A number is both ends of its range.
  function LowEnd(j: Json): Option<real> {
    if j.JNum? then Some(j.num) else MemberNumber(j, "low")
  }

  function HighEnd(j: Json): Option<real> {
    if j.JNum? then Some(j.num) else MemberNumber(j, "high")
  }

  // The stored values some joined row has under the key.
  function ValuesUnder(table: Table, base: set<Id>, paths: seq<Path>, key: string): set<Json> {
    set id, n |
      && id in base && id in table && 0 <= n < |table[id].variants|
      && VariantMatches(table[id].attrs, table[id].variants[n], paths)
      && key in table[id].attrs + table[id].variants[n]
      :: (table[id].attrs + table[id].variants[n])[key]
  }

  function LowEnds(values: set<Json>): set<real> {
    set j | j in values && LowEnd(j).Some? :: LowEnd(j).value
  }

  function HighEnds(values: set<Json>): set<real> {
    set j | j in values && HighEnd(j).Some? :: HighEnd(j).value
  }

  predicate IsLeast(m: real, s: set<real>) {
    m in s && forall x :: x in s ==> m <= x
  }

  lemma Member<T>(s: set<T>) returns (x: T)
    requires s != {}
    ensures x in s
  {
    x :| x in s;
  }

  lemma {:induction false} FindLeast(s: set<real>) returns (m: real)
    requires s != {}
    ensures IsLeast(m, s)
  {
    var x := Member(s);
    if s == {x} {
      m := x;
    } else {
      assert s - {x} != {};
      var rest := FindLeast(s - {x});
      m := if x <= rest then x else rest;
      assert s == s - {x} + {x};
    }
  }

  lemma HasLeast(s: set<real>)
    requires s != {}
    ensures exists m :: IsLeast(m, s)
  {
    var m := FindLeast(s);
  }

  function Least(s: set<real>): (m: real)
    requires s != {}
    ensures IsLeast(m, s)
  {
    HasLeast(s);
    var least :| IsLeast(least, s);
    least
  }

  function Negated(s: set<real>): set<real> {
    set x | x in s :: -x
  }

  function Greatest(s: set<real>): (m: real)
    requires s != {}
    ensures m in s && forall x :: x in s ==> x <= m
  {
    assert Negated(s) != {} by {
      var x := Member(s);
      assert -x in Negated(s);
    }
    assert forall x :: x in s ==> -x in Negated(s);
    -Least(Negated(s))
  }

  // min and max ignore nulls; a key without both ends has no range.
  function RangeOf(values: set<Json>): Option<Range> {
    if LowEnds(values) != {} && HighEnds(values) != {}
    then Some(Range(Least(LowEnds(values)), Greatest(HighEnds(values))))
    else None
  }

  // GROUP BY key over the requested keys.
  function FacetRanges(table: Table, base: set<Id>, paths: seq<Path>, keys: set<string>): Ranges {
    map key | key in keys && RangeOf(ValuesUnder(table, base, paths, key)).Some? ::
      RangeOf(ValuesUnder(table, base, paths, key)).value
  }

  function LookupRange(ranges: Ranges, key: string): Option<Range> {
    if key in ranges then Some(ranges[key]) else None
  }

  // ---- facets --------------------------------------------------------------------------

  predicate Countable(a: Attribute) {
    a.filterable && (UsesOptions(a.dataType) || a.dataType == Boolean)
  }

  predicate Ranged(a: Attribute) {
    a.filterable && a.dataType in {Number, NumberRange}
  }

  function Choices(a: Attribute): seq<string> {
    if a.dataType == Boolean then ["true", "false"]
    else seq(|a.options|, i requires 0 <= i < |a.options| => a.options[i].value)
  }

  // The path of the filter attr.key=value.
  function ChoicePath(a: Attribute, value: string): Path {
    Path(a.key, Equals(if a.dataType == Boolean then JBool(value == "true") else JStr(value)))
  }

  lemma ChoicePathIsTheFilter(a: Attribute, value: string, num: NumberReader)
    requires Countable(a) && value in Choices(a)
    ensures FilterPath(a, AttributeFilter(a.key, [value], None, None, None), num) == Ok(ChoicePath(a, value))
  {
  }

  // The size of the listing under every other filter plus key = value.
  function CountIfChosen(table: Table, base: set<Id>, paths: seq<AttrPath>, a: Attribute, value: string): nat {
    CountProducts(table, base, Kept(paths, a.key) + [ChoicePath(a, value)])
  }

  function ChosenValues(table: Table, base: set<Id>, paths: seq<AttrPath>, a: Attribute, choices: seq<string>)
    : seq<FacetValue> {
    if choices == [] then []
    else
      var n := |choices| - 1;
      var count := CountIfChosen(table, base, paths, a, choices[n]);
      ChosenValues(table, base, paths, a, choices[..n]) + if count > 0 then [FacetValue(choices[n], count)] else []
  }

  // The range under every other filter.
  function ObservedRange(table: Table, base: set<Id>, paths: seq<AttrPath>, a: Attribute): Option<Range> {
    RangeOf(ValuesUnder(table, base, Kept(paths, a.key), a.key))
  }

  // What is shown for it: looking up a key that has no row reads the zero range, and a key
  // filtered on is looked up whether it has one or not.
  function ShownRange(table: Table, base: set<Id>, paths: seq<AttrPath>, a: Attribute): Option<Range> {
    var observed := ObservedRange(table, base, paths, a);
    if observed.None? && a.key in KeysOf(paths) then Some(Range(0.0, 0.0)) else observed
  }

  function ExpectedFacet(table: Table, base: set<Id>, paths: seq<AttrPath>, a: Attribute): seq<Facet> {
    var values := if Countable(a) then ChosenValues(table, base, paths, a, Choices(a)) else [];
    var range := if Ranged(a) then ShownRange(table, base, paths, a) else None;
    if values != [] || range.Some? then [Facet(a.key, values, range)] else []
  }

  function ExpectedFacets(table: Table, base: set<Id>, paths: seq<AttrPath>, bindings: seq<Attribute>): seq<Facet> {
    if bindings == [] then []
    else
      var n := |bindings| - 1;
      ExpectedFacets(table, base, paths, bindings[..n]) + ExpectedFacet(table, base, paths, bindings[n])
  }

  ghost predicate RowStored(reg: Registry, typed: TypedProduct, row: ProductRow) {
    && Projects(reg, typed.product, row.attrs)
    && |row.variants| == |typed.variants|
    && forall n :: 0 <= n < |row.variants| ==> Projects(reg, typed.variants[n], row.variants[n])
  }

  ghost predicate TableStored(reg: Registry, typed: map<Id, TypedProduct>, table: Table) {
    typed.Keys == table.Keys && forall id :: id in table ==> RowStored(reg, typed[id], table[id])
  }

  lemma ItemsAreTexts(a: Attribute, v: AttributeValue, j: Json)
    requires SoundAttribute(a) && Countable(a) && ValidValue(a, v) && Stores(a, v, j)
    ensures forall item :: item in Unwrap(j) ==> if a.dataType == Boolean then item.JBool? else item.JStr?
  {
    if UsesOptions(a.dataType) {
      StoredTokens(a, v, j);
    } else {
      assert Unwrap(j) == [j];
    }
  }

  // Carrying a value as text is satisfying the filter for it.
  lemma TextIsChoice(a: Attribute, v: AttributeValue, fields: Fields, value: string)
    requires SoundAttribute(a) && Countable(a) && value in Choices(a) && ValidValue(a, v)
    requires a.key in fields && Stores(a, v, fields[a.key])
    ensures HasText(fields[a.key], value) <==> Exists(JObj(fields), ChoicePath(a, value))
  {
    var j, path := fields[a.key], ChoicePath(a, value);
    ExistsUnwraps(fields, path);
    ItemsAreTexts(a, v, j);
    forall item | item in Unwrap(j)
      ensures Eval(path.pred, item) == True <==> TextOf(item) == Some(value)
    {
      EqualsScalar(path.pred.lit, item);
    }
  }

  lemma MatchesOneMore(pAttrs: Fields, vAttrs: Fields, paths: seq<Path>, last: Path)
    ensures VariantMatches(pAttrs, vAttrs, paths + [last]) <==>
      VariantMatches(pAttrs, vAttrs, paths) && Exists(JObj(pAttrs + vAttrs), last)
  {
    var all := paths + [last];
    assert all[|paths|] == last;
    assert forall i :: 0 <= i < |paths| ==> all[i] == paths[i];
  }

  lemma CarriesIsMatches(reg: Registry, typed: TypedProduct, row: ProductRow, n: nat, paths: seq<Path>, a: Attribute,
                         value: string)
    requires SoundRegistry(reg) && RowStored(reg, typed, row) && n < |row.variants|
    requires a.key in reg && reg[a.key] == a && Countable(a) && value in Choices(a)
    ensures Carries(row, n, paths, a.key, value) <==>
      VariantMatches(row.attrs, row.variants[n], paths + [ChoicePath(a, value)])
  {
    var fields := row.attrs + row.variants[n];
    CombinedProjection(reg, typed.product, typed.variants[n], row.attrs, row.variants[n]);
    if a.key in fields {
      TextIsChoice(a, (typed.product + typed.variants[n])[a.key], fields, value);
    } else {
      ExistsMissing(fields, ChoicePath(a, value));
    }
    MatchesOneMore(row.attrs, row.variants[n], paths, ChoicePath(a, value));
  }

  lemma CarriersAreMatches(reg: Registry, typed: map<Id, TypedProduct>, table: Table, base: set<Id>, paths: seq<Path>,
                           a: Attribute, value: string)
    requires SoundRegistry(reg) && TableStored(reg, typed, table)
    requires a.key in reg && reg[a.key] == a && Countable(a) && value in Choices(a)
    ensures Carriers(table, base, paths, a.key, value) == Matching(table, base, paths + [ChoicePath(a, value)])
  {
    forall id, n | id in table && 0 <= n < |table[id].variants|
      ensures Carries(table[id], n, paths, a.key, value) <==>
        VariantMatches(table[id].attrs, table[id].variants[n], paths + [ChoicePath(a, value)])
    {
      CarriesIsMatches(reg, typed[id], table[id], n, paths, a, value);
    }
  }

  function KeysOf(paths: seq<AttrPath>): set<string> {
    set i | 0 <= i < |paths| :: paths[i].key
  }

  ghost predicate BindingsOf(reg: Registry, bindings: seq<Attribute>) {
    forall i :: 0 <= i < |bindings| ==> bindings[i].key in reg && reg[bindings[i].key] == bindings[i]
  }

  // counts holds, for every countable binding, the listing size behind each choice.
  ghost predicate CountsRight(table: Table, base: set<Id>, paths: seq<AttrPath>, a: Attribute, counts: Counts) {
    forall value :: value in Choices(a) ==> Lookup(counts, a.key, value) == CountIfChosen(table, base, paths, a, value)
  }

  lemma {:induction false} QueryCountsRight(reg: Registry, typed: map<Id, TypedProduct>, table: Table, base: set<Id>,
                                            paths: seq<AttrPath>, bindings: seq<Attribute>, i: nat,
                                            keys: set<string>, kept: seq<Path>, counts: Counts)
    requires SoundRegistry(reg) && TableStored(reg, typed, table) && BindingsOf(reg, bindings)
    requires i < |bindings| && Countable(bindings[i]) && kept == Kept(paths, bindings[i].key)
    requires bindings[i].key in keys && counts == FacetCounts(table, base, kept, keys)
    ensures CountsRight(table, base, paths, bindings[i], counts)
  {
    var a := bindings[i];
    forall value | value in Choices(a)
      ensures Lookup(counts, a.key, value) == CountIfChosen(table, base, paths, a, value)
    {
      CarriersAreMatches(reg, typed, table, base, kept, a, value);
      LookupCounts(table, base, kept, keys, a.key, value);
    }
  }

  // Replacing one key's counts touches no other key.
  lemma Recounted(table: Table, base: set<Id>, paths: seq<AttrPath>, a: Attribute, counts: Counts, key: string,
                  cnt: Counts)
    requires key in cnt
    requires CountsRight(table, base, paths, a, if a.key == key then cnt else counts)
    ensures CountsRight(table, base, paths, a, counts[key := cnt[key]])
  {
  }

  ghost predicate AllRightBut(table: Table, base: set<Id>, paths: seq<AttrPath>, bindings: seq<Attribute>,
                              counts: Counts, todo: set<string>) {
    forall i :: 0 <= i < |bindings| && Countable(bindings[i]) && bindings[i].key !in todo ==>
      CountsRight(table, base, paths, bindings[i], counts)
  }

  ghost predicate RangesRightBut(table: Table, base: set<Id>, paths: seq<AttrPath>, bindings: seq<Attribute>,
                                 ranges: Ranges, todo: set<string>) {
    forall i :: 0 <= i < |bindings| && Ranged(bindings[i]) && bindings[i].key !in todo ==>
      LookupRange(ranges, bindings[i].key) == ShownRange(table, base, paths, bindings[i])
  }

  // The keys nobody filters on, by the query that covers them.
  method UnfilteredKeys(bindings: seq<Attribute>, own: set<string>)
    returns (enumKeys: set<string>, numKeys: set<string>)
    ensures forall i :: 0 <= i < |bindings| && bindings[i].key !in own ==>
      (Countable(bindings[i]) ==> bindings[i].key in enumKeys) && (Ranged(bindings[i]) ==> bindings[i].key in numKeys)
  {
    enumKeys, numKeys := {}, {};
    for i := 0 to |bindings|
      invariant forall j :: 0 <= j < i && bindings[j].key !in own ==>
        (Countable(bindings[j]) ==> bindings[j].key in enumKeys) && (Ranged(bindings[j]) ==> bindings[j].key in numKeys)
    {
      if bindings[i].key !in own {
        if Countable(bindings[i]) {
          enumKeys := enumKeys + {bindings[i].key};
        } else if Ranged(bindings[i]) {
          numKeys := numKeys + {bindings[i].key};
        }
      }
    }
  }

  // One query counts every facet nobody filters on, another finds every such range.
  method CountUnfiltered(ghost reg: Registry, ghost typed: map<Id, TypedProduct>, table: Table, base: set<Id>,
                         paths: seq<AttrPath>, bindings: seq<Attribute>)
    returns (counts: Counts, ranges: Ranges)
    requires SoundRegistry(reg) && TableStored(reg, typed, table) && BindingsOf(reg, bindings)
    requires forall i :: 0 <= i < |paths| ==> paths[i].key != ""
    ensures AllRightBut(table, base, paths, bindings, counts, KeysOf(paths))
    ensures RangesRightBut(table, base, paths, bindings, ranges, KeysOf(paths))
  {
    var own := KeysOf(paths);
    var enumKeys, numKeys := UnfilteredKeys(bindings, own);
    var all := FilterExcept(paths, "");
    KeptAll(paths, "");
    counts := FacetCounts(table, base, all, enumKeys);
    ranges := FacetRanges(table, base, all, numKeys);
    forall i | 0 <= i < |bindings| && bindings[i].key !in own
      ensures Countable(bindings[i]) ==> CountsRight(table, base, paths, bindings[i], counts)
      ensures Ranged(bindings[i]) ==>
        LookupRange(ranges, bindings[i].key) == ShownRange(table, base, paths, bindings[i])
    {
      UnfilteredRight(reg, typed, table, base, paths, bindings, i, enumKeys, numKeys);
    }
  }

  lemma UnfilteredRight(reg: Registry, typed: map<Id, TypedProduct>, table: Table, base: set<Id>, paths: seq<AttrPath>,
                        bindings: seq<Attribute>, i: nat, enumKeys: set<string>, numKeys: set<string>)
    requires SoundRegistry(reg) && TableStored(reg, typed, table) && BindingsOf(reg, bindings)
    requires i < |bindings| && bindings[i].key !in KeysOf(paths)
    requires Countable(bindings[i]) ==> bindings[i].key in enumKeys
    requires Ranged(bindings[i]) ==> bindings[i].key in numKeys
    ensures Countable(bindings[i]) ==>
      CountsRight(table, base, paths, bindings[i], FacetCounts(table, base, PathsOf(paths), enumKeys))
    ensures Ranged(bindings[i]) ==>
      LookupRange(FacetRanges(table, base, PathsOf(paths), numKeys), bindings[i].key) ==
      ShownRange(table, base, paths, bindings[i])
  {
    forall k | 0 <= k < |paths|
      ensures paths[k].key != bindings[i].key
    {
      assert paths[k].key in KeysOf(paths);
    }
    KeptAll(paths, bindings[i].key);
    if Countable(bindings[i]) {
      QueryCountsRight(reg, typed, table, base, paths, bindings, i, enumKeys, PathsOf(paths),
        FacetCounts(table, base, PathsOf(paths), enumKeys));
    }
  }

  // Counts one filtered facet again without its own filter.
  method Recount(ghost reg: Registry, ghost typed: map<Id, TypedProduct>, table: Table, base: set<Id>,
                 paths: seq<AttrPath>,
                 bindings: seq<Attribute>, key: string, ghost todo: set<string>, counts: Counts)
    returns (better: Counts)
    requires SoundRegistry(reg) && TableStored(reg, typed, table) && BindingsOf(reg, bindings)
    requires AllRightBut(table, base, paths, bindings, counts, todo)
    ensures AllRightBut(table, base, paths, bindings, better, todo - {key})
  {
    var kept := FilterExcept(paths, key);
    var cnt := FacetCounts(table, base, kept, {key});
    better := counts[key := cnt[key]];
    forall i | 0 <= i < |bindings| && Countable(bindings[i]) && bindings[i].key !in todo - {key}
      ensures CountsRight(table, base, paths, bindings[i], better)
    {
      if bindings[i].key == key {
        QueryCountsRight(reg, typed, table, base, paths, bindings, i, {key}, kept, cnt);
      }
      Recounted(table, base, paths, bindings[i], counts, key, cnt);
    }
  }

  // Finds one filtered range again without its own filter. Reading a Go map at an absent key
  // gives the zero value, which is stored as if it had been found.
  method RangeAgain(table: Table, base: set<Id>, paths: seq<AttrPath>, bindings: seq<Attribute>, key: string,
                    ghost todo: set<string>, ranges: Ranges)
    returns (better: Ranges)
    requires key in KeysOf(paths) && RangesRightBut(table, base, paths, bindings, ranges, todo)
    ensures RangesRightBut(table, base, paths, bindings, better, todo - {key})
  {
    var kept := FilterExcept(paths, key);
    var r := FacetRanges(table, base, kept, {key});
    better := ranges[key := if key in r then r[key] else Range(0.0, 0.0)];
  }

  function BindingOf(bindings: seq<Attribute>, key: string): (a: Option<Attribute>)
    ensures a.Some? ==> a.value in bindings && a.value.key == key
    ensures a.None? ==> forall i :: 0 <= i < |bindings| ==> bindings[i].key != key
  {
    if bindings == [] then None
    else if bindings[|bindings| - 1].key == key then Some(bindings[|bindings| - 1])
    else BindingOf(bindings[..|bindings| - 1], key)
  }

  // A key that no countable binding has needs no second count.
  lemma CountsDone(table: Table, base: set<Id>, paths: seq<AttrPath>, bindings: seq<Attribute>, counts: Counts,
                   todo: set<string>, key: string)
    requires AllRightBut(table, base, paths, bindings, counts, todo)
    requires forall i :: 0 <= i < |bindings| && bindings[i].key == key ==> !Countable(bindings[i])
    ensures AllRightBut(table, base, paths, bindings, counts, todo - {key})
  {
  }

  lemma RangesDone(table: Table, base: set<Id>, paths: seq<AttrPath>, bindings: seq<Attribute>, ranges: Ranges,
                   todo: set<string>, key: string)
    requires RangesRightBut(table, base, paths, bindings, ranges, todo)
    requires forall i :: 0 <= i < |bindings| && bindings[i].key == key ==> !Ranged(bindings[i])
    ensures RangesRightBut(table, base, paths, bindings, ranges, todo - {key})
  {
  }

  // The second query for a key filtered on; a text or unlisted attribute needs none.
  method QueryAgain(ghost reg: Registry, ghost typed: map<Id, TypedProduct>, table: Table, base: set<Id>,
                    paths: seq<AttrPath>,
                    bindings: seq<Attribute>, key: string, ghost todo: set<string>, counts: Counts, ranges: Ranges)
    returns (counts': Counts, ranges': Ranges)
    requires SoundRegistry(reg) && TableStored(reg, typed, table) && BindingsOf(reg, bindings)
    requires key in KeysOf(paths) && AllRightBut(table, base, paths, bindings, counts, todo)
    requires RangesRightBut(table, base, paths, bindings, ranges, todo)
    ensures AllRightBut(table, base, paths, bindings, counts', todo - {key})
    ensures RangesRightBut(table, base, paths, bindings, ranges', todo - {key})
  {
    counts', ranges' := counts, ranges;
    var b := BindingOf(bindings, key);
    if b.Some? && Ranged(b.value) {
      ranges' := RangeAgain(table, base, paths, bindings, key, todo, ranges);
      CountsDone(table, base, paths, bindings, counts, todo, key);
    } else if b.Some? && Countable(b.value) {
      counts' := Recount(reg, typed, table, base, paths, bindings, key, todo, counts);
      RangesDone(table, base, paths, bindings, ranges, todo, key);
    } else {
      CountsDone(table, base, paths, bindings, counts, todo, key);
      RangesDone(table, base, paths, bindings, ranges, todo, key);
    }
  }

  // Each filtered facet is counted, or its range found, again without its own filter: every
  // count is that of the products offering the choice under the other filters.
  method CountFacets(ghost reg: Registry, ghost typed: map<Id, TypedProduct>, table: Table, base: set<Id>,
                     ghost filters: seq<AttributeFilter>, ghost num: NumberReader, paths: seq<AttrPath>,
                     bindings: seq<Attribute>)
    returns (counts: Counts, ranges: Ranges)
    requires SoundRegistry(reg) && TableStored(reg, typed, table) && BindingsOf(reg, bindings)
    requires PathsFrom(reg, filters, num, paths)
    ensures forall i, value :: 0 <= i < |bindings| && IsChoice(bindings[i], value) ==>
      Lookup(counts, bindings[i].key, value) == |Offering(reg, typed, base, filters, num, bindings[i], value)|
    ensures forall i :: 0 <= i < |bindings| && IsNumeric(bindings[i]) ==>
      RangeMeans(reg, typed, base, filters, num, bindings[i], LookupRange(ranges, bindings[i].key))
    ensures AllRightBut(table, base, paths, bindings, counts, {})
    ensures RangesRightBut(table, base, paths, bindings, ranges, {})
  {
    KeysNamed(reg, filters, num, paths);
    counts, ranges := CountUnfiltered(reg, typed, table, base, paths, bindings);
    var todo := KeysOf(paths);
    while todo != {}
      invariant todo <= KeysOf(paths)
      invariant AllRightBut(table, base, paths, bindings, counts, todo)
      invariant RangesRightBut(table, base, paths, bindings, ranges, todo)
      decreases |todo|
    {
      var key :| key in todo;
      counts, ranges := QueryAgain(reg, typed, table, base, paths, bindings, key, todo, counts, ranges);
      todo := todo - {key};
    }
    forall i, value | 0 <= i < |bindings| && IsChoice(bindings[i], value)
      ensures Lookup(counts, bindings[i].key, value) == |Offering(reg, typed, base, filters, num, bindings[i], value)|
    {
      ChoicesAre(bindings[i], value);
      CountMeans(reg, typed, table, base, filters, num, paths, bindings[i], value);
    }
    forall i | 0 <= i < |bindings| && IsNumeric(bindings[i])
      ensures RangeMeans(reg, typed, base, filters, num, bindings[i], LookupRange(ranges, bindings[i].key))
    {
      ShownRangeMeans(reg, typed, table, base, filters, num, paths, bindings[i]);
    }
  }

  method ValuesFor(ghost table: Table, ghost base: set<Id>, ghost paths: seq<AttrPath>, a: Attribute, counts: Counts)
    returns (values: seq<FacetValue>)
    requires CountsRight(table, base, paths, a, counts)
    ensures values == ChosenValues(table, base, paths, a, Choices(a))
  {
    var choices := Choices(a);
    values := [];
    for k := 0 to |choices|
      invariant values == ChosenValues(table, base, paths, a, choices[..k])
    {
      assert choices[..k + 1][..k] == choices[..k];
      var n := Lookup(counts, a.key, choices[k]);
      if n > 0 {
        values := values + [FacetValue(choices[k], n)];
      }
    }
    assert choices[..|choices|] == choices;
  }

  method FacetFor(ghost table: Table, ghost base: set<Id>, ghost paths: seq<AttrPath>, a: Attribute, counts: Counts,
                  ranges: Ranges)
    returns (facet: seq<Facet>)
    requires Countable(a) ==> CountsRight(table, base, paths, a, counts)
    requires Ranged(a) ==> LookupRange(ranges, a.key) == ShownRange(table, base, paths, a)
    ensures facet == ExpectedFacet(table, base, paths, a)
  {
    if Ranged(a) {
      var range := LookupRange(ranges, a.key);
      return if range.Some? then [Facet(a.key, [], range)] else [];
    }
    if Countable(a) {
      var values := ValuesFor(table, base, paths, a, counts);
      return if values != [] then [Facet(a.key, values, None)] else [];
    }
    return [];
  }

  // ---- what a range tells ---------------------------------------------------------------

  // Some variant that meets the paths has this typed value for the attribute.
  ghost predicate OfferedUnder(typed: map<Id, TypedProduct>, table: Table, base: set<Id>, paths: seq<Path>,
                               a: Attribute, v: AttributeValue) {
    exists id, n :: OfferedUnderBy(typed, table, base, paths, a, v, id, n)
  }

  ghost predicate OfferedUnderBy(typed: map<Id, TypedProduct>, table: Table, base: set<Id>, paths: seq<Path>,
                                 a: Attribute, v: AttributeValue, id: Id, n: nat) {
    && id in base && id in table && id in typed && n < |table[id].variants| && n < |typed[id].variants|
    && VariantMatches(table[id].attrs, table[id].variants[n], paths)
    && a.key in typed[id].product + typed[id].variants[n]
    && (typed[id].product + typed[id].variants[n])[a.key] == v
  }

  lemma EndsOfStored(a: Attribute, v: AttributeValue, j: Json)
    requires Ranged(a) && ValidValue(a, v) && Stores(a, v, j)
    ensures LowEnd(j) == Some(LowOf(v)) && HighEnd(j) == Some(HighOf(v))
  {
  }

  lemma JoinedValue(reg: Registry, p: TypedProduct, row: ProductRow, n: nat, a: Attribute)
    requires RowStored(reg, p, row) && n < |row.variants| && a.key in reg && reg[a.key] == a && Ranged(a)
    ensures a.key in p.product + p.variants[n] <==> a.key in row.attrs + row.variants[n]
    ensures a.key in row.attrs + row.variants[n] ==>
      var v, j := (p.product + p.variants[n])[a.key], (row.attrs + row.variants[n])[a.key];
      ValidValue(a, v) && LowEnd(j) == Some(LowOf(v)) && HighEnd(j) == Some(HighOf(v))
  {
    CombinedProjection(reg, p.product, p.variants[n], row.attrs, row.variants[n]);
    if a.key in row.attrs + row.variants[n] {
      EndsOfStored(a, (p.product + p.variants[n])[a.key], (row.attrs + row.variants[n])[a.key]);
    }
  }

  lemma OfferedHere(reg: Registry, typed: map<Id, TypedProduct>, table: Table, base: set<Id>, paths: seq<Path>,
                    a: Attribute, v: AttributeValue, id: Id, n: nat)
    returns (j: Json)
    requires TableStored(reg, typed, table) && a.key in reg && reg[a.key] == a && Ranged(a)
    requires OfferedUnderBy(typed, table, base, paths, a, v, id, n)
    ensures ValidValue(a, v)
    ensures j in ValuesUnder(table, base, paths, a.key) && LowEnd(j) == Some(LowOf(v)) && HighEnd(j) == Some(HighOf(v))
  {
    JoinedValue(reg, typed[id], table[id], n, a);
    j := (table[id].attrs + table[id].variants[n])[a.key];
  }

  // A typed value offered is stored under the key, with the same ends.
  lemma OfferedIsUnder(reg: Registry, typed: map<Id, TypedProduct>, table: Table, base: set<Id>, paths: seq<Path>,
                       a: Attribute, v: AttributeValue)
    returns (j: Json)
    requires TableStored(reg, typed, table) && a.key in reg && reg[a.key] == a && Ranged(a)
    requires OfferedUnder(typed, table, base, paths, a, v)
    ensures ValidValue(a, v)
    ensures j in ValuesUnder(table, base, paths, a.key) && LowEnd(j) == Some(LowOf(v)) && HighEnd(j) == Some(HighOf(v))
  {
    var id, n :| OfferedUnderBy(typed, table, base, paths, a, v, id, n);
    j := OfferedHere(reg, typed, table, base, paths, a, v, id, n);
  }

  lemma UnderIsOffered(reg: Registry, typed: map<Id, TypedProduct>, table: Table, base: set<Id>, paths: seq<Path>,
                       a: Attribute, j: Json)
    returns (v: AttributeValue)
    requires TableStored(reg, typed, table) && a.key in reg && reg[a.key] == a && Ranged(a)
    requires j in ValuesUnder(table, base, paths, a.key)
    ensures OfferedUnder(typed, table, base, paths, a, v) && LowEnd(j) == Some(LowOf(v)) &&
      HighEnd(j) == Some(HighOf(v))
  {
    var id, n :| id in base && id in table && 0 <= n < |table[id].variants|
      && VariantMatches(table[id].attrs, table[id].variants[n], paths)
      && a.key in table[id].attrs + table[id].variants[n]
      && (table[id].attrs + table[id].variants[n])[a.key] == j;
    assert RowStored(reg, typed[id], table[id]);
    JoinedValue(reg, typed[id], table[id], n, a);
    v := (typed[id].product + typed[id].variants[n])[a.key];
    assert OfferedUnderBy(typed, table, base, paths, a, v, id, n);
  }

  // r is the tightest range around every value offered.
  ghost predicate TightestUnder(typed: map<Id, TypedProduct>, table: Table, base: set<Id>, paths: seq<Path>,
                                a: Attribute, r: Range) {
    && (forall v :: OfferedUnder(typed, table, base, paths, a, v) ==> r.min <= LowOf(v) && HighOf(v) <= r.max)
    && (exists v :: OfferedUnder(typed, table, base, paths, a, v) && LowOf(v) == r.min)
    && (exists v :: OfferedUnder(typed, table, base, paths, a, v) && HighOf(v) == r.max)
  }

  // The range found is there exactly when a value is offered under the paths, and is the
  // tightest around all of them.
  lemma RangeIsTightest(reg: Registry, typed: map<Id, TypedProduct>, table: Table, base: set<Id>, paths: seq<Path>,
                        a: Attribute)
    requires TableStored(reg, typed, table) && a.key in reg && reg[a.key] == a && Ranged(a)
    ensures var r := RangeOf(ValuesUnder(table, base, paths, a.key));
      && (r.None? <==> forall v :: !OfferedUnder(typed, table, base, paths, a, v))
      && (r.Some? ==> TightestUnder(typed, table, base, paths, a, r.value))
  {
    var values := ValuesUnder(table, base, paths, a.key);
    var r := RangeOf(values);
    forall v | OfferedUnder(typed, table, base, paths, a, v)
      ensures r.Some? && r.value.min <= LowOf(v) && HighOf(v) <= r.value.max
    {
      var j := OfferedIsUnder(reg, typed, table, base, paths, a, v);
      assert LowOf(v) in LowEnds(values) && HighOf(v) in HighEnds(values);
    }
    if r.Some? {
      var jl :| jl in values && LowEnd(jl) == Some(r.value.min);
      var jh :| jh in values && HighEnd(jh) == Some(r.value.max);
      var vl := UnderIsOffered(reg, typed, table, base, paths, a, jl);
      var vh := UnderIsOffered(reg, typed, table, base, paths, a, jh);
    }
  }

  // What is shown for a numeric attribute is right: nothing when no variant under the other
  // filters has a value, and the tightest range when one has.
  ghost predicate RangeRight(typed: map<Id, TypedProduct>, table: Table, base: set<Id>, kept: seq<Path>, a: Attribute,
                             shown: Option<Range>) {
    match shown
    case None => forall v :: !OfferedUnder(typed, table, base, kept, a, v)
    case Some(r) => TightestUnder(typed, table, base, kept, a, r)
  }

  lemma OfferedIffStored(reg: Registry, typed: map<Id, TypedProduct>, table: Table, base: set<Id>, paths: seq<Path>,
                         a: Attribute)
    requires TableStored(reg, typed, table) && a.key in reg && reg[a.key] == a && Ranged(a)
    ensures (exists v :: OfferedUnder(typed, table, base, paths, a, v)) <==>
      ValuesUnder(table, base, paths, a.key) != {}
  {
    var values := ValuesUnder(table, base, paths, a.key);
    if values != {} {
      var j :| j in values;
      var v := UnderIsOffered(reg, typed, table, base, paths, a, j);
    }
    if v :| OfferedUnder(typed, table, base, paths, a, v) {
      var j := OfferedIsUnder(reg, typed, table, base, paths, a, v);
    }
  }

  // It is right exactly when the attribute is not filtered on or some stored value is left
  // under the other filters; otherwise a range from 0 to 0 is shown that no product has.
  lemma ShownRangeRight(reg: Registry, typed: map<Id, TypedProduct>, table: Table, base: set<Id>, paths: seq<AttrPath>,
                        a: Attribute)
    requires TableStored(reg, typed, table) && a.key in reg && reg[a.key] == a && Ranged(a)
    ensures RangeRight(typed, table, base, Kept(paths, a.key), a, ShownRange(table, base, paths, a)) <==>
      a.key !in KeysOf(paths) || ValuesUnder(table, base, Kept(paths, a.key), a.key) != {}
  {
    var kept := Kept(paths, a.key);
    var observed := RangeOf(ValuesUnder(table, base, kept, a.key));
    RangeIsTightest(reg, typed, table, base, kept, a);
    OfferedIffStored(reg, typed, table, base, kept, a);
    assert observed == ObservedRange(table, base, paths, a);
    assert RangeRight(typed, table, base, kept, a, observed);
    assert observed.None? ==> !TightestUnder(typed, table, base, kept, a, Range(0.0, 0.0));
  }

  // An empty shop, filtered on weight: the facet reads 0 to 0.
  lemma ZeroRangeShown() returns (a: Attribute, paths: seq<AttrPath>)
    ensures Ranged(a) && ExpectedFacet(map[], {}, paths, a) == [Facet(a.key, [], Some(Range(0.0, 0.0)))]
  {
    a := Attribute(1, "weight", Number, true, []);
    paths := [AttrPath("weight", Path("weight", AtMost(Current, 5.0)))];
    assert paths[0].key in KeysOf(paths);
    assert ValuesUnder(map[], {}, Kept(paths, "weight"), "weight") == {};
  }
  // ---- facets and filters as they were given --------------------------------------------

  // The paths are those the filters compile to.
  ghost predicate PathsFrom(reg: Registry, filters: seq<AttributeFilter>, num: NumberReader, paths: seq<AttrPath>) {
    && |paths| == |filters| && Compiled(reg, filters, num, PathsOf(paths))
    && forall i :: 0 <= i < |paths| ==> paths[i].key == filters[i].key
  }

  lemma PathMeansFilter(reg: Registry, vals: Typed, fields: Fields, filters: seq<AttributeFilter>, num: NumberReader,
                        paths: seq<AttrPath>, i: nat)
    requires SoundRegistry(reg) && PathsFrom(reg, filters, num, paths) && Projects(reg, vals, fields) && i < |filters|
    ensures paths[i].key == filters[i].key
    ensures Exists(JObj(fields), paths[i].path) <==> FilterSatisfied(reg, vals, filters[i], num)
  {
    assert PathsOf(paths)[i] == paths[i].path;
    FilterMeaning(reg, vals, fields, filters[i], num, paths[i].path);
  }

  lemma KeptIfOthers(reg: Registry, vals: Typed, fields: Fields, filters: seq<AttributeFilter>, num: NumberReader,
                     paths: seq<AttrPath>, key: string, q: Path)
    requires SoundRegistry(reg) && PathsFrom(reg, filters, num, paths) && Projects(reg, vals, fields)
    requires OthersSatisfied(reg, vals, filters, num, key) && q in Kept(paths, key)
    ensures Exists(JObj(fields), q)
  {
    KeptMembers(paths, key);
    var i :| 0 <= i < |paths| && paths[i].key != key && paths[i].path == q;
    PathMeansFilter(reg, vals, fields, filters, num, paths, i);
    assert filters[i] in filters;
  }

  lemma OtherIfKept(reg: Registry, vals: Typed, fields: Fields, filters: seq<AttributeFilter>, num: NumberReader,
                    paths: seq<AttrPath>, key: string, f: AttributeFilter)
    requires SoundRegistry(reg) && PathsFrom(reg, filters, num, paths) && Projects(reg, vals, fields)
    requires (forall q :: q in Kept(paths, key) ==> Exists(JObj(fields), q)) && f in filters && f.key != key
    ensures FilterSatisfied(reg, vals, f, num)
  {
    KeptMembers(paths, key);
    var i :| 0 <= i < |filters| && filters[i] == f;
    PathMeansFilter(reg, vals, fields, filters, num, paths, i);
    assert paths[i].path in Kept(paths, key);
  }

  lemma KeptHold(reg: Registry, vals: Typed, fields: Fields, filters: seq<AttributeFilter>, num: NumberReader,
                 paths: seq<AttrPath>, key: string)
    requires SoundRegistry(reg) && PathsFrom(reg, filters, num, paths) && Projects(reg, vals, fields)
    ensures (forall q :: q in Kept(paths, key) ==> Exists(JObj(fields), q)) <==>
      OthersSatisfied(reg, vals, filters, num, key)
  {
    if forall q :: q in Kept(paths, key) ==> Exists(JObj(fields), q) {
      forall f | f in filters && f.key != key
        ensures FilterSatisfied(reg, vals, f, num)
      {
        OtherIfKept(reg, vals, fields, filters, num, paths, key, f);
      }
    }
    if OthersSatisfied(reg, vals, filters, num, key) {
      forall q | q in Kept(paths, key)
        ensures Exists(JObj(fields), q)
      {
        KeptIfOthers(reg, vals, fields, filters, num, paths, key, q);
      }
    }
  }

  lemma MatchesEach(pAttrs: Fields, vAttrs: Fields, paths: seq<Path>)
    ensures VariantMatches(pAttrs, vAttrs, paths) <==> forall q :: q in paths ==> Exists(JObj(pAttrs + vAttrs), q)
  {
  }

  // The paths kept hold of a variant exactly when it satisfies every filter on another attribute.
  lemma KeptMeansOthers(reg: Registry, product: Typed, variant: Typed, pAttrs: Fields, vAttrs: Fields,
                        filters: seq<AttributeFilter>, num: NumberReader, paths: seq<AttrPath>, key: string)
    requires SoundRegistry(reg) && PathsFrom(reg, filters, num, paths)
    requires Projects(reg, product, pAttrs) && Projects(reg, variant, vAttrs)
    ensures VariantMatches(pAttrs, vAttrs, Kept(paths, key)) <==>
      OthersSatisfied(reg, product + variant, filters, num, key)
  {
    CombinedProjection(reg, product, variant, pAttrs, vAttrs);
    KeptHold(reg, product + variant, pAttrs + vAttrs, filters, num, paths, key);
    MatchesEach(pAttrs, vAttrs, Kept(paths, key));
  }

  lemma ChoicesAre(a: Attribute, value: string)
    ensures Countable(a) && value in Choices(a) <==> IsChoice(a, value)
  {
    if o :| o in a.options && o.value == value {
      var i :| 0 <= i < |a.options| && a.options[i] == o;
      assert UsesOptions(a.dataType) ==> Choices(a)[i] == value;
    }
  }

  lemma ChoiceSatisfied(a: Attribute, v: AttributeValue, value: string, num: NumberReader)
    requires ValidValue(a, v) && Countable(a) && value in Choices(a)
    ensures Satisfies(a, AttributeFilter(a.key, [value], None, None, None), num, v) <==>
      HasChoice(a, map[a.key := v], value)
  {
  }

  // The path of a choice holds of a variant exactly when it has the choice.
  lemma ChoiceMeans(reg: Registry, vals: Typed, fields: Fields, a: Attribute, value: string, num: NumberReader)
    requires SoundRegistry(reg) && Projects(reg, vals, fields)
    requires a.key in reg && reg[a.key] == a && Countable(a) && value in Choices(a)
    ensures Exists(JObj(fields), ChoicePath(a, value)) <==> HasChoice(a, vals, value)
  {
    ChoicePathIsTheFilter(a, value, num);
    FilterMeaning(reg, vals, fields, AttributeFilter(a.key, [value], None, None, None), num, ChoicePath(a, value));
    if a.key in vals {
      ChoiceSatisfied(a, vals[a.key], value, num);
    }
  }

  lemma ProductOffers(reg: Registry, p: TypedProduct, row: ProductRow, filters: seq<AttributeFilter>, num: NumberReader,
                      paths: seq<AttrPath>, a: Attribute, value: string)
    requires SoundRegistry(reg) && RowStored(reg, p, row) && PathsFrom(reg, filters, num, paths)
    requires a.key in reg && reg[a.key] == a && Countable(a) && value in Choices(a)
    ensures ProductMatches(row.attrs, row.variants, Kept(paths, a.key) + [ChoicePath(a, value)]) <==>
      OffersChoice(reg, p, filters, num, a, value)
  {
    forall n | 0 <= n < |row.variants|
      ensures VariantMatches(row.attrs, row.variants[n], Kept(paths, a.key) + [ChoicePath(a, value)]) <==>
        OthersSatisfied(reg, p.product + p.variants[n], filters, num, a.key) &&
        HasChoice(a, p.product + p.variants[n], value)
    {
      KeptMeansOthers(reg, p.product, p.variants[n], row.attrs, row.variants[n], filters, num, paths, a.key);
      CombinedProjection(reg, p.product, p.variants[n], row.attrs, row.variants[n]);
      ChoiceMeans(reg, p.product + p.variants[n], row.attrs + row.variants[n], a, value, num);
      MatchesOneMore(row.attrs, row.variants[n], Kept(paths, a.key), ChoicePath(a, value));
    }
  }

  // The listing behind a choice holds the products that offer it.
  lemma CountMeans(reg: Registry, typed: map<Id, TypedProduct>, table: Table, base: set<Id>,
                   filters: seq<AttributeFilter>, num: NumberReader, paths: seq<AttrPath>, a: Attribute, value: string)
    requires SoundRegistry(reg) && TableStored(reg, typed, table) && PathsFrom(reg, filters, num, paths)
    requires a.key in reg && reg[a.key] == a && Countable(a) && value in Choices(a)
    ensures CountIfChosen(table, base, paths, a, value) == |Offering(reg, typed, base, filters, num, a, value)|
  {
    forall id | id in table
      ensures ProductMatches(table[id].attrs, table[id].variants, Kept(paths, a.key) + [ChoicePath(a, value)]) <==>
        OffersChoice(reg, typed[id], filters, num, a, value)
    {
      ProductOffers(reg, typed[id], table[id], filters, num, paths, a, value);
    }
    assert Matching(table, base, Kept(paths, a.key) + [ChoicePath(a, value)]) ==
      Offering(reg, typed, base, filters, num, a, value);
  }

  lemma OfferedMeans(reg: Registry, typed: map<Id, TypedProduct>, table: Table, base: set<Id>,
                     filters: seq<AttributeFilter>, num: NumberReader, paths: seq<AttrPath>, a: Attribute,
                     v: AttributeValue)
    requires SoundRegistry(reg) && TableStored(reg, typed, table) && PathsFrom(reg, filters, num, paths)
    ensures OfferedUnder(typed, table, base, Kept(paths, a.key), a, v) <==>
      Offered(reg, typed, base, filters, num, a, v)
  {
    forall id, n: nat | id in table && n < |table[id].variants|
      ensures OfferedUnderBy(typed, table, base, Kept(paths, a.key), a, v, id, n) <==>
        id in base && OfferedBy(reg, typed[id], filters, num, a, v, n)
    {
      var p, row := typed[id], table[id];
      assert RowStored(reg, p, row);
      KeptMeansOthers(reg, p.product, p.variants[n], row.attrs, row.variants[n], filters, num, paths, a.key);
    }
    if OfferedUnder(typed, table, base, Kept(paths, a.key), a, v) {
      var id, n :| OfferedUnderBy(typed, table, base, Kept(paths, a.key), a, v, id, n);
      assert OfferedBy(reg, typed[id], filters, num, a, v, n);
    }
    if Offered(reg, typed, base, filters, num, a, v) {
      var id, n :| id in base && id in typed && OfferedBy(reg, typed[id], filters, num, a, v, n);
      assert RowStored(reg, typed[id], table[id]);
      assert OfferedUnderBy(typed, table, base, Kept(paths, a.key), a, v, id, n);
    }
  }

  lemma FilteredOn(filters: seq<AttributeFilter>, paths: seq<AttrPath>, key: string)
    requires |paths| == |filters| && forall i :: 0 <= i < |paths| ==> paths[i].key == filters[i].key
    ensures key in KeysOf(paths) <==> exists f :: f in filters && f.key == key
  {
    if f :| f in filters && f.key == key {
      var i :| 0 <= i < |filters| && filters[i] == f;
      assert paths[i].key in KeysOf(paths);
    }
    if key in KeysOf(paths) {
      var i :| 0 <= i < |paths| && paths[i].key == key;
      assert filters[i] in filters;
    }
  }

  lemma TightestMeans(reg: Registry, typed: map<Id, TypedProduct>, table: Table, base: set<Id>,
                      filters: seq<AttributeFilter>, num: NumberReader, kept: seq<Path>, a: Attribute, r: Range)
    requires forall v :: OfferedUnder(typed, table, base, kept, a, v) <==> Offered(reg, typed, base, filters, num, a, v)
    requires TightestUnder(typed, table, base, kept, a, r)
    ensures Tightest(reg, typed, base, filters, num, a, r)
  {
    var low :| OfferedUnder(typed, table, base, kept, a, low) && LowOf(low) == r.min;
    var high :| OfferedUnder(typed, table, base, kept, a, high) && HighOf(high) == r.max;
    assert Offered(reg, typed, base, filters, num, a, low) && Offered(reg, typed, base, filters, num, a, high);
  }

  // What is shown for a numeric attribute is what the filters and the values say.
  lemma ShownRangeMeans(reg: Registry, typed: map<Id, TypedProduct>, table: Table, base: set<Id>,
                        filters: seq<AttributeFilter>, num: NumberReader, paths: seq<AttrPath>, a: Attribute)
    requires SoundRegistry(reg) && TableStored(reg, typed, table) && PathsFrom(reg, filters, num, paths)
    requires a.key in reg && reg[a.key] == a && Ranged(a)
    ensures RangeMeans(reg, typed, base, filters, num, a, ShownRange(table, base, paths, a))
  {
    var kept := Kept(paths, a.key);
    var observed := ObservedRange(table, base, paths, a);
    FilteredOn(filters, paths, a.key);
    RangeIsTightest(reg, typed, table, base, kept, a);
    forall v
      ensures OfferedUnder(typed, table, base, kept, a, v) <==> Offered(reg, typed, base, filters, num, a, v)
    {
      OfferedMeans(reg, typed, table, base, filters, num, paths, a, v);
    }
    if observed.Some? {
      TightestMeans(reg, typed, table, base, filters, num, kept, a, observed.value);
    }
  }

  lemma {:induction false} ExpectedFrom(table: Table, base: set<Id>, paths: seq<AttrPath>, bindings: seq<Attribute>,
                                        f: Facet) returns (i: nat)
    requires f in ExpectedFacets(table, base, paths, bindings)
    ensures i < |bindings| && f in ExpectedFacet(table, base, paths, bindings[i])
  {
    var n := |bindings| - 1;
    if f in ExpectedFacet(table, base, paths, bindings[n]) {
      i := n;
    } else {
      i := ExpectedFrom(table, base, paths, bindings[..n], f);
    }
  }

  lemma {:induction false} ExpectedHas(table: Table, base: set<Id>, paths: seq<AttrPath>, bindings: seq<Attribute>,
                                       i: nat, f: Facet)
    requires i < |bindings| && f in ExpectedFacet(table, base, paths, bindings[i])
    ensures f in ExpectedFacets(table, base, paths, bindings)
  {
    var n := |bindings| - 1;
    var before, last :=
      ExpectedFacets(table, base, paths, bindings[..n]), ExpectedFacet(table, base, paths, bindings[n]);
    assert ExpectedFacets(table, base, paths, bindings) == before + last;
    if i < n {
      assert bindings[..n][i] == bindings[i];
      ExpectedHas(table, base, paths, bindings[..n], i, f);
    }
  }

  lemma {:induction false} ChosenMembers(table: Table, base: set<Id>, paths: seq<AttrPath>, a: Attribute,
                                         choices: seq<string>)
    ensures forall value, n :: FacetValue(value, n) in ChosenValues(table, base, paths, a, choices) <==>
      value in choices && n > 0 && n == CountIfChosen(table, base, paths, a, value)
  {
    if choices != [] {
      var k := |choices| - 1;
      ChosenMembers(table, base, paths, a, choices[..k]);
      assert choices == choices[..k] + [choices[k]];
    }
  }

  lemma FacetSays(table: Table, base: set<Id>, paths: seq<AttrPath>, a: Attribute, f: Facet, value: string, n: nat)
    requires f in ExpectedFacet(table, base, paths, a)
    ensures f.key == a.key
    ensures FacetValue(value, n) in f.values <==>
      Countable(a) && value in Choices(a) && n > 0 && n == CountIfChosen(table, base, paths, a, value)
    ensures forall r :: f.range == Some(r) <==> Ranged(a) && ShownRange(table, base, paths, a) == Some(r)
  {
    ChosenMembers(table, base, paths, a, Choices(a));
  }

  // Choices are shown with the counts that go with them.
  lemma ExpectedCounts(table: Table, base: set<Id>, paths: seq<AttrPath>, bindings: seq<Attribute>, reg: Registry,
                       i: nat, value: string, n: nat)
    requires BindingsOf(reg, bindings) && i < |bindings| && IsChoice(bindings[i], value)
    ensures ShowsCount(ExpectedFacets(table, base, paths, bindings), bindings[i].key, value, n) <==>
      n > 0 && n == CountIfChosen(table, base, paths, bindings[i], value)
  {
    var facets, a := ExpectedFacets(table, base, paths, bindings), bindings[i];
    ChoicesAre(a, value);
    if f :| f in facets && f.key == a.key && FacetValue(value, n) in f.values {
      var j := ExpectedFrom(table, base, paths, bindings, f);
      FacetSays(table, base, paths, bindings[j], f, value, n);
    }
    if n > 0 && n == CountIfChosen(table, base, paths, a, value) {
      ChosenMembers(table, base, paths, a, Choices(a));
      var f := ExpectedFacet(table, base, paths, a)[0];
      FacetSays(table, base, paths, a, f, value, n);
      ExpectedHas(table, base, paths, bindings, i, f);
      assert f in facets && f.key == a.key && FacetValue(value, n) in f.values;
    }
  }

  lemma ExpectedRanges(table: Table, base: set<Id>, paths: seq<AttrPath>, bindings: seq<Attribute>, reg: Registry,
                       i: nat, r: Range)
    requires BindingsOf(reg, bindings) && i < |bindings| && IsNumeric(bindings[i])
    ensures ShowsRange(ExpectedFacets(table, base, paths, bindings), bindings[i].key, r) <==>
      ShownRange(table, base, paths, bindings[i]) == Some(r)
  {
    var facets, a := ExpectedFacets(table, base, paths, bindings), bindings[i];
    if f :| f in facets && f.key == a.key && f.range == Some(r) {
      var j := ExpectedFrom(table, base, paths, bindings, f);
      FacetSays(table, base, paths, bindings[j], f, "", 0);
    }
    if ShownRange(table, base, paths, a) == Some(r) {
      var f := ExpectedFacet(table, base, paths, a)[0];
      ExpectedHas(table, base, paths, bindings, i, f);
      assert f in facets && f.key == a.key && f.range == Some(r);
    }
  }

  lemma ExpectedCountsMean(reg: Registry, typed: map<Id, TypedProduct>, table: Table, base: set<Id>,
                           filters: seq<AttributeFilter>, num: NumberReader, paths: seq<AttrPath>,
                           bindings: seq<Attribute>)
    requires SoundRegistry(reg) && TableStored(reg, typed, table) && BindingsOf(reg, bindings)
    requires PathsFrom(reg, filters, num, paths)
    ensures CountsMean(reg, typed, base, filters, num, bindings, ExpectedFacets(table, base, paths, bindings))
  {
    var facets := ExpectedFacets(table, base, paths, bindings);
    forall i, value, n | 0 <= i < |bindings| && IsChoice(bindings[i], value)
      ensures ShowsCount(facets, bindings[i].key, value, n) <==>
        n > 0 && n == |Offering(reg, typed, base, filters, num, bindings[i], value)|
    {
      ExpectedCounts(table, base, paths, bindings, reg, i, value, n);
      ChoicesAre(bindings[i], value);
      CountMeans(reg, typed, table, base, filters, num, paths, bindings[i], value);
    }
    forall key, value, n | ShowsCount(facets, key, value, n)
      ensures exists i :: 0 <= i < |bindings| && bindings[i].key == key && IsChoice(bindings[i], value)
    {
      var f :| f in facets && f.key == key && FacetValue(value, n) in f.values;
      var i := ExpectedFrom(table, base, paths, bindings, f);
      FacetSays(table, base, paths, bindings[i], f, value, n);
      ChoicesAre(bindings[i], value);
    }
  }

  lemma ExpectedRangesMean(reg: Registry, typed: map<Id, TypedProduct>, table: Table, base: set<Id>,
                           filters: seq<AttributeFilter>, num: NumberReader, paths: seq<AttrPath>,
                           bindings: seq<Attribute>)
    requires SoundRegistry(reg) && TableStored(reg, typed, table) && BindingsOf(reg, bindings)
    requires PathsFrom(reg, filters, num, paths)
    ensures RangesMean(reg, typed, base, filters, num, bindings, ExpectedFacets(table, base, paths, bindings))
  {
    var facets := ExpectedFacets(table, base, paths, bindings);
    forall i | 0 <= i < |bindings| && IsNumeric(bindings[i])
      ensures exists shown ::
        && RangeMeans(reg, typed, base, filters, num, bindings[i], shown)
        && forall r :: ShowsRange(facets, bindings[i].key, r) <==> shown == Some(r)
    {
      var shown := ShownRange(table, base, paths, bindings[i]);
      ShownRangeMeans(reg, typed, table, base, filters, num, paths, bindings[i]);
      forall r
        ensures ShowsRange(facets, bindings[i].key, r) <==> shown == Some(r)
      {
        ExpectedRanges(table, base, paths, bindings, reg, i, r);
      }
    }
    forall key, r | ShowsRange(facets, key, r)
      ensures exists i :: 0 <= i < |bindings| && bindings[i].key == key && IsNumeric(bindings[i])
    {
      var f :| f in facets && f.key == key && f.range == Some(r);
      var i := ExpectedFrom(table, base, paths, bindings, f);
      FacetSays(table, base, paths, bindings[i], f, "", 0);
    }
  }

  lemma PicksMore(xs: seq<string>, ys: seq<string>, at: seq<nat>, y: string)
    requires Picks(xs, ys, at)
    ensures Picks(xs, ys + [y], at) && Picks(xs + [y], ys + [y], at + [|ys|])
  {
  }

  lemma {:induction false} ChosenInOrder(table: Table, base: set<Id>, paths: seq<AttrPath>, a: Attribute,
                                         choices: seq<string>) returns (at: seq<nat>)
    ensures Picks(ValuesIn(Facet(a.key, ChosenValues(table, base, paths, a, choices), None)), choices, at)
  {
    if choices == [] {
      at := [];
    } else {
      var n := |choices| - 1;
      var before := ChosenValues(table, base, paths, a, choices[..n]);
      at := ChosenInOrder(table, base, paths, a, choices[..n]);
      PicksMore(ValuesIn(Facet(a.key, before, None)), choices[..n], at, choices[n]);
      assert choices == choices[..n] + [choices[n]];
      if CountIfChosen(table, base, paths, a, choices[n]) > 0 {
        at := at + [n];
        var fv := FacetValue(choices[n], CountIfChosen(table, base, paths, a, choices[n]));
        assert ValuesIn(Facet(a.key, before + [fv], None)) == ValuesIn(Facet(a.key, before, None)) + [choices[n]];
      }
    }
  }

  lemma {:induction false} FacetsInOrder(table: Table, base: set<Id>, paths: seq<AttrPath>, bindings: seq<Attribute>)
    returns (at: seq<nat>)
    ensures Picks(KeysIn(ExpectedFacets(table, base, paths, bindings)), BoundKeys(bindings), at)
  {
    if bindings == [] {
      at := [];
    } else {
      var n := |bindings| - 1;
      var before, last :=
        ExpectedFacets(table, base, paths, bindings[..n]), ExpectedFacet(table, base, paths, bindings[n]);
      at := FacetsInOrder(table, base, paths, bindings[..n]);
      PicksMore(KeysIn(before), BoundKeys(bindings[..n]), at, bindings[n].key);
      assert BoundKeys(bindings) == BoundKeys(bindings[..n]) + [bindings[n].key];
      if last == [] {
        assert before + last == before;
      } else {
        assert KeysIn(before + last) == KeysIn(before) + [bindings[n].key];
        at := at + [n];
      }
    }
  }

  lemma ExpectedInOrder(table: Table, base: set<Id>, paths: seq<AttrPath>, bindings: seq<Attribute>)
    ensures Ordered(bindings, ExpectedFacets(table, base, paths, bindings))
  {
    var facets := ExpectedFacets(table, base, paths, bindings);
    var at := FacetsInOrder(table, base, paths, bindings);
    forall f | f in facets
      ensures exists i ::
        0 <= i < |bindings| && bindings[i].key == f.key && InOrderOf(ValuesIn(f), ValueOrder(bindings[i]))
    {
      var i := ExpectedFrom(table, base, paths, bindings, f);
      var a := bindings[i];
      var places := ChosenInOrder(table, base, paths, a, Choices(a));
      assert Choices(a) == ValueOrder(a);
      if Countable(a) {
        assert ValuesIn(f) == ValuesIn(Facet(a.key, ChosenValues(table, base, paths, a, Choices(a)), None));
        assert Picks(ValuesIn(f), ValueOrder(a), places);
      } else {
        assert Picks(ValuesIn(f), ValueOrder(a), []);
      }
    }
  }

  // The facets of a category listing: every choice that would leave a product, with the exact
  // size of the listing it would leave, and every range observed under the other filters.
  method FacetsFor(ghost reg: Registry, ghost typed: map<Id, TypedProduct>, table: Table, base: set<Id>,
                   ghost filters: seq<AttributeFilter>, ghost num: NumberReader, paths: seq<AttrPath>,
                   bindings: seq<Attribute>)
    returns (facets: seq<Facet>)
    requires SoundRegistry(reg) && TableStored(reg, typed, table) && BindingsOf(reg, bindings)
    requires PathsFrom(reg, filters, num, paths)
    ensures CountsMean(reg, typed, base, filters, num, bindings, facets)
    ensures RangesMean(reg, typed, base, filters, num, bindings, facets)
    ensures Ordered(bindings, facets)
    ensures facets == ExpectedFacets(table, base, paths, bindings)
  {
    var counts, ranges := CountFacets(reg, typed, table, base, filters, num, paths, bindings);
    facets := [];
    for i := 0 to |bindings|
      invariant facets == ExpectedFacets(table, base, paths, bindings[..i])
    {
      assert bindings[..i + 1][..i] == bindings[..i];
      var facet := FacetFor(table, base, paths, bindings[i], counts, ranges);
      facets := facets + facet;
    }
    assert bindings[..|bindings|] == bindings;
    ExpectedCountsMean(reg, typed, table, base, filters, num, paths, bindings);
    ExpectedRangesMean(reg, typed, table, base, filters, num, paths, bindings);
    ExpectedInOrder(table, base, paths, bindings);
  }

  lemma KeysNamed(reg: Registry, filters: seq<AttributeFilter>, num: NumberReader, paths: seq<AttrPath>)
    requires SoundRegistry(reg) && PathsFrom(reg, filters, num, paths)
    ensures forall i :: 0 <= i < |paths| ==> paths[i].key != ""
  {
    forall i | 0 <= i < |paths|
      ensures paths[i].key != ""
    {
      assert filters[i].key in reg && SoundAttribute(reg[filters[i].key]);
    }
  }
}
