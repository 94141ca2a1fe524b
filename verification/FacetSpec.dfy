// What facets promise, told by typed values and by the filters as they were given: nothing
// here knows about stored attributes or compiled paths.
module FacetSpec {
  import opened Prelude
  import opened Attributes
  import opened Filters

  datatype Range = Range(min: real, max: real)

  datatype FacetValue = FacetValue(value: string, count: nat)
  datatype Facet = Facet(key: string, values: seq<FacetValue>, range: Option<Range>)

  // The typed values behind one product.
  datatype TypedProduct = TypedProduct(product: Typed, variants: seq<Typed>)

  // ---- choices -----------------------------------------------------------------------------

  // A value the attribute's facet can list.
  ghost predicate IsChoice(a: Attribute, value: string) {
    a.filterable &&
    if a.dataType == Boolean then value in {"true", "false"}
    else a.dataType in {Enum, MultiEnum, Color} && exists o :: o in a.options && o.value == value
  }

  ghost predicate HasChoice(a: Attribute, vals: Typed, value: string) {
    a.key in vals &&
    if a.dataType == Boolean then vals[a.key].flag == Some(value == "true")
    else exists o :: o in a.options && o.value == value && o.id in vals[a.key].optionIds
  }

  // Every filter on another attribute than the one with this key is satisfied.
  ghost predicate OthersSatisfied(reg: Registry, vals: Typed, filters: seq<AttributeFilter>, num: NumberReader,
                                  key: string) {
    forall f :: f in filters && f.key != key ==> FilterSatisfied(reg, vals, f, num)
  }

  // The product has one variant that satisfies every other filter and has the choice.
  ghost predicate OffersChoice(reg: Registry, p: TypedProduct, filters: seq<AttributeFilter>, num: NumberReader,
                               a: Attribute, value: string) {
    exists n :: 0 <= n < |p.variants| &&
      OthersSatisfied(reg, p.product + p.variants[n], filters, num, a.key) &&
        HasChoice(a, p.product + p.variants[n], value)
  }

  ghost function Offering(reg: Registry, typed: map<Id, TypedProduct>, base: set<Id>, filters: seq<AttributeFilter>,
                          num: NumberReader, a: Attribute, value: string): set<Id> {
    set id | id in base && id in typed && OffersChoice(reg, typed[id], filters, num, a, value)
  }

  // ---- ranges ------------------------------------------------------------------------------

  function LowOf(v: AttributeValue): real {
    if v.num.Some? then v.num.value else OrZero(v.numLow)
  }

  function HighOf(v: AttributeValue): real {
    if v.num.Some? then v.num.value else OrZero(v.numHigh)
  }

  // A variant of the product that satisfies every other filter has this value.
  ghost predicate OfferedBy(reg: Registry, p: TypedProduct, filters: seq<AttributeFilter>, num: NumberReader,
                            a: Attribute, v: AttributeValue, n: nat) {
    && n < |p.variants| && OthersSatisfied(reg, p.product + p.variants[n], filters, num, a.key)
    && a.key in p.product + p.variants[n] && (p.product + p.variants[n])[a.key] == v
  }

  ghost predicate Offered(reg: Registry, typed: map<Id, TypedProduct>, base: set<Id>, filters: seq<AttributeFilter>,
                          num: NumberReader, a: Attribute, v: AttributeValue) {
    exists id, n :: id in base && id in typed && OfferedBy(reg, typed[id], filters, num, a, v, n)
  }

  // r is the tightest range around every value offered.
  ghost predicate Tightest(reg: Registry, typed: map<Id, TypedProduct>, base: set<Id>, filters: seq<AttributeFilter>,
                           num: NumberReader, a: Attribute, r: Range) {
    && (forall v :: Offered(reg, typed, base, filters, num, a, v) ==> r.min <= LowOf(v) && HighOf(v) <= r.max)
    && (exists v :: Offered(reg, typed, base, filters, num, a, v) && LowOf(v) == r.min)
    && (exists v :: Offered(reg, typed, base, filters, num, a, v) && HighOf(v) == r.max)
  }

  // The tightest range when a value is offered. Without one nothing is shown, unless the
  // attribute is filtered on: then a range from 0 to 0 is.
  ghost predicate RangeMeans(reg: Registry, typed: map<Id, TypedProduct>, base: set<Id>, filters: seq<AttributeFilter>,
                             num: NumberReader, a: Attribute, shown: Option<Range>) {
    if exists v :: Offered(reg, typed, base, filters, num, a, v) then
      shown.Some? && Tightest(reg, typed, base, filters, num, a, shown.value)
    else shown == if exists f :: f in filters && f.key == a.key then Some(Range(0.0, 0.0)) else None
  }

  // ---- all facets ----------------------------------------------------------------------------

  ghost predicate ShowsCount(facets: seq<Facet>, key: string, value: string, count: nat) {
    exists f :: f in facets && f.key == key && FacetValue(value, count) in f.values
  }

  ghost predicate ShowsRange(facets: seq<Facet>, key: string, r: Range) {
    exists f :: f in facets && f.key == key && f.range == Some(r)
  }

  // Each choice that leaves a product is shown with the number it leaves, and no other count.
  ghost predicate CountsMean(reg: Registry, typed: map<Id, TypedProduct>, base: set<Id>, filters: seq<AttributeFilter>,
                             num: NumberReader, bindings: seq<Attribute>, facets: seq<Facet>) {
    && (forall i, value, n :: 0 <= i < |bindings| && IsChoice(bindings[i], value) ==>
         (ShowsCount(facets, bindings[i].key, value, n) <==>
          n > 0 && n == |Offering(reg, typed, base, filters, num, bindings[i], value)|))
    && (forall key, value, n :: ShowsCount(facets, key, value, n) ==>
         exists i :: 0 <= i < |bindings| && bindings[i].key == key && IsChoice(bindings[i], value))
  }

  // Each numeric attribute's range is shown as it should be, and no other range.
  ghost predicate RangesMean(reg: Registry, typed: map<Id, TypedProduct>, base: set<Id>, filters: seq<AttributeFilter>,
                             num: NumberReader, bindings: seq<Attribute>, facets: seq<Facet>) {
    && (forall i :: 0 <= i < |bindings| && IsNumeric(bindings[i]) ==>
         exists shown :: RangeMeans(reg, typed, base, filters, num, bindings[i], shown) &&
           forall r :: ShowsRange(facets, bindings[i].key, r) <==> shown == Some(r))
    && (forall key, r :: ShowsRange(facets, key, r) ==>
         exists i :: 0 <= i < |bindings| && bindings[i].key == key && IsNumeric(bindings[i]))
  }

  predicate IsNumeric(a: Attribute) {
    a.filterable && a.dataType in {Number, NumberRange}
  }

  // xs is ys with some left out: at says where each of xs stands in ys.
  ghost predicate Picks(xs: seq<string>, ys: seq<string>, at: seq<nat>) {
    && |at| == |xs|
    && (forall i, j :: 0 <= i < j < |at| ==> at[i] < at[j])
    && (forall i :: 0 <= i < |at| ==> at[i] < |ys| && ys[at[i]] == xs[i])
  }

  ghost predicate InOrderOf(xs: seq<string>, ys: seq<string>) {
    exists at :: Picks(xs, ys, at)
  }

  function KeysIn(facets: seq<Facet>): seq<string> {
    seq(|facets|, i requires 0 <= i < |facets| => facets[i].key)
  }

  function BoundKeys(bindings: seq<Attribute>): seq<string> {
    seq(|bindings|, i requires 0 <= i < |bindings| => bindings[i].key)
  }

  function ValuesIn(f: Facet): seq<string> {
    seq(|f.values|, i requires 0 <= i < |f.values| => f.values[i].value)
  }

  // The order an attribute's values are listed in.
  function ValueOrder(a: Attribute): (order: seq<string>)
    ensures a.dataType == Boolean ==> order == ["true", "false"]
    ensures a.dataType != Boolean ==> |order| == |a.options|
    ensures a.dataType != Boolean ==> forall i :: 0 <= i < |order| ==> order[i] == a.options[i].value
  {
    if a.dataType == Boolean then ["true", "false"]
    else seq(|a.options|, i requires 0 <= i < |a.options| => a.options[i].value)
  }

  // Facets stand in the order of the bindings, values in that of the options.
  ghost predicate Ordered(bindings: seq<Attribute>, facets: seq<Facet>) {
    && InOrderOf(KeysIn(facets), BoundKeys(bindings))
    && forall f :: f in facets ==>
      exists i :: 0 <= i < |bindings| && bindings[i].key == f.key && InOrderOf(ValuesIn(f), ValueOrder(bindings[i]))
  }

  // ---- filters on the attribute itself -------------------------------------------------------

  // The two lists of filters differ only in those on one attribute.
  ghost predicate SameOthers(filters: seq<AttributeFilter>, more: seq<AttributeFilter>, key: string) {
    forall f: AttributeFilter :: f.key != key ==> (f in filters <==> f in more)
  }

  lemma SameForOthers(reg: Registry, filters: seq<AttributeFilter>, more: seq<AttributeFilter>, num: NumberReader,
                      key: string)
    requires SameOthers(filters, more, key)
    ensures forall vals :: OthersSatisfied(reg, vals, more, num, key) <==> OthersSatisfied(reg, vals, filters, num, key)
  {
  }

  // What a facet offers does not change when filters on its own attribute come or go.
  lemma OwnFiltersDoNotMatter(reg: Registry, typed: map<Id, TypedProduct>, base: set<Id>, filters: seq<AttributeFilter>,
                              more: seq<AttributeFilter>, num: NumberReader, a: Attribute, value: string)
    requires SameOthers(filters, more, a.key)
    ensures Offering(reg, typed, base, more, num, a, value) == Offering(reg, typed, base, filters, num, a, value)
    ensures forall v :: Offered(reg, typed, base, more, num, a, v) <==> Offered(reg, typed, base, filters, num, a, v)
  {
    SameForOthers(reg, filters, more, num, a.key);
    forall v
      ensures Offered(reg, typed, base, more, num, a, v) <==> Offered(reg, typed, base, filters, num, a, v)
    {
      forall id, n | id in typed
        ensures OfferedBy(reg, typed[id], more, num, a, v, n) <==> OfferedBy(reg, typed[id], filters, num, a, v, n)
      {
      }
    }
  }
}
