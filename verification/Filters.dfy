// Compiling listing filters into path predicates, and what the compiled predicates
// mean on products and variants.
module Filters {
  import opened Prelude
  import opened JsonPath
  import opened Attributes

  datatype AttributeFilter = AttributeFilter(
    key: string,
    values: seq<string>,
    numMin: Option<real>,
    numMax: Option<real>,
    boolValue: Option<bool>)

  // Reads decimal text; None for text that is no finite number.
  type NumberReader = string -> Option<real>

  // strconv.ParseBool.
  function ParseBool(s: string): Option<bool> {
    if s in {"1", "t", "T", "TRUE", "true", "True"} then Some(true)
    else if s in {"0", "f", "F", "FALSE", "false", "False"} then Some(false)
    else None
  }

  // ---- reading a query-string filter by data type --------------------------------

  function WantedFlag(f: AttributeFilter): Option<bool> {
    if f.boolValue.None? && |f.values| == 1 then ParseBool(f.values[0]) else f.boolValue
  }

  datatype Bounds = Bounds(low: Option<real>, high: Option<real>)

  function WantedBounds(f: AttributeFilter, num: NumberReader): Result<Bounds, string> {
    if f.numMin.None? && f.numMax.None? && |f.values| == 1 then
      match num(f.values[0])
      case None => Err("needs a number")
      case Some(n) => Ok(Bounds(Some(n), Some(n)))
    else
      Ok(Bounds(f.numMin, f.numMax))
  }

  // ---- the compiler -----------------------------------------------------------------

  function TokenConds(values: seq<string>): (conds: seq<Pred>)
    ensures |conds| == |values| && forall i :: 0 <= i < |values| ==> conds[i] == Equals(JStr(values[i]))
  {
    seq(|values|, i requires 0 <= i < |values| => Equals(JStr(values[i])))
  }

  // strings.Join(conds, " || "), parsed left to right.
  function AnyOf(conds: seq<Pred>): Pred
    requires conds != []
  {
    var n := |conds| - 1;
    if n == 0 then conds[0] else Or(AnyOf(conds[..n]), conds[n])
  }

  function BoundConds(highOperand: Operand, lowOperand: Operand, b: Bounds): Result<Pred, string> {
    match b
    case Bounds(None, None) => Err("needs a _min and/or _max bound")
    case Bounds(Some(lo), Some(hi)) =>
      if lo > hi then Err("_min must not exceed _max") else Ok(And(AtLeast(highOperand, lo), AtMost(lowOperand, hi)))
    case Bounds(Some(lo), None) => Ok(AtLeast(highOperand, lo))
    case Bounds(None, Some(hi)) => Ok(AtMost(lowOperand, hi))
  }

  function BoundsPath(key: string, highOperand: Operand, lowOperand: Operand, f: AttributeFilter, num: NumberReader)
    : Result<Path, string> {
    match WantedBounds(f, num)
    case Err(e) => Err(e)
    case Ok(b) =>
      match BoundConds(highOperand, lowOperand, b)
      case Err(e) => Err(e)
      case Ok(pred) => Ok(Path(key, pred))
  }

  function FilterPath(a: Attribute, f: AttributeFilter, num: NumberReader): Result<Path, string> {
    match a.dataType
    case Boolean =>
      (match WantedFlag(f)
       case None => Err("needs true or false")
       case Some(b) => Ok(Path(a.key, Equals(JBool(b)))))
    case Text =>
      if |f.values| != 1 then Err("needs exactly one value") else Ok(Path(a.key, Equals(JStr(f.values[0]))))
    case Number => BoundsPath(a.key, Current, Current, f, num)
    case NumberRange => BoundsPath(a.key, Member("high"), Member("low"), f, num)
    case _ =>
      if f.values == [] then Err("needs one or more option values")
      else if exists val :: val in f.values && OptionByValue(a.options, val).None? then Err("is not an option")
      else Ok(Path(a.key, AnyOf(TokenConds(f.values))))
  }

  // ---- what a filter means ---------------------------------------------------------------

  predicate InBounds(x: real, b: Bounds) {
    && (b.low.Some? ==> b.low.value <= x)
    && (b.high.Some? ==> x <= b.high.value)
  }

  ghost predicate Overlap(b1: Bounds, b2: Bounds) {
    exists x :: InBounds(x, b1) && InBounds(x, b2)
  }

  // x is at least the filter's minimum and at most its maximum, as far as they are given.
  ghost predicate Between(f: AttributeFilter, x: real) {
    (f.numMin.Some? ==> f.numMin.value <= x) && (f.numMax.Some? ==> x <= f.numMax.value)
  }

  // The filter asks for x: by its ends, or by a single value that reads as x.
  ghost predicate AsksFor(f: AttributeFilter, num: NumberReader, x: real) {
    if f.numMin.Some? || f.numMax.Some? then Between(f, x)
    else |f.values| == 1 && num(f.values[0]) == Some(x)
  }

  // The filter asks for this flag: in so many words, or by a single value that says it.
  ghost predicate AsksForFlag(f: AttributeFilter, flag: bool) {
    if f.boolValue.Some? then f.boolValue.value == flag
    else |f.values| == 1 && f.values[0] in FlagWords(flag)
  }

  function FlagWords(flag: bool): set<string> {
    if flag then {"true", "True", "TRUE", "t", "T", "1"} else {"false", "False", "FALSE", "f", "F", "0"}
  }

  // The typed value satisfies the filter: one of the listed options, the flag, the text, a
  // number it asks for, or a range that holds such a number.
  ghost predicate Satisfies(a: Attribute, f: AttributeFilter, num: NumberReader, v: AttributeValue) {
    match a.dataType
    case Boolean => v.flag.Some? && AsksForFlag(f, v.flag.value)
    case Text => |f.values| == 1 && v.text == Some(f.values[0])
    case Number => v.num.Some? && AsksFor(f, num, v.num.value)
    case NumberRange =>
      && v.numLow.Some? && v.numHigh.Some?
      && exists x :: v.numLow.value <= x <= v.numHigh.value && AsksFor(f, num, x)
    case _ => exists o :: o in a.options && o.id in v.optionIds && o.value in f.values
  }

  // The filters the compiler accepts: a flag it can tell, one text, options that exist, ends
  // in order or a single number it can read.
  ghost predicate Meaningful(a: Attribute, f: AttributeFilter, num: NumberReader) {
    match a.dataType
    case Boolean => AsksForFlag(f, true) || AsksForFlag(f, false)
    case Text => |f.values| == 1
    case Number => NumbersMeaningful(f, num)
    case NumberRange => NumbersMeaningful(f, num)
    case _ => f.values != [] && forall val :: val in f.values ==> exists o :: o in a.options && o.value == val
  }

  ghost predicate NumbersMeaningful(f: AttributeFilter, num: NumberReader) {
    if f.numMin.Some? || f.numMax.Some? then !(f.numMin.Some? && f.numMax.Some? && f.numMin.value > f.numMax.value)
    else |f.values| == 1 && num(f.values[0]).Some?
  }

  // What is read from the filter is what it asks for.
  lemma WantedMeans(f: AttributeFilter, num: NumberReader)
    ensures WantedBounds(f, num).Ok? && ProperBounds(WantedBounds(f, num).value) <==> NumbersMeaningful(f, num)
    ensures NumbersMeaningful(f, num) ==> forall x :: InBounds(x, WantedBounds(f, num).value) <==> AsksFor(f, num, x)
  {
    if WantedBounds(f, num).Ok? {
      var b := WantedBounds(f, num).value;
      ProperBoundsMeans(b);
    }
  }

  lemma WantedFlagMeans(f: AttributeFilter, flag: bool)
    ensures WantedFlag(f) == Some(flag) <==> AsksForFlag(f, flag)
  {
  }

  // Bounded on some side, and some number lies within.
  ghost predicate ProperBounds(b: Bounds) {
    b != Bounds(None, None) && Overlap(b, Bounds(None, None))
  }

  lemma ProperBoundsMeans(b: Bounds)
    ensures ProperBounds(b) <==> BoundConds(Current, Current, b).Ok?
    ensures BoundConds(Member("high"), Member("low"), b).Ok? <==> BoundConds(Current, Current, b).Ok?
  {
    match b
    case Bounds(None, None) =>
    case Bounds(Some(lo), _) => assert InBounds(lo, Bounds(None, None));
    case Bounds(None, Some(hi)) => assert InBounds(hi, b) && InBounds(hi, Bounds(None, None));
  }

  lemma OptionsKnown(a: Attribute, values: seq<string>)
    ensures (exists val :: val in values && OptionByValue(a.options, val).None?) <==>
      !forall val :: val in values ==> exists o :: o in a.options && o.value == val
  {
    forall val
      ensures OptionByValue(a.options, val).Some? <==> exists o :: o in a.options && o.value == val
    {
      if o :| o in a.options && o.value == val {
        var i :| 0 <= i < |a.options| && a.options[i] == o;
      }
    }
  }

  lemma NumbersCompile(key: string, f: AttributeFilter, num: NumberReader)
    ensures BoundsPath(key, Current, Current, f, num).Ok? <==> NumbersMeaningful(f, num)
    ensures BoundsPath(key, Member("high"), Member("low"), f, num).Ok? <==> NumbersMeaningful(f, num)
  {
    WantedMeans(f, num);
    if WantedBounds(f, num).Ok? {
      ProperBoundsMeans(WantedBounds(f, num).value);
    }
  }

  // The compiler rejects exactly the filters that mean nothing for the data type.
  lemma CompilesIffMeaningful(a: Attribute, f: AttributeFilter, num: NumberReader)
    ensures FilterPath(a, f, num).Ok? <==> Meaningful(a, f, num)
    ensures FilterPath(a, f, num).Ok? ==> FilterPath(a, f, num).value.key == a.key
  {
    if UsesOptions(a.dataType) {
      OptionsKnown(a, f.values);
    } else if a.dataType == Boolean {
      WantedFlagMeans(f, true);
      WantedFlagMeans(f, false);
    } else if a.dataType != Text {
      NumbersCompile(a.key, f, num);
    }
  }

  // ---- one attribute ----------------------------------------------------------------------

  lemma {:induction false} AnyOfTokens(values: seq<string>, item: Json)
    requires values != [] && Scalar(item)
    ensures Eval(AnyOf(TokenConds(values)), item) == True <==> item.JStr? && item.text in values
  {
    var n := |values| - 1;
    EqualsScalar(JStr(values[n]), item);
    if n > 0 {
      AnyOfTokens(values[..n], item);
      assert TokenConds(values)[..n] == TokenConds(values[..n]);
      assert values == values[..n] + [values[n]];
    }
  }

  lemma OverlapMeans(lo: real, hi: real, b: Bounds)
    requires lo <= hi
    requires b.low.Some? && b.high.Some? ==> b.low.value <= b.high.value
    ensures Overlap(Bounds(Some(lo), Some(hi)), b) <==>
      (b.low.Some? ==> hi >= b.low.value) && (b.high.Some? ==> lo <= b.high.value)
  {
    var stored := Bounds(Some(lo), Some(hi));
    if (b.low.Some? ==> hi >= b.low.value) && (b.high.Some? ==> lo <= b.high.value) {
      var x := if b.low.Some? && b.low.value > lo then b.low.value else lo;
      assert InBounds(x, stored) && InBounds(x, b);
    }
  }

  lemma NumberMeaning(a: Attribute, f: AttributeFilter, num: NumberReader, v: AttributeValue, path: Path)
    requires a.dataType == Number && ValidValue(a, v) && FilterPath(a, f, num) == Ok(path)
    ensures Eval(path.pred, JNum(v.num.value)) == True <==> Satisfies(a, f, num, v)
  {
    var b := WantedBounds(f, num).value;
    CompilesIffMeaningful(a, f, num);
    WantedMeans(f, num);
    assert InBounds(v.num.value, b) <==> AsksFor(f, num, v.num.value);
    if b.low.Some? { BoundsNumber(b.low.value, v.num.value); }
    if b.high.Some? { BoundsNumber(b.high.value, v.num.value); }
  }

  lemma RangeEval(a: Attribute, f: AttributeFilter, num: NumberReader, v: AttributeValue, path: Path)
    requires a.dataType == NumberRange && ValidValue(a, v) && FilterPath(a, f, num) == Ok(path)
    ensures var b := WantedBounds(f, num).value;
      Eval(path.pred, ApiValue(a, v)) == True <==>
      (b.low.Some? ==> v.numHigh.value >= b.low.value) && (b.high.Some? ==> v.numLow.value <= b.high.value)
  {
    var b := WantedBounds(f, num).value;
    var fields := ApiValue(a, v).fields;
    if b.low.Some? { BoundsMember(b.low.value, fields, "high"); }
    if b.high.Some? { BoundsMember(b.high.value, fields, "low"); }
  }

  lemma RangeMeaning(a: Attribute, f: AttributeFilter, num: NumberReader, v: AttributeValue, path: Path)
    requires a.dataType == NumberRange && ValidValue(a, v) && FilterPath(a, f, num) == Ok(path)
    ensures Eval(path.pred, ApiValue(a, v)) == True <==> Satisfies(a, f, num, v)
  {
    var b, stored := WantedBounds(f, num).value, Bounds(v.numLow, v.numHigh);
    RangeEval(a, f, num, v, path);
    OverlapMeans(v.numLow.value, v.numHigh.value, b);
    CompilesIffMeaningful(a, f, num);
    WantedMeans(f, num);
    if Overlap(stored, b) {
      var x :| InBounds(x, stored) && InBounds(x, b);
      assert v.numLow.value <= x <= v.numHigh.value && AsksFor(f, num, x);
    }
    if Satisfies(a, f, num, v) {
      var x :| v.numLow.value <= x <= v.numHigh.value && AsksFor(f, num, x);
      assert InBounds(x, stored) && InBounds(x, b);
    }
  }

  // The tokens inside a stored option value are exactly those of the selected options.
  lemma StoredTokens(a: Attribute, v: AttributeValue, j: Json)
    requires UsesOptions(a.dataType) && SoundAttribute(a) && ValidValue(a, v) && Stores(a, v, j)
    ensures forall item :: item in Unwrap(j) <==>
      exists o :: o in a.options && o.id in v.optionIds && item == JStr(o.value)
  {
    TokenMembers(a.options, v.optionIds);
    if a.dataType != MultiEnum {
      var id := v.optionIds[0];
      assert v.optionIds == [id];
      var chosen := OptionById(a.options, id).value;
      assert Unwrap(j) == [JStr(chosen.value)];
      forall o | o in a.options && o.id == id
        ensures o == chosen
      {
        var i :| 0 <= i < |a.options| && a.options[i] == o;
        OptionByValueUnique(a, i);
      }
    }
  }

  lemma TokenListed(a: Attribute, v: AttributeValue, j: Json, values: seq<string>)
    requires UsesOptions(a.dataType) && SoundAttribute(a) && ValidValue(a, v) && Stores(a, v, j)
    ensures (exists item :: item in Unwrap(j) && item.JStr? && item.text in values) <==>
      exists o :: o in a.options && o.id in v.optionIds && o.value in values
  {
    StoredTokens(a, v, j);
    if o :| o in a.options && o.id in v.optionIds && o.value in values {
      assert JStr(o.value) in Unwrap(j);
    }
  }

  // Which items an option filter's path accepts.
  lemma OptionPath(a: Attribute, f: AttributeFilter, num: NumberReader, path: Path, item: Json)
    requires UsesOptions(a.dataType) && FilterPath(a, f, num) == Ok(path) && Scalar(item)
    ensures Eval(path.pred, item) == True <==> item.JStr? && item.text in f.values
  {
    AnyOfTokens(f.values, item);
  }

  lemma OptionMeaning(a: Attribute, f: AttributeFilter, num: NumberReader, v: AttributeValue, path: Path, j: Json)
    requires UsesOptions(a.dataType) && SoundAttribute(a) && ValidValue(a, v) && Stores(a, v, j)
    requires FilterPath(a, f, num) == Ok(path)
    ensures (exists item :: item in Unwrap(j) && Eval(path.pred, item) == True) <==> Satisfies(a, f, num, v)
  {
    TokenListed(a, v, j, f.values);
    StoredTokens(a, v, j);
    forall item | item in Unwrap(j)
      ensures Eval(path.pred, item) == True <==> item.JStr? && item.text in f.values
    {
      OptionPath(a, f, num, path, item);
    }
  }

  // A compiled filter accepts a stored value exactly when the typed value satisfies it.
  lemma CompiledFilterMeaning(a: Attribute, f: AttributeFilter, num: NumberReader, v: AttributeValue,
                              fields: map<string, Json>)
    requires SoundAttribute(a) && ValidValue(a, v) && FilterPath(a, f, num).Ok?
    requires a.key in fields && Stores(a, v, fields[a.key])
    ensures Exists(JObj(fields), FilterPath(a, f, num).value) <==> Satisfies(a, f, num, v)
  {
    var path := FilterPath(a, f, num).value;
    var j := fields[a.key];
    CompilesIffMeaningful(a, f, num);
    ExistsUnwraps(fields, path);
    if UsesOptions(a.dataType) {
      OptionMeaning(a, f, num, v, path, j);
    } else {
      assert Unwrap(j) == [j];
      match a.dataType
      case Number => NumberMeaning(a, f, num, v, path);
      case NumberRange => RangeMeaning(a, f, num, v, path);
      case Boolean =>
        WantedFlagMeans(f, v.flag.value);
        EqualsScalar(path.pred.lit, j);
      case Text => EqualsScalar(path.pred.lit, j);
    }
  }

  // ---- whole products -----------------------------------------------------------------------

  type Registry = map<string, Attribute>
  type Typed = map<string, AttributeValue>

  ghost predicate SoundRegistry(reg: Registry) {
    forall key :: key in reg ==> SoundAttribute(reg[key]) && reg[key].key == key
  }

  // fields is the stored projection of the typed values.
  ghost predicate Projects(reg: Registry, vals: Typed, fields: Fields) {
    && fields.Keys == vals.Keys
    && forall key :: key in vals ==>
      key in reg && ValidValue(reg[key], vals[key]) && Stores(reg[key], vals[key], fields[key])
  }

  lemma CombinedProjection(reg: Registry, product: Typed, variant: Typed, pAttrs: Fields, vAttrs: Fields)
    requires Projects(reg, product, pAttrs) && Projects(reg, variant, vAttrs)
    ensures Projects(reg, product + variant, pAttrs + vAttrs)
  {
  }

  // p.attrs || v.attrs satisfies every path.
  predicate VariantMatches(pAttrs: Fields, vAttrs: Fields, paths: seq<Path>) {
    forall i :: 0 <= i < |paths| ==> Exists(JObj(pAttrs + vAttrs), paths[i])
  }

  // The WHERE clause of a listing: no condition at all without filters.
  predicate ProductMatches(pAttrs: Fields, variants: seq<Fields>, paths: seq<Path>) {
    paths == [] || exists n :: 0 <= n < |variants| && VariantMatches(pAttrs, variants[n], paths)
  }

  // There is a value for the filter's attribute, and it satisfies the filter.
  ghost predicate FilterSatisfied(reg: Registry, vals: Typed, f: AttributeFilter, num: NumberReader) {
    f.key in reg && f.key in vals && Satisfies(reg[f.key], f, num, vals[f.key])
  }

  ghost predicate VariantSatisfies(reg: Registry, product: Typed, variant: Typed, filters: seq<AttributeFilter>,
                                   num: NumberReader) {
    forall i :: 0 <= i < |filters| ==> FilterSatisfied(reg, product + variant, filters[i], num)
  }

  // Each filter names a filterable attribute and compiles to the path beside it.
  ghost predicate Compiled(reg: Registry, filters: seq<AttributeFilter>, num: NumberReader, paths: seq<Path>) {
    && |paths| == |filters|
    && forall i :: 0 <= i < |filters| ==>
      filters[i].key in reg && FilterPath(reg[filters[i].key], filters[i], num) == Ok(paths[i])
  }

  lemma FilterMeaning(reg: Registry, vals: Typed, fields: Fields, f: AttributeFilter, num: NumberReader, path: Path)
    requires SoundRegistry(reg) && Projects(reg, vals, fields)
    requires f.key in reg && FilterPath(reg[f.key], f, num) == Ok(path)
    ensures Exists(JObj(fields), path) <==> FilterSatisfied(reg, vals, f, num)
  {
    CompilesIffMeaningful(reg[f.key], f, num);
    if f.key in fields {
      CompiledFilterMeaning(reg[f.key], f, num, vals[f.key], fields);
    } else {
      ExistsMissing(fields, path);
    }
  }

  lemma VariantMeaning(reg: Registry, product: Typed, variant: Typed, pAttrs: Fields, vAttrs: Fields,
                       filters: seq<AttributeFilter>, num: NumberReader, paths: seq<Path>)
    requires SoundRegistry(reg) && Compiled(reg, filters, num, paths)
    requires Projects(reg, product, pAttrs) && Projects(reg, variant, vAttrs)
    ensures VariantMatches(pAttrs, vAttrs, paths) <==> VariantSatisfies(reg, product, variant, filters, num)
  {
    CombinedProjection(reg, product, variant, pAttrs, vAttrs);
    forall i | 0 <= i < |filters|
      ensures Exists(JObj(pAttrs + vAttrs), paths[i]) <==> FilterSatisfied(reg, product + variant, filters[i], num)
    {
      FilterMeaning(reg, product + variant, pAttrs + vAttrs, filters[i], num, paths[i]);
    }
  }

  // A listing accepts a product exactly when one of its variants, together with the
  // product-level values, satisfies every filter (or there are no filters).
  lemma ListingMeaning(reg: Registry, product: Typed, variants: seq<Typed>, pAttrs: Fields, vAttrs: seq<Fields>,
                       filters: seq<AttributeFilter>, num: NumberReader, paths: seq<Path>)
    requires SoundRegistry(reg) && Compiled(reg, filters, num, paths)
    requires Projects(reg, product, pAttrs)
    requires |vAttrs| == |variants| && forall n :: 0 <= n < |variants| ==> Projects(reg, variants[n], vAttrs[n])
    ensures ProductMatches(pAttrs, vAttrs, paths) <==>
      filters == [] || exists n :: 0 <= n < |variants| && VariantSatisfies(reg, product, variants[n], filters, num)
  {
    forall n | 0 <= n < |variants|
      ensures VariantMatches(pAttrs, vAttrs[n], paths) <==> VariantSatisfies(reg, product, variants[n], filters, num)
    {
      VariantMeaning(reg, product, variants[n], pAttrs, vAttrs[n], filters, num, paths);
    }
  }
}
