// JSON values and the fragment of SQL/JSON path the filter compiler emits,
// evaluated in lax mode (section 9.39 of ISO/IEC 9075-2:2016).
module JsonPath {
  import opened Prelude

  datatype Json =
    | JNull
    | JBool(flag: bool)
    | JNum(num: real)
    | JStr(text: string)
    | JArr(items: seq<Json>)
    | JObj(fields: Fields)

  // The members of an object; a stored projection, keyed by attribute.
  type Fields = map<string, Json>

  // "@" or "@.name" inside a filter.
  datatype Operand = Current | Member(name: string)

  datatype Pred =
    | Equals(lit: Json)
    | AtLeast(operand: Operand, bound: real)
    | AtMost(operand: Operand, bound: real)
    | Or(left: Pred, right: Pred)
    | And(left: Pred, right: Pred)

  // $.key ? (pred)
  datatype Path = Path(key: string, pred: Pred)

  datatype Truth = True | False | Unknown

  // ---- evaluation -------------------------------------------------------------

  // Lax mode unwraps an array one level wherever a single item is expected.
  function Unwrap(j: Json): seq<Json> {
    if j.JArr? then j.items else [j]
  }

  function UnwrapAll(js: seq<Json>): seq<Json> {
    if js == [] then [] else Unwrap(js[0]) + UnwrapAll(js[1..])
  }

  function FieldOf(j: Json, name: string): seq<Json> {
    if j.JObj? && name in j.fields then [j.fields[name]] else []
  }

  function FieldsOf(js: seq<Json>, name: string): seq<Json> {
    if js == [] then [] else FieldOf(js[0], name) + FieldsOf(js[1..], name)
  }

  // A missing member is no error in lax mode: it selects nothing.
  function Access(j: Json, name: string): seq<Json> {
    FieldsOf(Unwrap(j), name)
  }

  function OperandItems(operand: Operand, current: Json): seq<Json> {
    match operand
    case Current => Unwrap(current)
    case Member(name) => UnwrapAll(Access(current, name))
  }

  function OfBool(b: bool): Truth {
    if b then True else False
  }

  // Scalars of different types do not compare; a null simply differs.
  function CompareEq(item: Json, lit: Json): Truth {
    match (item, lit)
    case (JNull, JNull) => True
    case (JNull, _) => False
    case (_, JNull) => False
    case (JBool(a), JBool(b)) => OfBool(a == b)
    case (JNum(a), JNum(b)) => OfBool(a == b)
    case (JStr(a), JStr(b)) => OfBool(a == b)
    case _ => Unknown
  }

  function CompareGe(item: Json, bound: real): Truth {
    match item
    case JNum(n) => OfBool(n >= bound)
    case JNull => False
    case _ => Unknown
  }

  function CompareLe(item: Json, bound: real): Truth {
    match item
    case JNum(n) => OfBool(n <= bound)
    case JNull => False
    case _ => Unknown
  }

  // A comparison over a sequence holds when it holds of one item (lax mode stops there).
  function AnyTrue(truths: seq<Truth>): Truth {
    if True in truths then True else if Unknown in truths then Unknown else False
  }

  function MapEq(items: seq<Json>, lit: Json): (r: seq<Truth>)
    ensures |r| == |items| && forall i :: 0 <= i < |items| ==> r[i] == CompareEq(items[i], lit)
  {
    seq(|items|, i requires 0 <= i < |items| => CompareEq(items[i], lit))
  }

  function MapGe(items: seq<Json>, bound: real): (r: seq<Truth>)
    ensures |r| == |items| && forall i :: 0 <= i < |items| ==> r[i] == CompareGe(items[i], bound)
  {
    seq(|items|, i requires 0 <= i < |items| => CompareGe(items[i], bound))
  }

  function MapLe(items: seq<Json>, bound: real): (r: seq<Truth>)
    ensures |r| == |items| && forall i :: 0 <= i < |items| ==> r[i] == CompareLe(items[i], bound)
  {
    seq(|items|, i requires 0 <= i < |items| => CompareLe(items[i], bound))
  }

  function Eval(pred: Pred, current: Json): Truth {
    match pred
    case Equals(lit) => AnyTrue(MapEq(OperandItems(Current, current), lit))
    case AtLeast(operand, bound) => AnyTrue(MapGe(OperandItems(operand, current), bound))
    case AtMost(operand, bound) => AnyTrue(MapLe(OperandItems(operand, current), bound))
    case Or(l, r) =>
      var left := Eval(l, current);
      if left == True then True else
      var right := Eval(r, current);
      if right == False then left else right
    case And(l, r) =>
      var left := Eval(l, current);
      if left == False then False else
      var right := Eval(r, current);
      if right == True then left else right
  }

  // root @? path: the filter, itself lax, looks inside an array.
  predicate Exists(root: Json, path: Path) {
    exists item | item in UnwrapAll(Access(root, path.key)) :: Eval(path.pred, item) == True
  }

  // ---- what evaluation means on the shapes projections store -------------------------

  predicate Scalar(j: Json) {
    !j.JArr? && !j.JObj?
  }

  lemma AccessObject(fields: Fields, name: string)
    ensures Access(JObj(fields), name) == if name in fields then [fields[name]] else []
  {
    var root := JObj(fields);
    assert [root][1..] == [];
    assert FieldsOf([root], name) == FieldOf(root, name) + FieldsOf([], name);
  }

  lemma ExistsMissing(fields: Fields, path: Path)
    requires path.key !in fields
    ensures !Exists(JObj(fields), path)
  {
    AccessObject(fields, path.key);
  }

  lemma ExistsUnwraps(fields: Fields, path: Path)
    requires path.key in fields
    ensures Exists(JObj(fields), path) <==>
      exists item :: item in Unwrap(fields[path.key]) && Eval(path.pred, item) == True
  {
    var found := fields[path.key];
    AccessObject(fields, path.key);
    assert UnwrapAll([found]) == Unwrap(found) + UnwrapAll([]);
    assert UnwrapAll([found]) == Unwrap(found);
  }

  lemma {:induction false} EqualsScalar(lit: Json, item: Json)
    requires Scalar(lit) && Scalar(item) && lit != JNull
    ensures Eval(Equals(lit), item) == True <==> item == lit
  {
    var truths := MapEq([item], lit);
    assert Unwrap(item) == [item];
    assert truths == [CompareEq(item, lit)];
  }

  lemma BoundsNumber(bound: real, n: real)
    ensures Eval(AtLeast(Current, bound), JNum(n)) == OfBool(n >= bound)
    ensures Eval(AtMost(Current, bound), JNum(n)) == OfBool(n <= bound)
  {
    assert MapGe([JNum(n)], bound) == [CompareGe(JNum(n), bound)];
    assert MapLe([JNum(n)], bound) == [CompareLe(JNum(n), bound)];
  }

  lemma BoundsMember(bound: real, fields: Fields, name: string)
    requires name in fields && fields[name].JNum?
    ensures Eval(AtLeast(Member(name), bound), JObj(fields)) == OfBool(fields[name].num >= bound)
    ensures Eval(AtMost(Member(name), bound), JObj(fields)) == OfBool(fields[name].num <= bound)
  {
    var found := fields[name];
    AccessObject(fields, name);
    assert UnwrapAll([found]) == Unwrap(found) + UnwrapAll([]);
    assert OperandItems(Member(name), JObj(fields)) == [found];
    assert MapGe([found], bound) == [CompareGe(found, bound)];
    assert MapLe([found], bound) == [CompareLe(found, bound)];
  }
}
