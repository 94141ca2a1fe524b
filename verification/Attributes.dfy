// Typed attribute values: one slot per data type, decoded from JSON and rendered back.
module Attributes {
  import opened Prelude
  import opened JsonPath
  import opened Text

  type Id = nat

  datatype DataType = Text | Number | NumberRange | Boolean | Enum | MultiEnum | Color

  datatype AttrOption = AttrOption(id: Id, value: string)

  datatype Attribute = Attribute(id: Id, key: string, dataType: DataType, filterable: bool, options: seq<AttrOption>)

  datatype AttributeValue = AttributeValue(
    attr: Id,
    variant: Option<Id>,
    optionIds: seq<Id>,
    text: Option<string>,
    num: Option<real>,
    numLow: Option<real>,
    numHigh: Option<real>,
    flag: Option<bool>)

  const MAX_TEXT: nat := 1000

  predicate UsesOptions(dt: DataType) {
    dt in {Enum, MultiEnum, Color}
  }

  // What the registry's keys and unique constraints guarantee.
  ghost predicate SoundAttribute(a: Attribute) {
    && a.key != ""
    && (forall o :: o in a.options ==> o.value != "")
    && (forall i, j :: 0 <= i < j < |a.options| ==>
      a.options[i].id != a.options[j].id && a.options[i].value != a.options[j].value)
  }

  predicate Distinct<T(==)>(s: seq<T>) {
    forall i, j :: 0 <= i < j < |s| ==> s[i] != s[j]
  }

  // ---- typed values -----------------------------------------------------------------

  function NoValue(attr: Id, variant: Option<Id>): AttributeValue {
    AttributeValue(attr, variant, [], None, None, None, None, None)
  }

  // The one slot the data type uses is filled, every other slot is empty, and each
  // option id names an option of the attribute.
  ghost predicate ValidValue(a: Attribute, v: AttributeValue) {
    && v.attr == a.id
    && (v.text.Some? <==> a.dataType == Text)
    && (v.num.Some? <==> a.dataType == Number)
    && (v.numLow.Some? <==> a.dataType == NumberRange)
    && (v.numHigh.Some? <==> a.dataType == NumberRange)
    && (v.flag.Some? <==> a.dataType == Boolean)
    && (v.optionIds != [] <==> UsesOptions(a.dataType))
    && (v.text.Some? ==> 1 <= |v.text.value| <= MAX_TEXT && Trim(v.text.value) == v.text.value)
    && (v.numLow.Some? ==> v.numLow.value <= v.numHigh.value)
    && (a.dataType in {Enum, Color} ==> |v.optionIds| == 1)
    && Distinct(v.optionIds)
    && (forall id :: id in v.optionIds ==> OptionById(a.options, id).Some?)
  }

  function OptionByValue(options: seq<AttrOption>, value: string): (o: Option<AttrOption>)
    ensures o.Some? <==> exists i :: 0 <= i < |options| && options[i].value == value
    ensures o.Some? ==> o.value in options && o.value.value == value
  {
    if options == [] then None
    else if options[0].value == value then Some(options[0])
    else
      var o := OptionByValue(options[1..], value);
      assert forall i :: 1 <= i < |options| ==> options[i] == options[1..][i - 1];
      o
  }

  function OptionById(options: seq<AttrOption>, id: Id): (o: Option<AttrOption>)
    ensures o.Some? <==> exists i :: 0 <= i < |options| && options[i].id == id
    ensures o.Some? ==> o.value in options && o.value.id == id
  {
    if options == [] then None
    else if options[0].id == id then Some(options[0])
    else
      var o := OptionById(options[1..], id);
      assert forall i :: 1 <= i < |options| ==> options[i] == options[1..][i - 1];
      o
  }

  // ---- decoding and rendering ---------------------------------------------------------

  // Folds a list of tokens into option ids without repeats; None when a token is no option.
  ghost function OptionIdsOf(a: Attribute, tokens: seq<Json>): Option<seq<Id>> {
    if tokens == [] then Some([])
    else
      var n := |tokens| - 1;
      match OptionIdsOf(a, tokens[..n])
      case None => None
      case Some(ids) =>
        var last := if tokens[n].JStr? then OptionByValue(a.options, tokens[n].text) else None;
        if last.None? then None
        else if last.value.id in ids then Some(ids)
        else Some(ids + [last.value.id])
  }

  ghost function RangeEnds(raw: Json): Option<(real, real)> {
    if raw.JObj? && raw.fields.Keys == {"low", "high"} && raw.fields["low"].JNum? && raw.fields["high"].JNum?
    then Some((raw.fields["low"].num, raw.fields["high"].num))
    else None
  }

  // What is wrong with a value.
  datatype Complaint =
    | MustBeString | BadLength | MustBeNumber | MustBeRange | UpsideDown | MustBeFlag
    | MustBeOptions | NoOptions | MustBeOption

  // Go decodes a JSON null into the zero value of a number or a boolean.
  ghost function Decoded(a: Attribute, raw: Json, variant: Option<Id>): Result<AttributeValue, Complaint> {
    var none := NoValue(a.id, variant);
    match a.dataType
    case Text =>
      if !raw.JStr? && !raw.JNull? then Err(MustBeString) else
      var s := if raw.JStr? then Trim(raw.text) else "";
      if s == "" || |s| > MAX_TEXT then Err(BadLength)
      else Ok(none.(text := Some(s)))
    case Number =>
      if raw.JNum? then Ok(none.(num := Some(raw.num)))
      else if raw.JNull? then Ok(none.(num := Some(0.0)))
      else Err(MustBeNumber)
    case NumberRange =>
      (match RangeEnds(raw)
       case None => Err(MustBeRange)
       case Some(r) =>
         if r.0 > r.1 then Err(UpsideDown)
         else Ok(none.(numLow := Some(r.0), numHigh := Some(r.1))))
    case Boolean =>
      if raw.JBool? then Ok(none.(flag := Some(raw.flag)))
      else if raw.JNull? then Ok(none.(flag := Some(false)))
      else Err(MustBeFlag)
    case MultiEnum =>
      if !raw.JArr? then Err(MustBeOptions) else
      (match OptionIdsOf(a, raw.items)
       case None => Err(MustBeOptions)
       case Some(ids) =>
         if ids == [] then Err(NoOptions) else Ok(none.(optionIds := ids)))
    case _ =>
      var o := if raw.JStr? then OptionByValue(a.options, raw.text) else None;
      if o.None? then Err(MustBeOption)
      else Ok(none.(optionIds := [o.value.id]))
  }

  ghost predicate AreOptions(a: Attribute, ids: seq<Id>) {
    Distinct(ids) && forall id :: id in ids ==> OptionById(a.options, id).Some?
  }

  // The id of the option whose value the token is.
  ghost function Mentioned(a: Attribute, token: Json): Option<Id> {
    if token.JStr? && OptionByValue(a.options, token.text).Some?
      then Some(OptionByValue(a.options, token.text).value.id) else None
  }

  // Every token mentions one of these ids, each of which is first mentioned at its place in
  // at; they come in the order they are first mentioned.
  ghost predicate FirstMentions(a: Attribute, tokens: seq<Json>, ids: seq<Id>, at: seq<nat>) {
    && |at| == |ids| && Distinct(ids)
    && (forall t :: t in tokens ==> Mentioned(a, t).Some? && Mentioned(a, t).value in ids)
    && (forall i :: 0 <= i < |ids| ==> at[i] < |tokens| && Mentioned(a, tokens[at[i]]) == Some(ids[i]))
    && (forall i, t :: 0 <= i < |ids| && 0 <= t < at[i] ==> Mentioned(a, tokens[t]) != Some(ids[i]))
    && (forall i, j :: 0 <= i < j < |ids| ==> at[i] < at[j])
  }

  lemma MentionAgain(a: Attribute, tokens: seq<Json>, ids: seq<Id>, at: seq<nat>, token: Json, id: Id)
    requires FirstMentions(a, tokens, ids, at) && Mentioned(a, token) == Some(id)
    ensures id in ids ==> FirstMentions(a, tokens + [token], ids, at)
    ensures id !in ids ==> FirstMentions(a, tokens + [token], ids + [id], at + [|tokens|])
  {
  }

  method DecodeTokens(a: Attribute, tokens: seq<Json>) returns (ids: Option<seq<Id>>, ghost at: seq<nat>)
    ensures ids == OptionIdsOf(a, tokens)
    ensures ids.None? <==> exists t :: t in tokens && Mentioned(a, t).None?
    ensures ids.Some? ==> AreOptions(a, ids.value) && FirstMentions(a, tokens, ids.value, at)
  {
    var found: seq<Id> := [];
    at := [];
    var i := 0;
    while i < |tokens|
      invariant 0 <= i <= |tokens|
      invariant TokensRead(a, tokens[..i], found, at)
    {
      ghost var before := tokens[..i];
      assert tokens[..i + 1] == before + [tokens[i]];
      var o := if tokens[i].JStr? then OptionByValue(a.options, tokens[i].text) else None;
      if o.None? {
        UnknownToken(a, tokens, i);
        ids := None;
        return;
      }
      var id := o.value.id;
      NextTokenRead(a, before, found, at, tokens[i], id);
      if id !in found {
        at := at + [i];
        found := found + [id];
      }
      i := i + 1;
    }
    assert tokens[..i] == tokens;
    ids := Some(found);
  }

  ghost predicate TokensRead(a: Attribute, tokens: seq<Json>, ids: seq<Id>, at: seq<nat>) {
    OptionIdsOf(a, tokens) == Some(ids) && AreOptions(a, ids) && FirstMentions(a, tokens, ids, at)
  }

  lemma NextTokenRead(a: Attribute, tokens: seq<Json>, ids: seq<Id>, at: seq<nat>, token: Json, id: Id)
    requires TokensRead(a, tokens, ids, at) && Mentioned(a, token) == Some(id)
    ensures id in ids ==> TokensRead(a, tokens + [token], ids, at)
    ensures id !in ids ==> TokensRead(a, tokens + [token], ids + [id], at + [|tokens|])
  {
    assert (tokens + [token])[..|tokens|] == tokens;
    MentionAgain(a, tokens, ids, at, token, id);
  }

  lemma UnknownToken(a: Attribute, tokens: seq<Json>, i: nat)
    requires i < |tokens| && Mentioned(a, tokens[i]).None?
    ensures OptionIdsOf(a, tokens).None? && exists t :: t in tokens && Mentioned(a, t).None?
  {
    assert tokens[..i + 1][i] == tokens[i];
    OptionIdsOfFails(a, tokens, i + 1);
  }

  lemma DecodedIsValid(a: Attribute, raw: Json, variant: Option<Id>)
    requires a.dataType != MultiEnum && Decoded(a, raw, variant).Ok?
    ensures ValidValue(a, Decoded(a, raw, variant).value) && Decoded(a, raw, variant).value.variant == variant
  {
    if a.dataType == Text && raw.JStr? {
      TrimIdempotent(raw.text);
    }
  }

  method DecodeValue(a: Attribute, raw: Json, variant: Option<Id>) returns (r: Result<AttributeValue, Complaint>)
    ensures r == Decoded(a, raw, variant)
    ensures r.Ok? ==> ValidValue(a, r.value) && r.value.variant == variant
  {
    if a.dataType != MultiEnum && Decoded(a, raw, variant).Ok? {
      DecodedIsValid(a, raw, variant);
    }
    var none := NoValue(a.id, variant);
    match a.dataType
    case Text =>
      if !raw.JStr? && !raw.JNull? {
        return Err(MustBeString);
      }
      var s := if raw.JStr? then Trim(raw.text) else "";
      if s == "" || |s| > MAX_TEXT {
        return Err(BadLength);
      }
      r := Ok(none.(text := Some(s)));
    case Number =>
      if !raw.JNum? && !raw.JNull? {
        return Err(MustBeNumber);
      }
      r := Ok(none.(num := Some(if raw.JNum? then raw.num else 0.0)));
    case NumberRange =>
      if !(raw.JObj? && raw.fields.Keys == {"low", "high"} && raw.fields["low"].JNum? && raw.fields["high"].JNum?) {
        return Err(MustBeRange);
      }
      var low, high := raw.fields["low"].num, raw.fields["high"].num;
      if high < low {
        return Err(UpsideDown);
      }
      r := Ok(none.(numLow := Some(low), numHigh := Some(high)));
    case Boolean =>
      if !raw.JBool? && !raw.JNull? {
        return Err(MustBeFlag);
      }
      r := Ok(none.(flag := Some(raw.JBool? && raw.flag)));
    case MultiEnum =>
      if !raw.JArr? {
        return Err(MustBeOptions);
      }
      var ids, at := DecodeTokens(a, raw.items);
      if ids.None? {
        return Err(MustBeOptions);
      }
      r := if ids.value == [] then Err(NoOptions) else Ok(none.(optionIds := ids.value));
    case Enum | Color =>
      var o := if raw.JStr? then OptionByValue(a.options, raw.text) else None;
      if o.None? {
        return Err(MustBeOption);
      }
      r := Ok(none.(optionIds := [o.value.id]));
  }

  lemma {:induction false} OptionIdsOfFails(a: Attribute, tokens: seq<Json>, n: nat)
    requires n <= |tokens| && OptionIdsOf(a, tokens[..n]).None?
    ensures OptionIdsOf(a, tokens).None?
    decreases |tokens| - n
  {
    if n < |tokens| {
      assert tokens[..n + 1][..n] == tokens[..n];
      OptionIdsOfFails(a, tokens, n + 1);
    } else {
      assert tokens[..n] == tokens;
    }
  }

  function TokensOf(options: seq<AttrOption>, ids: seq<Id>): seq<Json> {
    if options == [] then []
    else
      var last := options[|options| - 1];
      TokensOf(options[..|options| - 1], ids) + if last.id in ids then [JStr(last.value)] else []
  }

  function OptionToken(a: Attribute, ids: seq<Id>): Json {
    if |ids| == 1 && OptionById(a.options, ids[0]).Some? then JStr(OptionById(a.options, ids[0]).value.value) else JNull
  }

  function OrZero(n: Option<real>): real {
    if n.Some? then n.value else 0.0
  }

  // The API and projection shape; options come out in the attribute's order.
  function ApiValue(a: Attribute, v: AttributeValue): Json {
    match a.dataType
    case Text => JStr(if v.text.Some? then v.text.value else "")
    case Number => JNum(OrZero(v.num))
    case NumberRange => JObj(map["low" := JNum(OrZero(v.numLow)), "high" := JNum(OrZero(v.numHigh))])
    case Boolean => JBool(v.flag.Some? && v.flag.value)
    case MultiEnum => JArr(TokensOf(a.options, v.optionIds))
    case _ => OptionToken(a, v.optionIds)
  }

  // ---- rendering then decoding gives the value back --------------------------------------

  function IdsInOrder(options: seq<AttrOption>, ids: seq<Id>): seq<Id> {
    if options == [] then []
    else
      var last := options[|options| - 1];
      IdsInOrder(options[..|options| - 1], ids) + if last.id in ids then [last.id] else []
  }

  // The same value with its option ids in the attribute's order.
  function InOptionOrder(a: Attribute, v: AttributeValue): AttributeValue {
    v.(optionIds := IdsInOrder(a.options, v.optionIds))
  }

  lemma {:induction false} IdsInOrderMembers(options: seq<AttrOption>, ids: seq<Id>)
    ensures forall id :: id in IdsInOrder(options, ids) <==> id in ids && OptionById(options, id).Some?
  {
    if options != [] {
      var n := |options| - 1;
      IdsInOrderMembers(options[..n], ids);
      forall id
        ensures OptionById(options, id).Some? <==> OptionById(options[..n], id).Some? || options[n].id == id
      {
        if OptionById(options[..n], id).Some? {
          var i :| 0 <= i < n && options[..n][i].id == id;
          assert options[i].id == id;
        }
        if OptionById(options, id).Some? {
          var i :| 0 <= i < |options| && options[i].id == id;
          assert i < n ==> options[..n][i].id == id;
        }
      }
    }
  }

  lemma {:induction false} TokenMembers(options: seq<AttrOption>, ids: seq<Id>)
    ensures forall t :: t in TokensOf(options, ids) <==> exists o :: o in options && o.id in ids && t == JStr(o.value)
  {
    if options != [] {
      var n := |options| - 1;
      TokenMembers(options[..n], ids);
      assert options == options[..n] + [options[n]];
    }
  }

  lemma OptionByValueUnique(a: Attribute, i: nat)
    requires SoundAttribute(a) && i < |a.options|
    ensures OptionByValue(a.options, a.options[i].value) == Some(a.options[i])
    ensures OptionById(a.options, a.options[i].id) == Some(a.options[i])
  {
  }

  lemma OptionIdNew(a: Attribute, n: nat, ids: seq<Id>)
    requires SoundAttribute(a) && 0 < n <= |a.options|
    ensures a.options[n - 1].id !in IdsInOrder(a.options[..n - 1], ids)
  {
    IdsInOrderMembers(a.options[..n - 1], ids);
  }

  lemma {:induction false} OptionIdsSnoc(a: Attribute, tokens: seq<Json>, o: AttrOption, ids: seq<Id>)
    requires OptionIdsOf(a, tokens) == Some(ids) && OptionByValue(a.options, o.value) == Some(o) && o.id !in ids
    ensures OptionIdsOf(a, tokens + [JStr(o.value)]) == Some(ids + [o.id])
  {
  }

  // Decoding the tokens of the first n options gives their ids back.
  lemma {:induction false} TokensDecode(a: Attribute, ids: seq<Id>, n: nat)
    requires SoundAttribute(a) && n <= |a.options|
    ensures OptionIdsOf(a, TokensOf(a.options[..n], ids)) == Some(IdsInOrder(a.options[..n], ids))
  {
    if n > 0 {
      var o := a.options[n - 1];
      var before := a.options[..n - 1];
      TokensDecode(a, ids, n - 1);
      assert a.options[..n][..n - 1] == before;
      if o.id in ids {
        OptionByValueUnique(a, n - 1);
        OptionIdNew(a, n, ids);
        OptionIdsSnoc(a, TokensOf(before, ids), o, IdsInOrder(before, ids));
      } else {
        assert TokensOf(a.options[..n], ids) == TokensOf(before, ids);
        assert IdsInOrder(a.options[..n], ids) == IdsInOrder(before, ids);
      }
    }
  }

  // What an admin client reads can be sent back unchanged: it decodes to the same value.
  lemma ReadThenWriteIsIdentity(a: Attribute, v: AttributeValue)
    requires SoundAttribute(a) && ValidValue(a, v)
    ensures Decoded(a, ApiValue(a, v), v.variant) == Ok(InOptionOrder(a, v))
    ensures forall id :: id in InOptionOrder(a, v).optionIds <==> id in v.optionIds
  {
    IdsInOrderMembers(a.options, v.optionIds);
    if a.dataType == MultiEnum {
      TokensReadBack(a, v);
    } else if UsesOptions(a.dataType) {
      OptionReadsBack(a, v);
    } else {
      NoIdsInOrder(a.options);
      ScalarReadsBack(a, v);
    }
  }

  lemma ManyDecoded(a: Attribute, tokens: seq<Json>, variant: Option<Id>, ids: seq<Id>)
    requires a.dataType == MultiEnum && OptionIdsOf(a, tokens) == Some(ids) && ids != []
    ensures Decoded(a, JArr(tokens), variant) == Ok(NoValue(a.id, variant).(optionIds := ids))
  {
  }

  lemma {:induction false} TokensReadBack(a: Attribute, v: AttributeValue)
    requires SoundAttribute(a) && ValidValue(a, v) && a.dataType == MultiEnum
    ensures Decoded(a, ApiValue(a, v), v.variant) == Ok(InOptionOrder(a, v))
  {
    var ids := IdsInOrder(a.options, v.optionIds);
    IdsInOrderMembers(a.options, v.optionIds);
    assert a.options[..|a.options|] == a.options;
    TokensDecode(a, v.optionIds, |a.options|);
    assert v.optionIds[0] in ids;
    ManyDecoded(a, TokensOf(a.options, v.optionIds), v.variant, ids);
  }

  lemma OptionReadsBack(a: Attribute, v: AttributeValue)
    requires SoundAttribute(a) && ValidValue(a, v) && a.dataType in {Enum, Color}
    ensures Decoded(a, ApiValue(a, v), v.variant) == Ok(InOptionOrder(a, v))
  {
    assert v.optionIds == [v.optionIds[0]];
    SingleOption(a, v.optionIds[0]);
  }

  lemma ScalarReadsBack(a: Attribute, v: AttributeValue)
    requires ValidValue(a, v) && !UsesOptions(a.dataType)
    ensures Decoded(a, ApiValue(a, v), v.variant) == Ok(v)
  {
  }

  lemma {:induction false} SingleOption(a: Attribute, id: Id)
    requires SoundAttribute(a) && OptionById(a.options, id).Some?
    ensures var o := OptionById(a.options, id).value;
      OptionByValue(a.options, o.value) == Some(o) && IdsInOrder(a.options, [id]) == [id]
  {
    var i :| 0 <= i < |a.options| && a.options[i].id == id;
    OptionByValueUnique(a, i);
    SingleIdInOrder(a.options, i, id);
  }

  lemma {:induction false} SingleIdInOrder(options: seq<AttrOption>, i: nat, id: Id)
    requires i < |options| && options[i].id == id
    requires forall j :: 0 <= j < |options| && j != i ==> options[j].id != id
    ensures IdsInOrder(options, [id]) == [id]
  {
    var n := |options| - 1;
    if i == n {
      NotInOrder(options[..n], id);
    } else {
      SingleIdInOrder(options[..n], i, id);
    }
  }

  lemma {:induction false} NotInOrder(options: seq<AttrOption>, id: Id)
    requires forall j :: 0 <= j < |options| ==> options[j].id != id
    ensures IdsInOrder(options, [id]) == []
  {
    if options != [] {
      NotInOrder(options[..|options| - 1], id);
    }
  }

  lemma {:induction false} NoIdsInOrder(options: seq<AttrOption>)
    ensures IdsInOrder(options, []) == []
  {
    if options != [] {
      NoIdsInOrder(options[..|options| - 1]);
    }
  }

  // ---- what a stored projection must look like ---------------------------------------------

  // j is the stored rendering of v. A multi_enum array may list its tokens in an order
  // the options have since lost.
  ghost predicate Stores(a: Attribute, v: AttributeValue, j: Json) {
    if a.dataType == MultiEnum then
      j.JArr? && forall item :: item in j.items <==> item in TokensOf(a.options, v.optionIds)
    else
      j == ApiValue(a, v)
  }

}
