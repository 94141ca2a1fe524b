// The steps catalogue edits are made of: reading a document, changing options, deleting an
// attribute's rows and rebuilding projections, each with what it does to a product's state.
module Catalogue {
  import opened Prelude
  import opened JsonPath
  import opened Attributes
  import opened Projection
  import opened ProductState

  // A document's attributes at one level, as sent by the client.
  type Raw = map<string, Json>

  datatype Failure = NotFound | Conflict | Invalid

  // ---- reading a document -----------------------------------------------------------

  // key is bound at this level and raw decodes to v.
  ghost predicate Gives(schema: Schema, axis: Axis, variant: Option<Id>, key: string, raw: Json, v: AttributeValue) {
    && v.attr in schema && schema[v.attr].key == key
    && v.attr in axis && (axis[v.attr] <==> variant.Some?)
    && Decoded(schema[v.attr], raw, variant) == Ok(v)
  }

  ghost predicate Readable(schema: Schema, axis: Axis, variant: Option<Id>, key: string, raw: Json) {
    raw.JNull? || exists v :: Gives(schema, axis, variant, key, raw, v)
  }

  // Every attribute given at this level is bound there and decodes; nulls count as absent.
  ghost predicate Accepts(schema: Schema, axis: Axis, variant: Option<Id>, fields: Raw) {
    forall key :: key in fields ==> Readable(schema, axis, variant, key, fields[key])
  }

  ghost predicate GivenBy(schema: Schema, axis: Axis, variant: Option<Id>, fields: Raw, keys: set<string>,
                          v: AttributeValue) {
    exists key ::
      key in keys && key in fields && !fields[key].JNull? && Gives(schema, axis, variant, key, fields[key], v)
  }

  ghost predicate ReadIn(schema: Schema, axis: Axis, variant: Option<Id>, key: string, raw: Json,
                         values: seq<AttributeValue>) {
    exists v :: v in values && Gives(schema, axis, variant, key, raw, v)
  }

  // The values the keys give at this level are exactly these.
  ghost predicate ReadAs(schema: Schema, axis: Axis, variant: Option<Id>, fields: Raw, keys: set<string>,
                         values: seq<AttributeValue>) {
    && DistinctKeys(values)
    && (forall v :: v in values ==>
          GivenBy(schema, axis, variant, fields, keys, v) && v.attr in schema && v.variant == variant &&
            ValidValue(schema[v.attr], v))
    && (forall key :: key in keys && key in fields && !fields[key].JNull? ==>
          ReadIn(schema, axis, variant, key, fields[key], values))
  }

  lemma OneMoreKey(schema: Schema, axis: Axis, variant: Option<Id>, fields: Raw, keys: set<string>,
                   values: seq<AttributeValue>, key: string, v: AttributeValue)
    requires SoundSchema(schema) && ReadAs(schema, axis, variant, fields, keys, values)
    requires key !in keys && key in fields && !fields[key].JNull? && Gives(schema, axis, variant, key, fields[key], v)
    requires v.variant == variant && ValidValue(schema[v.attr], v)
    ensures ReadAs(schema, axis, variant, fields, keys + {key}, values + [v])
  {
  }

  lemma SkippedKey(schema: Schema, axis: Axis, variant: Option<Id>, fields: Raw, keys: set<string>,
                   values: seq<AttributeValue>, key: string)
    requires ReadAs(schema, axis, variant, fields, keys, values) && key in fields && fields[key].JNull?
    ensures ReadAs(schema, axis, variant, fields, keys + {key}, values)
  {
  }

  lemma AllRead(schema: Schema, axis: Axis, variant: Option<Id>, fields: Raw, values: seq<AttributeValue>)
    requires ReadAs(schema, axis, variant, fields, fields.Keys, values)
    ensures Accepts(schema, axis, variant, fields)
  {
  }

  method ReadLevel(schema: Schema, axis: Axis, variant: Option<Id>, fields: Raw)
    returns (r: Result<seq<AttributeValue>, Failure>)
    requires SoundSchema(schema) && schema.Keys == axis.Keys
    ensures r.Ok? <==> Accepts(schema, axis, variant, fields)
    ensures r.Ok? ==> ReadAs(schema, axis, variant, fields, fields.Keys, r.value)
  {
    var values: seq<AttributeValue> := [];
    var todo, seen := fields.Keys, {};
    while todo != {}
      invariant todo + seen == fields.Keys && todo !! seen
      invariant ReadAs(schema, axis, variant, fields, seen, values)
    {
      var key :| key in todo;
      todo := todo - {key};
      if fields[key].JNull? {
        SkippedKey(schema, axis, variant, fields, seen, values, key);
      } else if id :| id in schema && schema[id].key == key {
        var d := DecodeValue(schema[id], fields[key], variant);
        if axis[id] != variant.Some? || d.Err? {
          assert !Readable(schema, axis, variant, key, fields[key]);
          return Err(Invalid);
        }
        assert Gives(schema, axis, variant, key, fields[key], d.value);
        OneMoreKey(schema, axis, variant, fields, seen, values, key, d.value);
        values := values + [d.value];
      } else {
        assert !Readable(schema, axis, variant, key, fields[key]);
        return Err(Invalid);
      }
      seen := seen + {key};
    }
    assert seen == fields.Keys;
    AllRead(schema, axis, variant, fields, values);
    r := Ok(values);
  }

  // ---- what a save stores ---------------------------------------------------------------

  ghost predicate Rendered(schema: Schema, axis: Axis, variant: Option<Id>, key: string, raw: Json, stored: Json) {
    exists v :: Gives(schema, axis, variant, key, raw, v) && stored == ApiValue(schema[v.attr], v)
  }

  // The projection has one entry for each attribute given, its decoded value rendered.
  ghost predicate SavedLevel(schema: Schema, axis: Axis, variant: Option<Id>, fields: Raw, stored: Fields) {
    && (forall key :: key in stored <==> key in fields && !fields[key].JNull?)
    && (forall key :: key in stored ==> Rendered(schema, axis, variant, key, fields[key], stored[key]))
  }

  lemma {:induction false} ReadThenProjected(schema: Schema, axis: Axis, variant: Option<Id>, fields: Raw,
                                             values: seq<AttributeValue>)
    requires SoundSchema(schema) && ReadAs(schema, axis, variant, fields, fields.Keys, values)
    ensures SavedLevel(schema, axis, variant, fields, ProjectionOf(schema, values))
  {
    var stored := ProjectionOf(schema, values);
    ProjectionEntries(schema, values, variant);
    forall key | key in stored
      ensures key in fields && !fields[key].JNull? && Rendered(schema, axis, variant, key, fields[key], stored[key])
    {
      var v :| v in values && schema[v.attr].key == key;
      var k :| k in fields && !fields[k].JNull? && Gives(schema, axis, variant, k, fields[k], v);
    }
    forall key | key in fields && !fields[key].JNull?
      ensures key in stored
    {
      assert ReadIn(schema, axis, variant, key, fields[key], values);
      var v :| v in values && Gives(schema, axis, variant, key, fields[key], v);
    }
  }

  // values gathered so far: all fit, and the level below is stored by its projection.
  lemma {:induction false} LevelAdded(schema: Schema, axis: Axis, variants: set<Id>, doc: seq<AttributeValue>,
                                      variant: Option<Id>, fields: Raw, values: seq<AttributeValue>)
    requires SoundSchema(schema) && FitsAll(schema, axis, variants, doc) &&
      ReadAs(schema, axis, variant, fields, fields.Keys, values)
    requires forall v :: v in doc ==> v.variant != variant
    requires variant.Some? ==> variant.value in variants
    ensures FitsAll(schema, axis, variants, doc + values)
    ensures StoresLevel(schema, doc + values, variant, ProjectionOf(schema, values))
  {
    forall v | v in values
      ensures Fits(schema, axis, variants, v)
    {
      var k :| k in fields && !fields[k].JNull? && Gives(schema, axis, variant, k, fields[k], v);
    }
    assert LevelOf(schema, doc + values, variant, values);
    LevelProjectionStores(schema, doc + values, variant, values);
  }

  lemma LevelKept(schema: Schema, doc: seq<AttributeValue>, more: seq<AttributeValue>, variant: Option<Id>,
                  fields: Fields)
    requires StoresLevel(schema, doc, variant, fields) && forall v :: v in more ==> v.variant != variant
    ensures StoresLevel(schema, doc + more, variant, fields)
  {
  }

  ghost predicate DocumentAccepted(schema: Schema, axis: Axis, fields: Raw, variants: map<Id, Raw>) {
    Accepts(schema, axis, None, fields) && forall id :: id in variants ==> Accepts(schema, axis, Some(id), variants[id])
  }

  datatype ReadDoc = ReadDoc(values: seq<AttributeValue>, attrs: Fields, variants: map<Id, Fields>)

  // What the document reads as: its values fit, and each level is stored by its projection.
  ghost predicate DocumentRead(schema: Schema, axis: Axis, fields: Raw, variants: map<Id, Raw>, done: set<Id>,
                               doc: ReadDoc) {
    && done <= variants.Keys && doc.variants.Keys == done
    && FitsAll(schema, axis, variants.Keys, doc.values)
    && (forall v :: v in doc.values && v.variant.Some? ==> v.variant.value in done)
    && StoresLevel(schema, doc.values, None, doc.attrs)
    && SavedLevel(schema, axis, None, fields, doc.attrs)
    && (forall id :: id in done ==>
          && StoresLevel(schema, doc.values, Some(id), doc.variants[id])
          && SavedLevel(schema, axis, Some(id), variants[id], doc.variants[id]))
  }

  lemma {:induction false} ProductLevelRead(schema: Schema, axis: Axis, fields: Raw, variants: map<Id, Raw>,
                                            own: seq<AttributeValue>)
    requires SoundSchema(schema) && ReadAs(schema, axis, None, fields, fields.Keys, own)
    ensures DocumentRead(schema, axis, fields, variants, {}, ReadDoc(own, ProjectionOf(schema, own), map[]))
  {
    LevelAdded(schema, axis, variants.Keys, [], None, fields, own);
    assert [] + own == own;
    ReadThenProjected(schema, axis, None, fields, own);
  }

  lemma {:induction false} LevelsKept(schema: Schema, doc: ReadDoc, done: set<Id>, id: Id, own: seq<AttributeValue>)
    requires doc.variants.Keys == done && id !in done && forall v :: v in own ==> v.variant == Some(id)
    requires StoresLevel(schema, doc.values, None, doc.attrs)
    requires forall k :: k in done ==> StoresLevel(schema, doc.values, Some(k), doc.variants[k])
    ensures StoresLevel(schema, doc.values + own, None, doc.attrs)
    ensures forall k :: k in done ==> StoresLevel(schema, doc.values + own, Some(k), doc.variants[k])
  {
    LevelKept(schema, doc.values, own, None, doc.attrs);
    forall k | k in done
      ensures StoresLevel(schema, doc.values + own, Some(k), doc.variants[k])
    {
      LevelKept(schema, doc.values, own, Some(k), doc.variants[k]);
    }
  }

  lemma {:induction false} VariantAdded(schema: Schema, axis: Axis, fields: Raw, variants: map<Id, Raw>, done: set<Id>,
                                        doc: ReadDoc,
                                        id: Id, own: seq<AttributeValue>, stored: Fields)
    requires DocumentRead(schema, axis, fields, variants, done, doc) && id in variants && id !in done
    requires forall v :: v in own ==> v.variant == Some(id)
    requires FitsAll(schema, axis, variants.Keys, doc.values + own)
    requires StoresLevel(schema, doc.values + own, Some(id), stored) &&
      SavedLevel(schema, axis, Some(id), variants[id], stored)
    ensures DocumentRead(schema, axis, fields, variants, done + {id},
      ReadDoc(doc.values + own, doc.attrs, doc.variants[id := stored]))
  {
    LevelsKept(schema, doc, done, id, own);
    var after := ReadDoc(doc.values + own, doc.attrs, doc.variants[id := stored]);
    forall k | k in done + {id}
      ensures StoresLevel(schema, after.values, Some(k), after.variants[k])
      ensures SavedLevel(schema, axis, Some(k), variants[k], after.variants[k])
    {
      assert k != id ==> after.variants[k] == doc.variants[k];
    }
  }

  lemma {:induction false} OwnLevel(schema: Schema, axis: Axis, variant: Option<Id>, fields: Raw,
                                    values: seq<AttributeValue>)
    requires ReadAs(schema, axis, variant, fields, fields.Keys, values)
    ensures forall v :: v in values ==> v.variant == variant
  {
  }

  lemma {:induction false} VariantRead(schema: Schema, axis: Axis, fields: Raw, variants: map<Id, Raw>, done: set<Id>,
                                       doc: ReadDoc,
                                       id: Id, own: seq<AttributeValue>)
    requires SoundSchema(schema) && DocumentRead(schema, axis, fields, variants, done, doc)
    requires id in variants && id !in done && ReadAs(schema, axis, Some(id), variants[id], variants[id].Keys, own)
    ensures DocumentRead(schema, axis, fields, variants, done + {id},
      ReadDoc(doc.values + own, doc.attrs, doc.variants[id := ProjectionOf(schema, own)]))
  {
    OwnLevel(schema, axis, Some(id), variants[id], own);
    LevelAdded(schema, axis, variants.Keys, doc.values, Some(id), variants[id], own);
    ReadThenProjected(schema, axis, Some(id), variants[id], own);
    VariantAdded(schema, axis, fields, variants, done, doc, id, own, ProjectionOf(schema, own));
  }

  // Reads one more variant's level into the document.
  method ReadVariant(schema: Schema, axis: Axis, ghost fields: Raw, variants: map<Id, Raw>, ghost done: set<Id>,
                     doc: ReadDoc, id: Id)
    returns (r: Result<ReadDoc, Failure>)
    requires SoundSchema(schema) && schema.Keys == axis.Keys
    requires DocumentRead(schema, axis, fields, variants, done, doc) && id in variants && id !in done
    ensures r.Ok? <==> Accepts(schema, axis, Some(id), variants[id])
    ensures r.Ok? ==> DocumentRead(schema, axis, fields, variants, done + {id}, r.value)
  {
    var level := ReadLevel(schema, axis, Some(id), variants[id]);
    match level
    case Err(e) => r := Err(e);
    case Ok(own) =>
      var stored := Project(schema, own);
      VariantRead(schema, axis, fields, variants, done, doc, id, own);
      r := Ok(ReadDoc(doc.values + own, doc.attrs, doc.variants[id := stored]));
  }

  method ReadDocument(schema: Schema, axis: Axis, fields: Raw, variants: map<Id, Raw>)
    returns (r: Result<ReadDoc, Failure>)
    requires SoundSchema(schema) && schema.Keys == axis.Keys
    ensures r.Ok? <==> DocumentAccepted(schema, axis, fields, variants)
    ensures r.Ok? ==> DocumentRead(schema, axis, fields, variants, variants.Keys, r.value)
  {
    var own := ReadLevel(schema, axis, None, fields);
    if own.Err? {
      return Err(own.error);
    }
    var attrs := Project(schema, own.value);
    r := Ok(ReadDoc(own.value, attrs, map[]));
    ProductLevelRead(schema, axis, fields, variants, own.value);
    var todo, done := variants.Keys, {};
    while todo != {}
      invariant todo + done == variants.Keys && todo !! done
      invariant r.Ok? && DocumentRead(schema, axis, fields, variants, done, r.value)
      invariant forall id :: id in done ==> Accepts(schema, axis, Some(id), variants[id])
    {
      var id :| id in todo;
      todo := todo - {id};
      r := ReadVariant(schema, axis, fields, variants, done, r.value, id);
      if r.Err? {
        return;
      }
      done := done + {id};
    }
    assert done == variants.Keys;
  }

  // ---- edits that keep what is stored ------------------------------------------------------

  // v stays a valid, equally rendered value at its level.
  ghost predicate Survives(schema: Schema, axis: Axis, schema': Schema, axis': Axis, v: AttributeValue) {
    && v.attr in schema && v.attr in axis && v.attr in schema' && v.attr in axis'
    && axis'[v.attr] == axis[v.attr]
    && schema'[v.attr].key == schema[v.attr].key
    && (ValidValue(schema[v.attr], v) ==> ValidValue(schema'[v.attr], v))
    && (forall j :: Stores(schema[v.attr], v, j) ==> Stores(schema'[v.attr], v, j))
  }

  lemma LevelSurvives(schema: Schema, axis: Axis, schema': Schema, axis': Axis, doc: seq<AttributeValue>,
                      variant: Option<Id>, fields: Fields)
    requires StoresLevel(schema, doc, variant, fields)
    requires forall v :: v in doc ==> Survives(schema, axis, schema', axis', v)
    ensures StoresLevel(schema', doc, variant, fields)
  {
  }

  lemma ProductSurvives(schema: Schema, axis: Axis, schema': Schema, axis': Axis, p: Product, rows: set<Row>,
                        doc: seq<AttributeValue>)
    requires ProductSound(schema, axis, p, rows, doc)
    requires forall v :: v in doc ==> Survives(schema, axis, schema', axis', v)
    ensures ProductSound(schema', axis', p, rows, doc)
  {
    forall v | v in doc
      ensures Fits(schema', axis', p.variants.Keys, v)
    {
      assert Fits(schema, axis, p.variants.Keys, v) && Survives(schema, axis, schema', axis', v);
    }
    LevelSurvives(schema, axis, schema', axis', doc, None, p.attrs);
    forall id | id in p.variants
      ensures StoresLevel(schema', doc, Some(id), p.variants[id])
    {
      LevelSurvives(schema, axis, schema', axis', doc, Some(id), p.variants[id]);
    }
  }

  // Some row holds the attribute whenever some value does.
  lemma ValueHasRow(doc: seq<AttributeValue>, v: AttributeValue) returns (r: Row)
    requires v in doc
    ensures r in SetOf(ExplodedAll(doc)) && r.attr == v.attr
  {
    ExplodedMembers(doc);
    r := Exploded(v)[0];
    ExplodedRow(v, r);
    assert r in Exploded(v);
  }

  lemma OptionHasRow(doc: seq<AttributeValue>, v: AttributeValue, option: Id) returns (r: Row)
    requires v in doc && option in v.optionIds
    ensures r in SetOf(ExplodedAll(doc)) && r.attr == v.attr && option in r.optionIds
  {
    ExplodedMembers(doc);
    var i :| 0 <= i < |v.optionIds| && v.optionIds[i] == option;
    r := Exploded(v)[i];
    assert r in Exploded(v);
  }

  // ---- option edits -----------------------------------------------------------------

  ghost predicate KeepsOptions(before: seq<AttrOption>, after: seq<AttrOption>, ids: seq<Id>) {
    forall o: AttrOption :: o.id in ids ==> (o in before <==> o in after)
  }

  lemma {:induction false} OptionByIdIs(options: seq<AttrOption>, o: AttrOption)
    requires o in options && forall i, j :: 0 <= i < j < |options| ==> options[i].id != options[j].id
    ensures OptionById(options, o.id) == Some(o)
  {
  }

  // A value none of whose options changed stays valid and rendered as stored.
  lemma OptionsSurvive(a: Attribute, after: seq<AttrOption>, v: AttributeValue, j: Json)
    requires SoundAttribute(a) && SoundAttribute(a.(options := after)) && KeepsOptions(a.options, after, v.optionIds)
    requires ValidValue(a, v)
    ensures ValidValue(a.(options := after), v)
    ensures Stores(a, v, j) ==> Stores(a.(options := after), v, j)
  {
    forall id | id in v.optionIds
      ensures OptionById(after, id) == OptionById(a.options, id)
    {
      var o := OptionById(a.options, id).value;
      OptionByIdIs(after, o);
    }
    TokenMembers(a.options, v.optionIds);
    TokenMembers(after, v.optionIds);
    forall t
      ensures t in TokensOf(a.options, v.optionIds) <==> t in TokensOf(after, v.optionIds)
    {
      if t in TokensOf(a.options, v.optionIds) {
        var o :| o in a.options && o.id in v.optionIds && t == JStr(o.value);
        assert o in after;
      }
      if t in TokensOf(after, v.optionIds) {
        var o :| o in after && o.id in v.optionIds && t == JStr(o.value);
        assert o in a.options;
      }
    }
  }

  // ---- unbinding -----------------------------------------------------------------------

  function WithoutAttr(values: seq<AttributeValue>, attr: Id): seq<AttributeValue> {
    if values == [] then []
    else
      var n := |values| - 1;
      WithoutAttr(values[..n], attr) + if values[n].attr == attr then [] else [values[n]]
  }

  lemma {:induction false} WithoutAttrMembers(values: seq<AttributeValue>, attr: Id)
    ensures forall v :: v in WithoutAttr(values, attr) <==> v in values && v.attr != attr
  {
    if values != [] {
      var n := |values| - 1;
      WithoutAttrMembers(values[..n], attr);
      assert values == values[..n] + [values[n]];
    }
  }

  lemma {:induction false} WithoutAttrDistinct(values: seq<AttributeValue>, attr: Id)
    requires DistinctKeys(values)
    ensures DistinctKeys(WithoutAttr(values, attr))
  {
    if values != [] {
      var n := |values| - 1;
      WithoutAttrDistinct(values[..n], attr);
      WithoutAttrMembers(values[..n], attr);
      forall v | v in values[..n]
        ensures KeyOf(v) != KeyOf(values[n])
      {
        var i :| 0 <= i < n && values[i] == v;
      }
    }
  }

  function RowsWithout(rows: set<Row>, attr: Id): (rest: set<Row>)
    ensures forall r :: r in rest <==> r in rows && r.attr != attr
  {
    set r | r in rows && r.attr != attr
  }

  // Deleting an attribute's rows leaves the rows of the other values.
  lemma {:induction false} RowsOfTheRest(doc: seq<AttributeValue>, attr: Id)
    ensures SetOf(ExplodedAll(WithoutAttr(doc, attr))) == RowsWithout(SetOf(ExplodedAll(doc)), attr)
  {
    var rest := WithoutAttr(doc, attr);
    WithoutAttrMembers(doc, attr);
    ExplodedMembers(doc);
    ExplodedMembers(rest);
    forall r
      ensures r in ExplodedAll(rest) <==> r in ExplodedAll(doc) && r.attr != attr
    {
      if r in ExplodedAll(rest) {
        var v :| v in rest && r in Exploded(v);
        ExplodedRow(v, r);
        assert v in doc;
      }
      if r in ExplodedAll(doc) && r.attr != attr {
        var v :| v in doc && r in Exploded(v);
        ExplodedRow(v, r);
        assert v in rest;
      }
    }
  }

  lemma {:induction false} UnboundLevel(schema: Schema, doc: seq<AttributeValue>, attr: Id, variant: Option<Id>,
                                        fields: Fields)
    requires SoundSchema(schema) && attr in schema && StoresLevel(schema, doc, variant, fields)
    ensures StoresLevel(schema - {attr}, WithoutAttr(doc, attr), variant, fields - {schema[attr].key})
  {
    var rest := WithoutAttr(doc, attr);
    WithoutAttrMembers(doc, attr);
    forall v | v in rest && v.variant == variant
      ensures Entered(schema - {attr}, v, fields - {schema[attr].key})
    {
      assert Entered(schema, v, fields);
    }
    forall key | key in fields - {schema[attr].key}
      ensures Keyed(schema - {attr}, rest, variant, key)
    {
      var v := KeyHolder(schema, doc, variant, key);
      assert v in rest;
    }
  }

  lemma {:induction false} UnboundFits(schema: Schema, axis: Axis, variants: set<Id>, doc: seq<AttributeValue>,
                                       attr: Id)
    requires FitsAll(schema, axis, variants, doc)
    ensures FitsAll(schema - {attr}, axis - {attr}, variants, WithoutAttr(doc, attr))
  {
    WithoutAttrMembers(doc, attr);
    WithoutAttrDistinct(doc, attr);
    forall v | v in WithoutAttr(doc, attr)
      ensures Fits(schema - {attr}, axis - {attr}, variants, v)
    {
      assert Fits(schema, axis, variants, v);
    }
  }

  // The product as rebuilding its projections leaves it.
  function Reprojected(schema: Schema, p: Product, doc: seq<AttributeValue>): Product {
    p.(attrs := ProjectionOf(schema, AtLevel(doc, None)),
       variants := map id | id in p.variants :: ProjectionOf(schema, AtLevel(doc, Some(id))))
  }

  lemma {:induction false} ReprojectedSound(schema: Schema, axis: Axis, p: Product, doc: seq<AttributeValue>)
    requires SoundSchema(schema) && FitsAll(schema, axis, p.variants.Keys, doc)
    ensures ProductSound(schema, axis, Reprojected(schema, p, doc), SetOf(ExplodedAll(doc)), doc)
  {
    FitsAttrs(schema, axis, p.variants.Keys, doc);
    FreshProjectionStores(schema, doc, None);
    forall id | id in p.variants
      ensures StoresLevel(schema, doc, Some(id), ProjectionOf(schema, AtLevel(doc, Some(id))))
    {
      FreshProjectionStores(schema, doc, Some(id));
    }
    assert Reprojected(schema, p, doc).variants.Keys == p.variants.Keys;
  }

  // Reads a set of rows in no particular order.
  method ReadRows(rows: set<Row>) returns (listing: seq<Row>)
    ensures Distinct(listing) && SetOf(listing) == rows
  {
    listing := [];
    var todo := rows;
    while todo != {}
      invariant todo <= rows && SetOf(listing) == rows - todo && Distinct(listing)
    {
      var r :| r in todo;
      assert r !in SetOf(listing);
      ghost var before := listing;
      listing := listing + [r];
      todo := todo - {r};
      assert SetOf(listing) == SetOf(before) + {r};
    }
  }

  function At(perVariant: map<Id, seq<AttributeValue>>, id: Id): seq<AttributeValue> {
    if id in perVariant then perVariant[id] else []
  }

  method SplitLevels(values: seq<AttributeValue>)
    returns (own: seq<AttributeValue>, perVariant: map<Id, seq<AttributeValue>>)
    ensures own == AtLevel(values, None)
    ensures forall id :: At(perVariant, id) == AtLevel(values, Some(id))
  {
    own, perVariant := [], map[];
    for i := 0 to |values|
      invariant own == AtLevel(values[..i], None)
      invariant forall id :: At(perVariant, id) == AtLevel(values[..i], Some(id))
    {
      assert values[..i + 1][..i] == values[..i];
      match values[i].variant
      case None => own := own + [values[i]];
      case Some(id) => perVariant := perVariant[id := At(perVariant, id) + [values[i]]];
    }
    assert values[..|values|] == values;
  }

  method ProjectVariants(schema: Schema, ids: set<Id>, merged: seq<AttributeValue>,
                         perVariant: map<Id, seq<AttributeValue>>) returns (variants: map<Id, Fields>)
    requires forall id :: At(perVariant, id) == AtLevel(merged, Some(id))
    ensures variants == map id | id in ids :: ProjectionOf(schema, AtLevel(merged, Some(id)))
  {
    variants := map[];
    var todo := ids;
    while todo != {}
      invariant variants.Keys + todo == ids && variants.Keys !! todo
      invariant forall id :: id in variants ==> variants[id] == ProjectionOf(schema, AtLevel(merged, Some(id)))
    {
      var id :| id in todo;
      todo := todo - {id};
      var fields := Project(schema, At(perVariant, id));
      variants := variants[id := fields];
    }
  }

  // Recomputes a product's projections from its rows, read in whatever order.
  method RebuildProjections(schema: Schema, ghost axis: Axis, p: Product, rows: set<Row>,
                            ghost doc: seq<AttributeValue>) returns (rebuilt: Product)
    requires SoundSchema(schema) && FitsAll(schema, axis, p.variants.Keys, doc) && rows == SetOf(ExplodedAll(doc))
    ensures rebuilt == Reprojected(schema, p, doc)
  {
    var listing := ReadRows(rows);
    var merged := MergeValues(listing);
    var own, perVariant := SplitLevels(merged);
    var attrs := Project(schema, own);
    var variants := ProjectVariants(schema, p.variants.Keys, merged, perVariant);
    rebuilt := p.(attrs := attrs, variants := variants);
    MergedRebuilds(schema, axis, p, listing, doc);
  }

  lemma {:induction false} MergedRebuilds(schema: Schema, axis: Axis, p: Product, listing: seq<Row>,
                                          doc: seq<AttributeValue>)
    requires SoundSchema(schema) && FitsAll(schema, axis, p.variants.Keys, doc)
    requires Distinct(listing) && SetOf(listing) == SetOf(ExplodedAll(doc))
    ensures Reprojected(schema, p, Merged(listing)) == Reprojected(schema, p, doc)
  {
    RebuildingProjects(schema, axis, p.variants.Keys, doc, listing, None);
    forall id | id in p.variants
      ensures ProjectionOf(schema, AtLevel(Merged(listing), Some(id))) == ProjectionOf(schema, AtLevel(doc, Some(id)))
    {
      RebuildingProjects(schema, axis, p.variants.Keys, doc, listing, Some(id));
    }
  }
}
