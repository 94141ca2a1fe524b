// One product's stored state: its value rows and the projections kept beside them, and
// what the projections say about the rows.
module ProductState {
  import opened Prelude
  import opened JsonPath
  import opened Attributes
  import opened Projection
  import Filters

  type Axis = map<Id, bool>

  datatype Product = Product(category: Id, attrs: Fields, variants: map<Id, Fields>)

  // The attributes a category binds.
  function SchemaIn(attributes: Schema, axis: Axis): Schema {
    map id | id in axis && id in attributes :: attributes[id]
  }

  ghost predicate Entered(schema: Schema, v: AttributeValue, fields: Fields) {
    v.attr in schema && schema[v.attr].key in fields && Stores(schema[v.attr], v, fields[schema[v.attr].key])
  }

  ghost predicate Keyed(schema: Schema, values: seq<AttributeValue>, variant: Option<Id>, key: string) {
    exists v :: v in values && v.variant == variant && v.attr in schema && schema[v.attr].key == key
  }

  // fields is a stored projection of the values at one level: one entry each, no others.
  ghost predicate StoresLevel(schema: Schema, values: seq<AttributeValue>, variant: Option<Id>, fields: Fields) {
    && (forall v :: v in values && v.variant == variant ==> Entered(schema, v, fields))
    && (forall key :: key in fields ==> Keyed(schema, values, variant, key))
  }

  // Each value is bound by the category at the level it sits on.
  ghost predicate Fits(schema: Schema, axis: Axis, variants: set<Id>, v: AttributeValue) {
    && v.attr in schema && v.attr in axis
    && ValidValue(schema[v.attr], v)
    && (v.variant.Some? <==> axis[v.attr])
    && (v.variant.Some? ==> v.variant.value in variants)
  }

  ghost predicate FitsAll(schema: Schema, axis: Axis, variants: set<Id>, values: seq<AttributeValue>) {
    DistinctKeys(values) && forall v :: v in values ==> Fits(schema, axis, variants, v)
  }

  // doc lists the values the product was last saved with, less those unbound since:
  // the rows are those values split up, and every stored projection renders them.
  ghost predicate ProductSound(schema: Schema, axis: Axis, p: Product, rows: set<Row>, doc: seq<AttributeValue>) {
    && FitsAll(schema, axis, p.variants.Keys, doc)
    && rows == SetOf(ExplodedAll(doc))
    && StoresLevel(schema, doc, None, p.attrs)
    && forall id :: id in p.variants ==> StoresLevel(schema, doc, Some(id), p.variants[id])
  }

  // ---- consequences -------------------------------------------------------------------

  lemma SchemaInSound(attributes: Schema, axis: Axis)
    requires SoundSchema(attributes)
    ensures SoundSchema(SchemaIn(attributes, axis))
  {
  }

  lemma KeyHolder(schema: Schema, values: seq<AttributeValue>, variant: Option<Id>, key: string)
    returns (v: AttributeValue)
    requires Keyed(schema, values, variant, key)
    ensures v in values && v.variant == variant && v.attr in schema && schema[v.attr].key == key
  {
    v :| v in values && v.variant == variant && v.attr in schema && schema[v.attr].key == key;
  }

  // The level's values are all of the bound attributes, and no attribute twice.
  ghost predicate LevelOf(schema: Schema, values: seq<AttributeValue>, variant: Option<Id>, level: seq<AttributeValue>)
    {
    && DistinctKeys(level)
    && (forall v :: v in level <==> v in values && v.variant == variant)
    && (forall v :: v in level ==> v.attr in schema)
  }

  lemma {:induction false} LevelShape(schema: Schema, values: seq<AttributeValue>, variant: Option<Id>)
    requires DistinctKeys(values) && forall v :: v in values ==> v.attr in schema
    ensures LevelOf(schema, values, variant, AtLevel(values, variant))
  {
    AtLevelMembers(values, variant);
    AtLevelDistinct(values, variant);
  }

  lemma {:induction false} LevelProjectionStores(schema: Schema, values: seq<AttributeValue>, variant: Option<Id>,
                                                 level: seq<AttributeValue>)
    requires SoundSchema(schema) && LevelOf(schema, values, variant, level)
    ensures StoresLevel(schema, values, variant, ProjectionOf(schema, level))
  {
    var m := ProjectionOf(schema, level);
    ProjectionEntries(schema, level, variant);
    forall v | v in values && v.variant == variant
      ensures Entered(schema, v, m)
    {
      assert v in level;
    }
    forall key | key in m
      ensures Keyed(schema, values, variant, key)
    {
      var v :| v in level && schema[v.attr].key == key;
    }
  }

  lemma {:induction false} FreshProjectionStores(schema: Schema, values: seq<AttributeValue>, variant: Option<Id>)
    requires SoundSchema(schema) && DistinctKeys(values) && forall v :: v in values ==> v.attr in schema
    ensures StoresLevel(schema, values, variant, ProjectionOf(schema, AtLevel(values, variant)))
  {
    LevelShape(schema, values, variant);
    LevelProjectionStores(schema, values, variant, AtLevel(values, variant));
  }

  // Product-level and variant-level projections never share a key.
  lemma LevelsDisjoint(schema: Schema, axis: Axis, p: Product, rows: set<Row>, doc: seq<AttributeValue>, id: Id)
    requires SoundSchema(schema) && ProductSound(schema, axis, p, rows, doc) && id in p.variants
    ensures p.attrs.Keys !! p.variants[id].Keys
  {
  }

  lemma {:induction false} ValueAtKey(values: seq<AttributeValue>, v: AttributeValue)
    requires DistinctKeys(values) && v in values
    ensures KeyOf(v) in Reading(values) && Reading(values)[KeyOf(v)] == SlotOf(v)
  {
    ReadingMembers(values);
    var i :| 0 <= i < |values| && values[i] == v;
  }

  lemma KeyHasValue(values: seq<AttributeValue>, k: Key) returns (v: AttributeValue)
    requires DistinctKeys(values) && k in Reading(values)
    ensures v in values && KeyOf(v) == k && Reading(values)[k] == SlotOf(v)
  {
    ReadingMembers(values);
    var i :| 0 <= i < |values| && KeyOf(values[i]) == k;
    v := values[i];
  }

  // Each merged value has a counterpart in the document that renders the same.
  lemma MergedCounterpart(schema: Schema, axis: Axis, variants: set<Id>, doc: seq<AttributeValue>, listing: seq<Row>,
                          w: AttributeValue)
    returns (v: AttributeValue)
    requires FitsAll(schema, axis, variants, doc)
    requires Distinct(listing) && SetOf(listing) == SetOf(ExplodedAll(doc)) && w in Merged(listing)
    ensures v in doc && KeyOf(v) == KeyOf(w) && ApiValue(schema[v.attr], w) == ApiValue(schema[v.attr], v)
  {
    ExplodeThenMerge(doc, listing);
    ExplodedConsistent(doc);
    ExplodedMembers(doc);
    forall r | r in listing
      ensures |r.optionIds| <= 1
    {
      assert r in SetOf(ExplodedAll(doc));
      var u :| u in doc && r in Exploded(u);
    }
    MergedOptionsDistinct(listing);
    MergedKeysDistinct(listing);
    ValueAtKey(Merged(listing), w);
    v := KeyHasValue(doc, KeyOf(w));
    assert Fits(schema, axis, variants, v);
    SameSlot(schema[v.attr], v, w);
  }

  lemma DocumentCounterpart(doc: seq<AttributeValue>, listing: seq<Row>, v: AttributeValue) returns (w: AttributeValue)
    requires DistinctKeys(doc) && SetOf(listing) == SetOf(ExplodedAll(doc)) && v in doc
    ensures w in Merged(listing) && KeyOf(w) == KeyOf(v)
  {
    ExplodeThenMerge(doc, listing);
    MergedKeysDistinct(listing);
    ValueAtKey(doc, v);
    w := KeyHasValue(Merged(listing), KeyOf(v));
  }

  lemma {:induction false} MergedFits(schema: Schema, axis: Axis, variants: set<Id>, doc: seq<AttributeValue>,
                                      listing: seq<Row>)
    requires FitsAll(schema, axis, variants, doc)
    requires Distinct(listing) && SetOf(listing) == SetOf(ExplodedAll(doc))
    ensures DistinctKeys(Merged(listing))
    ensures forall w :: w in Merged(listing) ==> w.attr in schema
  {
    MergedKeysDistinct(listing);
    forall w | w in Merged(listing)
      ensures w.attr in schema
    {
      var v := MergedCounterpart(schema, axis, variants, doc, listing, w);
      assert Fits(schema, axis, variants, v);
    }
  }

  lemma {:induction false} MergedRenders(schema: Schema, axis: Axis, variants: set<Id>, doc: seq<AttributeValue>,
                                         listing: seq<Row>, variant: Option<Id>)
    requires FitsAll(schema, axis, variants, doc)
    requires Distinct(listing) && SetOf(listing) == SetOf(ExplodedAll(doc))
    requires LevelOf(schema, doc, variant, AtLevel(doc, variant))
    requires LevelOf(schema, Merged(listing), variant, AtLevel(Merged(listing), variant))
    ensures forall w :: w in AtLevel(Merged(listing), variant) ==> RendersIn(schema, w, AtLevel(doc, variant))
    ensures forall v :: v in AtLevel(doc, variant) ==> RendersIn(schema, v, AtLevel(Merged(listing), variant))
  {
    forall w | w in AtLevel(Merged(listing), variant)
      ensures RendersIn(schema, w, AtLevel(doc, variant))
    {
      var v := MergedCounterpart(schema, axis, variants, doc, listing, w);
      assert v in AtLevel(doc, variant);
    }
    forall v | v in AtLevel(doc, variant)
      ensures RendersIn(schema, v, AtLevel(Merged(listing), variant))
    {
      var w := DocumentCounterpart(doc, listing, v);
      var u := MergedCounterpart(schema, axis, variants, doc, listing, w);
      KeyedOnce(doc, u, v);
      assert w in AtLevel(Merged(listing), variant);
    }
  }

  // Rebuilding a projection from the rows, in any reading order, gives the same map as
  // projecting the document.
  lemma {:induction false} RebuildingProjects(schema: Schema, axis: Axis, variants: set<Id>, doc: seq<AttributeValue>,
                                              listing: seq<Row>, variant: Option<Id>)
    requires SoundSchema(schema) && FitsAll(schema, axis, variants, doc)
    requires Distinct(listing) && SetOf(listing) == SetOf(ExplodedAll(doc))
    ensures ProjectionOf(schema, AtLevel(Merged(listing), variant)) == ProjectionOf(schema, AtLevel(doc, variant))
  {
    MergedFits(schema, axis, variants, doc, listing);
    FitsAttrs(schema, axis, variants, doc);
    LevelShape(schema, doc, variant);
    LevelShape(schema, Merged(listing), variant);
    MergedRenders(schema, axis, variants, doc, listing, variant);
    SameProjection(schema, AtLevel(Merged(listing), variant), AtLevel(doc, variant), variant);
  }

  lemma {:induction false} SameProjection(schema: Schema, ws: seq<AttributeValue>, vs: seq<AttributeValue>,
                                          variant: Option<Id>)
    requires SoundSchema(schema) && DistinctKeys(ws) && DistinctKeys(vs)
    requires forall w :: w in ws ==> w.variant == variant && w.attr in schema
    requires forall v :: v in vs ==> v.variant == variant && v.attr in schema
    requires forall w :: w in ws ==> RendersIn(schema, w, vs)
    requires forall v :: v in vs ==> RendersIn(schema, v, ws)
    ensures ProjectionOf(schema, ws) == ProjectionOf(schema, vs)
  {
    SubProjection(schema, ws, vs, variant);
    SubProjection(schema, vs, ws, variant);
  }

  lemma FitsAttrs(schema: Schema, axis: Axis, variants: set<Id>, doc: seq<AttributeValue>)
    requires FitsAll(schema, axis, variants, doc)
    ensures forall v :: v in doc ==> v.attr in schema
  {
  }

  ghost predicate RendersIn(schema: Schema, w: AttributeValue, vs: seq<AttributeValue>) {
    exists v :: v in vs && v.attr == w.attr && w.attr in schema &&
      ApiValue(schema[v.attr], w) == ApiValue(schema[v.attr], v)
  }

  // Lists at one level that render alike, value for value, project to the same map.
  lemma {:induction false} SubProjection(schema: Schema, ws: seq<AttributeValue>, vs: seq<AttributeValue>,
                                         variant: Option<Id>)
    requires SoundSchema(schema) && DistinctKeys(ws) && DistinctKeys(vs)
    requires forall w :: w in ws ==> w.variant == variant && w.attr in schema
    requires forall v :: v in vs ==> v.variant == variant && v.attr in schema
    requires forall w :: w in ws ==> RendersIn(schema, w, vs)
    ensures forall key :: key in ProjectionOf(schema, ws) ==>
      key in ProjectionOf(schema, vs) && ProjectionOf(schema, ws)[key] == ProjectionOf(schema, vs)[key]
  {
    ProjectionEntries(schema, ws, variant);
    ProjectionEntries(schema, vs, variant);
    var mine, theirs := ProjectionOf(schema, ws), ProjectionOf(schema, vs);
    forall key | key in mine
      ensures key in theirs && mine[key] == theirs[key]
    {
      var w :| w in ws && schema[w.attr].key == key;
      var v :| v in vs && v.attr == w.attr && ApiValue(schema[v.attr], w) == ApiValue(schema[v.attr], v);
    }
  }

  // Equal, except that multi_enum arrays compare as sets.
  ghost predicate SameJson(a: Attribute, j: Json, k: Json) {
    j == k || (a.dataType == MultiEnum && j.JArr? && k.JArr? && forall item :: item in j.items <==> item in k.items)
  }

  ghost predicate SameFields(schema: Schema, f: Fields, g: Fields) {
    f.Keys == g.Keys && forall id :: id in schema && schema[id].key in f ==>
      SameJson(schema[id], f[schema[id].key], g[schema[id].key])
  }

  // The stored projection is the projection of the rows, however they are read.
  lemma {:induction false} StoredIsProjectionOfRows(schema: Schema, axis: Axis, p: Product, rows: set<Row>,
                                                    doc: seq<AttributeValue>, listing: seq<Row>)
    requires SoundSchema(schema) && ProductSound(schema, axis, p, rows, doc)
    requires Distinct(listing) && SetOf(listing) == rows
    ensures SameFields(schema, p.attrs, ProjectionOf(schema, AtLevel(Merged(listing), None)))
    ensures forall id :: id in p.variants ==>
      SameFields(schema, p.variants[id], ProjectionOf(schema, AtLevel(Merged(listing), Some(id))))
  {
    StoredLevelIsProjection(schema, axis, p, doc, listing, None, p.attrs);
    forall id | id in p.variants
      ensures SameFields(schema, p.variants[id], ProjectionOf(schema, AtLevel(Merged(listing), Some(id))))
    {
      StoredLevelIsProjection(schema, axis, p, doc, listing, Some(id), p.variants[id]);
    }
  }

  lemma {:induction false} StoredLevelIsProjection(schema: Schema, axis: Axis, p: Product, doc: seq<AttributeValue>,
                                                   listing: seq<Row>, variant: Option<Id>, fields: Fields)
    requires SoundSchema(schema) && FitsAll(schema, axis, p.variants.Keys, doc)
    requires Distinct(listing) && SetOf(listing) == SetOf(ExplodedAll(doc))
    requires StoresLevel(schema, doc, variant, fields)
    ensures SameFields(schema, fields, ProjectionOf(schema, AtLevel(Merged(listing), variant)))
  {
    var rebuilt := ProjectionOf(schema, AtLevel(doc, variant));
    RebuildingProjects(schema, axis, p.variants.Keys, doc, listing, variant);
    forall v | v in doc
      ensures v.attr in schema
    {
      assert Fits(schema, axis, p.variants.Keys, v);
    }
    FreshProjectionStores(schema, doc, variant);
    SameLevel(schema, axis, p.variants.Keys, doc, variant, fields, rebuilt);
  }

  // Two stored projections of the same values differ at most in multi_enum order.
  lemma SameLevel(schema: Schema, axis: Axis, variants: set<Id>, doc: seq<AttributeValue>, variant: Option<Id>,
                  f: Fields, g: Fields)
    requires SoundSchema(schema) && FitsAll(schema, axis, variants, doc)
    requires StoresLevel(schema, doc, variant, f) && StoresLevel(schema, doc, variant, g)
    ensures SameFields(schema, f, g)
  {
  }

  // ---- the filter path --------------------------------------------------------------------

  // The registry holds exactly the schema's attributes, by key.
  ghost predicate Registers(schema: Schema, reg: Filters.Registry) {
    && (forall id :: id in schema ==> schema[id].key in reg && reg[schema[id].key] == schema[id])
    && (forall key :: key in reg ==> exists id :: id in schema && schema[id].key == key)
  }

  // vals holds exactly the values at one level, by key.
  ghost predicate Types(schema: Schema, values: seq<AttributeValue>, variant: Option<Id>, vals: Filters.Typed) {
    && (forall v :: v in values && v.variant == variant ==>
      v.attr in schema && schema[v.attr].key in vals && vals[schema[v.attr].key] == v)
    && (forall key :: key in vals ==> Keyed(schema, values, variant, key))
  }

  lemma {:induction false} EntryProjects(schema: Schema, axis: Axis, variants: set<Id>, doc: seq<AttributeValue>,
                                         variant: Option<Id>,
                                         fields: Fields, v: AttributeValue)
    requires FitsAll(schema, axis, variants, doc) && StoresLevel(schema, doc, variant, fields)
    requires v in doc && v.variant == variant && v.attr in schema
    ensures var key := schema[v.attr].key;
      ValidValue(schema[v.attr], v) && key in fields && Stores(schema[v.attr], v, fields[key])
  {
    assert Fits(schema, axis, variants, v) && Entered(schema, v, fields);
  }

  // What the listings and facets assume of stored attributes is what every product keeps.
  lemma StoredFieldsProject(schema: Schema, axis: Axis, variants: set<Id>, doc: seq<AttributeValue>,
                            variant: Option<Id>,
                            fields: Fields, reg: Filters.Registry, vals: Filters.Typed)
    requires SoundSchema(schema) && FitsAll(schema, axis, variants, doc) && StoresLevel(schema, doc, variant, fields)
    requires Registers(schema, reg) && Types(schema, doc, variant, vals)
    ensures Filters.SoundRegistry(reg) && Filters.Projects(reg, vals, fields)
  {
    forall key | key in fields
      ensures key in vals
    {
      var v := KeyHolder(schema, doc, variant, key);
    }
    forall key | key in vals
      ensures key in reg && key in fields && ValidValue(reg[key], vals[key]) && Stores(reg[key], vals[key], fields[key])
    {
      KeyProjects(schema, axis, variants, doc, variant, fields, reg, vals, key);
    }
  }

  lemma {:induction false} KeyProjects(schema: Schema, axis: Axis, variants: set<Id>, doc: seq<AttributeValue>,
                                       variant: Option<Id>,
                                       fields: Fields, reg: Filters.Registry, vals: Filters.Typed, key: string)
    requires FitsAll(schema, axis, variants, doc) && StoresLevel(schema, doc, variant, fields)
    requires Registers(schema, reg) && Types(schema, doc, variant, vals) && key in vals
    ensures key in reg && key in fields && ValidValue(reg[key], vals[key]) && Stores(reg[key], vals[key], fields[key])
  {
    var v := KeyHolder(schema, doc, variant, key);
    EntryProjects(schema, axis, variants, doc, variant, fields, v);
  }
}
