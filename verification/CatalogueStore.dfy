// The catalogue's tables and the transactions on them. Every method keeps Valid: each
// product's rows and stored projections tell the same story, whatever happened before.
module CatalogueStore {
  import opened Prelude
  import opened Text
  import opened JsonPath
  import opened Attributes
  import opened Projection
  import opened ProductState
  import opened Catalogue

  ghost predicate ProductHolds(attributes: Schema, bindings: map<Id, Axis>, p: Product, rows: set<Row>,
                               doc: seq<AttributeValue>) {
    && p.category in bindings
    && ProductSound(SchemaIn(attributes, bindings[p.category]), bindings[p.category], p, rows, doc)
  }

  // The bindings with one attribute bound, or bound differently.
  function Bound(bindings: map<Id, Axis>, category: Id, attr: Id, isAxis: bool): (bound: map<Id, Axis>)
    requires category in bindings
    ensures bound.Keys == bindings.Keys && forall c :: c in bindings && c != category ==> bound[c] == bindings[c]
    ensures forall a :: a in bound[category] <==> a == attr || a in bindings[category]
    ensures forall a :: a in bound[category] ==>
      bound[category][a] == if a == attr then isAxis else bindings[category][a]
  {
    var axis: Axis := bindings[category][attr := isAxis];
    bindings[category := axis]
  }

  // Binding an attribute none of whose values change level keeps the product as it is.
  lemma BoundSurvives(attributes: Schema, bindings: map<Id, Axis>, category: Id, attr: Id, isAxis: bool, p: Product,
                      rows: set<Row>, doc: seq<AttributeValue>)
    requires category in bindings && attr in attributes && ProductHolds(attributes, bindings, p, rows, doc)
    requires p.category == category && attr in bindings[category] && bindings[category][attr] != isAxis ==>
      forall r :: r in rows ==> r.attr != attr
    ensures ProductHolds(attributes, Bound(bindings, category, attr, isAxis), p, rows, doc)
  {
    var bindings' := Bound(bindings, category, attr, isAxis);
    var axis, axis' := bindings[p.category], bindings'[p.category];
    var schema, schema' := SchemaIn(attributes, axis), SchemaIn(attributes, axis');
    forall v | v in doc
      ensures Survives(schema, axis, schema', axis', v)
    {
      assert Fits(schema, axis, p.variants.Keys, v);
      var r := ValueHasRow(doc, v);
    }
    ProductSurvives(schema, axis, schema', axis', p, rows, doc);
  }

  ghost predicate UsesOption(rows: set<Row>, attr: Id, option: Id) {
    exists r :: r in rows && r.attr == attr && option in r.optionIds
  }

  ghost predicate OptionUsed(rows: map<Id, set<Row>>, attr: Id, option: Id) {
    exists p :: p in rows && UsesOption(rows[p], attr, option)
  }

  method SelectOptionUsed(rows: map<Id, set<Row>>, attr: Id, option: Id) returns (used: bool)
    ensures used <==> OptionUsed(rows, attr, option)
  {
    used := exists p :: p in rows && exists r :: r in rows[p] && r.attr == attr && option in r.optionIds;
  }

  function WithOptions(attributes: Schema, attr: Id, after: seq<AttrOption>): Schema
    requires attr in attributes
  {
    attributes[attr := attributes[attr].(options := after)]
  }

  // Options a product uses are left alone: only their order may change.
  ghost predicate OptionsKeptFor(a: Attribute, after: seq<AttrOption>, rows: set<Row>) {
    forall o: AttrOption :: UsesOption(rows, a.id, o.id) ==> (o in a.options <==> o in after)
  }

  lemma OptionEditSurvives(attributes: Schema, bindings: map<Id, Axis>, attr: Id, after: seq<AttrOption>, p: Product,
                           rows: set<Row>, doc: seq<AttributeValue>)
    requires SoundSchema(attributes) && attr in attributes && SoundAttribute(attributes[attr].(options := after))
    requires ProductHolds(attributes, bindings, p, rows, doc) && OptionsKeptFor(attributes[attr], after, rows)
    ensures ProductHolds(WithOptions(attributes, attr, after), bindings, p, rows, doc)
  {
    var axis := bindings[p.category];
    var attributes' := WithOptions(attributes, attr, after);
    var schema, schema' := SchemaIn(attributes, axis), SchemaIn(attributes', axis);
    forall v | v in doc
      ensures Survives(schema, axis, schema', axis, v)
    {
      assert Fits(schema, axis, p.variants.Keys, v);
      if v.attr == attr {
        OptionsKeptForValue(attributes[attr], after, rows, doc, v);
      }
      EditSurvivedBy(attributes, axis, attr, after, v);
    }
    ProductSurvives(schema, axis, schema', axis, p, rows, doc);
  }

  lemma EditSurvivedBy(attributes: Schema, axis: Axis, attr: Id, after: seq<AttrOption>, v: AttributeValue)
    requires SoundSchema(attributes) && attr in attributes && SoundAttribute(attributes[attr].(options := after))
    requires v.attr in axis && v.attr in attributes && ValidValue(attributes[v.attr], v)
    requires v.attr == attr ==> KeepsOptions(attributes[attr].options, after, v.optionIds)
    ensures Survives(SchemaIn(attributes, axis), axis, SchemaIn(WithOptions(attributes, attr, after), axis), axis, v)
  {
    if v.attr == attr {
      ValueSurvivesEdit(attributes[attr], after, v);
    }
  }

  lemma ValueSurvivesEdit(a: Attribute, after: seq<AttrOption>, v: AttributeValue)
    requires SoundAttribute(a) && SoundAttribute(a.(options := after)) && ValidValue(a, v) &&
      KeepsOptions(a.options, after, v.optionIds)
    ensures ValidValue(a.(options := after), v)
    ensures forall j :: Stores(a, v, j) ==> Stores(a.(options := after), v, j)
  {
    forall j | Stores(a, v, j)
      ensures Stores(a.(options := after), v, j)
    {
      OptionsSurvive(a, after, v, j);
    }
    OptionsSurvive(a, after, v, ApiValue(a, v));
  }

  lemma {:induction false} OptionsKeptForValue(a: Attribute, after: seq<AttrOption>, rows: set<Row>,
                                               doc: seq<AttributeValue>, v: AttributeValue)
    requires OptionsKeptFor(a, after, rows) && rows == SetOf(ExplodedAll(doc)) && v in doc && v.attr == a.id
    ensures KeepsOptions(a.options, after, v.optionIds)
  {
    forall o: AttrOption | o.id in v.optionIds
      ensures o in a.options <==> o in after
    {
      var r := OptionHasRow(doc, v, o.id);
      assert UsesOption(rows, a.id, o.id);
    }
  }

  lemma NewAttributeSurvives(attributes: Schema, bindings: map<Id, Axis>, a: Attribute, p: Product, rows: set<Row>,
                             doc: seq<AttributeValue>)
    requires a.id !in attributes && ProductHolds(attributes, bindings, p, rows, doc) &&
      bindings[p.category].Keys <= attributes.Keys
    ensures ProductHolds(attributes[a.id := a], bindings, p, rows, doc)
  {
    assert SchemaIn(attributes[a.id := a], bindings[p.category]) == SchemaIn(attributes, bindings[p.category]);
  }

  // Unbinding: what the product's rows and projections become.
  lemma {:induction false} UnboundProduct(attributes: Schema, axis: Axis, attr: Id, p: Product, rows: set<Row>,
                                          doc: seq<AttributeValue>)
    requires SoundSchema(attributes) && attr in axis && attr in attributes
    requires ProductSound(SchemaIn(attributes, axis), axis, p, rows, doc)
    ensures FitsAll(SchemaIn(attributes, axis - {attr}), axis - {attr}, p.variants.Keys, WithoutAttr(doc, attr))
    ensures RowsWithout(rows, attr) == SetOf(ExplodedAll(WithoutAttr(doc, attr)))
    ensures StoresLevel(SchemaIn(attributes, axis - {attr}), WithoutAttr(doc, attr), None,
      p.attrs - {attributes[attr].key})
    ensures forall id :: id in p.variants ==>
      StoresLevel(SchemaIn(attributes, axis - {attr}), WithoutAttr(doc, attr), Some(id),
        p.variants[id] - {attributes[attr].key})
  {
    var schema := SchemaIn(attributes, axis);
    assert SchemaIn(attributes, axis - {attr}) == schema - {attr};
    UnboundFits(schema, axis, p.variants.Keys, doc, attr);
    RowsOfTheRest(doc, attr);
    UnboundLevel(schema, doc, attr, None, p.attrs);
    forall id | id in p.variants
      ensures StoresLevel(schema - {attr}, WithoutAttr(doc, attr), Some(id), p.variants[id] - {attributes[attr].key})
    {
      UnboundLevel(schema, doc, attr, Some(id), p.variants[id]);
    }
  }

  // after is before with the attribute's entry gone; nothing else differs but the order of
  // multi_enum arrays.
  ghost predicate EntryGone(schema: Schema, key: string, before: Product, after: Product) {
    && after.category == before.category && after.variants.Keys == before.variants.Keys
    && SameFields(schema, after.attrs, before.attrs - {key})
    && forall id :: id in before.variants ==> SameFields(schema, after.variants[id], before.variants[id] - {key})
  }

  lemma {:induction false} RebuiltLosesEntry(attributes: Schema, axis: Axis, attr: Id, p: Product, rows: set<Row>,
                                             doc: seq<AttributeValue>)
    requires SoundSchema(attributes) && attr in axis && attr in attributes
    requires ProductSound(SchemaIn(attributes, axis), axis, p, rows, doc)
    ensures var rest := WithoutAttr(doc, attr);
      var q := Reprojected(SchemaIn(attributes, axis - {attr}), p, rest);
      && ProductSound(SchemaIn(attributes, axis - {attr}), axis - {attr}, q, RowsWithout(rows, attr), rest)
      && EntryGone(SchemaIn(attributes, axis - {attr}), attributes[attr].key, p, q)
  {
    var schema := SchemaIn(attributes, axis - {attr});
    var rest := WithoutAttr(doc, attr);
    var q := Reprojected(schema, p, rest);
    SchemaInSound(attributes, axis - {attr});
    UnboundProduct(attributes, axis, attr, p, rows, doc);
    ReprojectedSound(schema, axis - {attr}, p, rest);
    SameLevel(schema, axis - {attr}, p.variants.Keys, rest, None, q.attrs, p.attrs - {attributes[attr].key});
    forall id | id in p.variants
      ensures SameFields(schema, q.variants[id], p.variants[id] - {attributes[attr].key})
    {
      SameLevel(schema, axis - {attr}, p.variants.Keys, rest, Some(id), q.variants[id],
        p.variants[id] - {attributes[attr].key});
    }
  }

  lemma NoRowNoEntry(attributes: Schema, axis: Axis, attr: Id, p: Product, rows: set<Row>, doc: seq<AttributeValue>)
    requires SoundSchema(attributes) && attr in axis && attr in attributes
    requires ProductSound(SchemaIn(attributes, axis), axis, p, rows, doc) && forall r :: r in rows ==> r.attr != attr
    ensures attributes[attr].key !in p.attrs &&
      forall id :: id in p.variants ==> attributes[attr].key !in p.variants[id]
  {
    var schema, key := SchemaIn(attributes, axis), attributes[attr].key;
    if key in p.attrs {
      var v := KeyHolder(schema, doc, None, key);
      var r := ValueHasRow(doc, v);
    }
    forall id | id in p.variants
      ensures key !in p.variants[id]
    {
      if key in p.variants[id] {
        var v := KeyHolder(schema, doc, Some(id), key);
        var r := ValueHasRow(doc, v);
      }
    }
  }

  lemma NothingToLose(schema: Schema, key: string, fields: Fields)
    requires key !in fields
    ensures fields - {key} == fields && SameFields(schema, fields, fields - {key})
  {
  }

  lemma UntouchedEntryGone(schema: Schema, key: string, p: Product)
    requires key !in p.attrs && forall id :: id in p.variants ==> key !in p.variants[id]
    ensures EntryGone(schema, key, p, p)
  {
  }

  lemma {:induction false} UntouchedSound(attributes: Schema, axis: Axis, attr: Id, p: Product, rows: set<Row>,
                                          doc: seq<AttributeValue>)
    requires SoundSchema(attributes) && attr in axis && attr in attributes
    requires ProductSound(SchemaIn(attributes, axis), axis, p, rows, doc) && forall r :: r in rows ==> r.attr != attr
    requires attributes[attr].key !in p.attrs &&
      forall id :: id in p.variants ==> attributes[attr].key !in p.variants[id]
    ensures ProductSound(SchemaIn(attributes, axis - {attr}), axis - {attr}, p, RowsWithout(rows, attr),
      WithoutAttr(doc, attr))
  {
    var schema := SchemaIn(attributes, axis - {attr});
    UnboundProduct(attributes, axis, attr, p, rows, doc);
    NothingToLose(schema, attributes[attr].key, p.attrs);
    forall id | id in p.variants
      ensures StoresLevel(schema, WithoutAttr(doc, attr), Some(id), p.variants[id])
    {
      NothingToLose(schema, attributes[attr].key, p.variants[id]);
    }
  }

  // A product with no value of the attribute needs no rebuilding.
  lemma {:induction false} UntouchedLosesEntry(attributes: Schema, axis: Axis, attr: Id, p: Product, rows: set<Row>,
                                               doc: seq<AttributeValue>)
    requires SoundSchema(attributes) && attr in axis && attr in attributes
    requires ProductSound(SchemaIn(attributes, axis), axis, p, rows, doc) && forall r :: r in rows ==> r.attr != attr
    ensures ProductSound(SchemaIn(attributes, axis - {attr}), axis - {attr}, p, RowsWithout(rows, attr),
      WithoutAttr(doc, attr))
    ensures EntryGone(SchemaIn(attributes, axis - {attr}), attributes[attr].key, p, p)
  {
    NoRowNoEntry(attributes, axis, attr, p, rows, doc);
    UntouchedSound(attributes, axis, attr, p, rows, doc);
    UntouchedEntryGone(SchemaIn(attributes, axis - {attr}), attributes[attr].key, p);
  }

  ghost predicate Holding(attributes: Schema, bindings: map<Id, Axis>, products: map<Id, Product>,
                          rows: map<Id, set<Row>>, docs: map<Id, seq<AttributeValue>>) {
    && SoundSchema(attributes)
    && (forall c :: c in bindings ==> bindings[c].Keys <= attributes.Keys)
    && products.Keys == rows.Keys == docs.Keys
    && forall p :: p in products ==> ProductHolds(attributes, bindings, products[p], rows[p], docs[p])
  }

  // Does a product of the category store a value for the attribute?
  ghost predicate HasValues(products: map<Id, Product>, rows: map<Id, set<Row>>, category: Id, attr: Id) {
    exists p, r :: p in products && p in rows && products[p].category == category && r in rows[p] && r.attr == attr
  }

  method SelectHasValues(products: map<Id, Product>, rows: map<Id, set<Row>>, category: Id, attr: Id)
    returns (has: bool)
    ensures has <==> HasValues(products, rows, category, attr)
  {
    has := exists p :: p in products && p in rows && products[p].category == category && HoldsValue(rows[p], attr);
  }

  predicate HoldsValue(rows: set<Row>, attr: Id) {
    exists q :: q in rows && q.attr == attr
  }

  lemma BoundHolds(attributes: Schema, bindings: map<Id, Axis>, products: map<Id, Product>, rows: map<Id, set<Row>>,
                   docs: map<Id, seq<AttributeValue>>, category: Id, attr: Id, isAxis: bool)
    requires Holding(attributes, bindings, products, rows, docs) && category in bindings && attr in attributes
    requires attr in bindings[category] && bindings[category][attr] != isAxis ==>
      !HasValues(products, rows, category, attr)
    ensures Holding(attributes, Bound(bindings, category, attr, isAxis), products, rows, docs)
  {
    forall p | p in products
      ensures ProductHolds(attributes, Bound(bindings, category, attr, isAxis), products[p], rows[p], docs[p])
    {
      assert !HasValues(products, rows, category, attr) && products[p].category == category ==>
        !HoldsValue(rows[p], attr);
      BoundSurvives(attributes, bindings, category, attr, isAxis, products[p], rows[p], docs[p]);
    }
  }

  lemma OptionEditHolds(attributes: Schema, bindings: map<Id, Axis>, products: map<Id, Product>,
                        rows: map<Id, set<Row>>, docs: map<Id, seq<AttributeValue>>, attr: Id, after: seq<AttrOption>)
    requires Holding(attributes, bindings, products, rows, docs) && attr in attributes &&
      SoundAttribute(attributes[attr].(options := after))
    requires forall p :: p in rows ==> OptionsKeptFor(attributes[attr], after, rows[p])
    ensures Holding(WithOptions(attributes, attr, after), bindings, products, rows, docs)
  {
    forall p | p in products
      ensures ProductHolds(WithOptions(attributes, attr, after), bindings, products[p], rows[p], docs[p])
    {
      OptionEditSurvives(attributes, bindings, attr, after, products[p], rows[p], docs[p]);
    }
  }

  lemma NewCategoryHolds(attributes: Schema, bindings: map<Id, Axis>, products: map<Id, Product>,
                         rows: map<Id, set<Row>>,
                         docs: map<Id, seq<AttributeValue>>, category: Id)
    requires Holding(attributes, bindings, products, rows, docs) && category !in bindings
    ensures Holding(attributes, bindings[category := map[]], products, rows, docs)
  {
    forall p | p in products
      ensures ProductHolds(attributes, bindings[category := map[]], products[p], rows[p], docs[p])
    {
      assert ProductHolds(attributes, bindings, products[p], rows[p], docs[p]);
    }
  }

  // Replacing one product's entries keeps the others.
  lemma SavedHolds(attributes: Schema, bindings: map<Id, Axis>, products: map<Id, Product>, rows: map<Id, set<Row>>,
                   docs: map<Id, seq<AttributeValue>>,
                   pid: Id, p: Product, r: set<Row>, doc: seq<AttributeValue>)
    requires Holding(attributes, bindings, products, rows, docs) && ProductHolds(attributes, bindings, p, r, doc)
    ensures Holding(attributes, bindings, products[pid := p], rows[pid := r], docs[pid := doc])
  {
  }

  function Unbound(bindings: map<Id, Axis>, category: Id, attr: Id): map<Id, Axis>
    requires category in bindings
  {
    bindings[category := bindings[category] - {attr}]
  }

  lemma UnboundElsewhere(attributes: Schema, bindings: map<Id, Axis>, category: Id, attr: Id, p: Product,
                         rows: set<Row>, doc: seq<AttributeValue>)
    requires category in bindings && p.category != category && ProductHolds(attributes, bindings, p, rows, doc)
    ensures ProductHolds(attributes, Unbound(bindings, category, attr), p, rows, doc)
  {
  }

  // What unbinding does to one product of the category.
  lemma {:induction false} UnboundHere(attributes: Schema, bindings: map<Id, Axis>, category: Id, attr: Id, p: Product,
                                       rows: set<Row>, doc: seq<AttributeValue>, q: Product)
    requires SoundSchema(attributes) && category in bindings && attr in bindings[category] && attr in attributes
    requires p.category == category && ProductHolds(attributes, bindings, p, rows, doc)
    requires q == if HoldsValue(rows, attr)
      then Reprojected(SchemaIn(attributes, bindings[category] - {attr}), p, WithoutAttr(doc, attr)) else p
    ensures ProductHolds(attributes, Unbound(bindings, category, attr), q, RowsWithout(rows, attr),
      WithoutAttr(doc, attr))
    ensures EntryGone(SchemaIn(attributes, bindings[category] - {attr}), attributes[attr].key, p, q)
  {
    if HoldsValue(rows, attr) {
      RebuiltLosesEntry(attributes, bindings[category], attr, p, rows, doc);
    } else {
      UntouchedLosesEntry(attributes, bindings[category], attr, p, rows, doc);
    }
  }

  function RowsAfterUnbind(products: map<Id, Product>, rows: map<Id, set<Row>>, category: Id, attr: Id)
    : map<Id, set<Row>> {
    map p | p in rows ::
      if p in products && products[p].category == category then RowsWithout(rows[p], attr) else rows[p]
  }

  ghost function DocsAfterUnbind(products: map<Id, Product>, docs: map<Id, seq<AttributeValue>>, category: Id, attr: Id)
    : map<Id, seq<AttributeValue>> {
    map p | p in docs ::
      if p in products && products[p].category == category then WithoutAttr(docs[p], attr) else docs[p]
  }

  // The products of the category that hold a value of the attribute.
  function Affected(products: map<Id, Product>, rows: map<Id, set<Row>>, category: Id, attr: Id): set<Id>
    requires products.Keys == rows.Keys
  {
    set p | p in products && products[p].category == category && HoldsValue(rows[p], attr)
  }

  ghost function RebuiltIn(schema: Schema, products: map<Id, Product>, docs: map<Id, seq<AttributeValue>>, attr: Id,
                           affected: set<Id>): map<Id, Product>
    requires products.Keys == docs.Keys
  {
    map p | p in products ::
      if p in affected then Reprojected(schema, products[p], WithoutAttr(docs[p], attr)) else products[p]
  }

  // The products after those that held values of the attribute were rebuilt.
  ghost function ProductsAfterUnbind(schema: Schema, products: map<Id, Product>, rows: map<Id, set<Row>>,
                                     docs: map<Id, seq<AttributeValue>>, category: Id, attr: Id): map<Id, Product>
    requires products.Keys == rows.Keys == docs.Keys
  {
    RebuiltIn(schema, products, docs, attr, Affected(products, rows, category, attr))
  }

  // Products of the category lose the attribute, rows and entry; the others are untouched.
  ghost predicate AttributeGone(schema: Schema, a: Attribute, category: Id,
                                products: map<Id, Product>, rows: map<Id, set<Row>>, products': map<Id, Product>,
                                rows': map<Id, set<Row>>) {
    && products'.Keys == products.Keys == rows.Keys == rows'.Keys
    && forall p :: p in products ==>
      if products[p].category == category
      then rows'[p] == RowsWithout(rows[p], a.id) && EntryGone(schema, a.key, products[p], products'[p])
      else rows'[p] == rows[p] && products'[p] == products[p]
  }

  lemma UnboundHolds(attributes: Schema, bindings: map<Id, Axis>, products: map<Id, Product>, rows: map<Id, set<Row>>,
                     docs: map<Id, seq<AttributeValue>>, category: Id, attr: Id)
    requires Holding(attributes, bindings, products, rows, docs) && category in bindings && attr in bindings[category]
    ensures var schema := SchemaIn(attributes, bindings[category] - {attr});
      var after := ProductsAfterUnbind(schema, products, rows, docs, category, attr);
      && Holding(attributes, Unbound(bindings, category, attr), after,
                 RowsAfterUnbind(products, rows, category, attr), DocsAfterUnbind(products, docs, category, attr))
      && AttributeGone(schema, attributes[attr], category, products, rows, after,
        RowsAfterUnbind(products, rows, category, attr))
  {
    var schema := SchemaIn(attributes, bindings[category] - {attr});
    var after := ProductsAfterUnbind(schema, products, rows, docs, category, attr);
    var bindings' := Unbound(bindings, category, attr);
    var rows', docs' :=
      RowsAfterUnbind(products, rows, category, attr), DocsAfterUnbind(products, docs, category, attr);
    assert after.Keys == products.Keys && rows'.Keys == rows.Keys && docs'.Keys == docs.Keys;
    forall p | p in products
      ensures ProductHolds(attributes, bindings', after[p], rows'[p], docs'[p])
      ensures products[p].category == category ==> EntryGone(schema, attributes[attr].key, products[p], after[p])
    {
      if products[p].category == category {
        UnboundHere(attributes, bindings, category, attr, products[p], rows[p], docs[p], after[p]);
      } else {
        UnboundElsewhere(attributes, bindings, category, attr, products[p], rows[p], docs[p]);
      }
    }
  }

  // The rows are those of the document, every value of which fits.
  ghost predicate ReadyAt(schema: Schema, axis: Axis, p: Product, rows: set<Row>, doc: seq<AttributeValue>) {
    FitsAll(schema, axis, p.variants.Keys, doc) && rows == SetOf(ExplodedAll(doc))
  }

  lemma {:induction false} AffectedReady(attributes: Schema, bindings: map<Id, Axis>, products: map<Id, Product>,
                                         rows: map<Id, set<Row>>, docs: map<Id, seq<AttributeValue>>, category: Id,
                                         attr: Id, affected: set<Id>)
    requires Holding(attributes, bindings, products, rows, docs) && category in bindings && attr in bindings[category]
    requires forall p :: p in affected ==> p in products && products[p].category == category
    ensures forall p :: p in affected ==>
      ReadyAt(SchemaIn(attributes, bindings[category] - {attr}), bindings[category] - {attr},
              products[p], RowsWithout(rows[p], attr), WithoutAttr(docs[p], attr))
  {
    forall p | p in affected
      ensures ReadyAt(SchemaIn(attributes, bindings[category] - {attr}), bindings[category] - {attr},
                      products[p], RowsWithout(rows[p], attr), WithoutAttr(docs[p], attr))
    {
      assert ProductHolds(attributes, bindings, products[p], rows[p], docs[p]);
      UnboundProduct(attributes, bindings[category], attr, products[p], rows[p], docs[p]);
    }
  }

  // A document all of whose attributes are bound at their level and decode.
  ghost predicate Acceptable(attributes: Schema, bindings: map<Id, Axis>, category: Id, fields: Raw,
                             variants: map<Id, Raw>) {
    && category in bindings && variants != map[]
    && DocumentAccepted(SchemaIn(attributes, bindings[category]), bindings[category], fields, variants)
  }

  ghost predicate DocumentSaved(schema: Schema, axis: Axis, fields: Raw, variants: map<Id, Raw>, p: Product) {
    && p.variants.Keys == variants.Keys
    && SavedLevel(schema, axis, None, fields, p.attrs)
    && forall id :: id in variants ==> SavedLevel(schema, axis, Some(id), variants[id], p.variants[id])
  }

  lemma ReadIsSaved(schema: Schema, axis: Axis, fields: Raw, variants: map<Id, Raw>, doc: ReadDoc, category: Id)
    requires DocumentRead(schema, axis, fields, variants, variants.Keys, doc)
    ensures DocumentSaved(schema, axis, fields, variants, Product(category, doc.attrs, doc.variants))
    ensures ProductSound(schema, axis, Product(category, doc.attrs, doc.variants), SetOf(ExplodedAll(doc.values)),
      doc.values)
  {
  }

  datatype SavedDoc = SavedDoc(product: Product, rows: seq<Row>, values: seq<AttributeValue>)

  // The product, and the rows, an acceptable document makes.
  method ReadProduct(attributes: Schema, bindings: map<Id, Axis>, category: Id, fields: Raw, variants: map<Id, Raw>)
    returns (r: Result<SavedDoc, Failure>)
    requires SoundSchema(attributes) && forall c :: c in bindings ==> bindings[c].Keys <= attributes.Keys
    ensures r.Ok? <==> Acceptable(attributes, bindings, category, fields, variants)
    ensures r.Ok? ==>
      r.value.product.category == category &&
      ProductHolds(attributes, bindings, r.value.product, SetOf(r.value.rows), r.value.values)
    ensures r.Ok? ==>
      DocumentSaved(SchemaIn(attributes, bindings[category]), bindings[category], fields, variants, r.value.product)
  {
    if category !in bindings {
      return Err(NotFound);
    }
    if variants == map[] {
      return Err(Invalid);
    }
    var axis := bindings[category];
    var schema := SchemaIn(attributes, axis);
    SchemaInSound(attributes, axis);
    var d := ReadDocument(schema, axis, fields, variants);
    match d
    case Err(e) => r := Err(e);
    case Ok(read) =>
      var inserted := InsertValues(read.values);
      ReadIsSaved(schema, axis, fields, variants, read, category);
      r := Ok(SavedDoc(Product(category, read.attrs, read.variants), inserted, read.values));
  }

  // Rebuilds each product that had rows deleted, once, from the rows it has left.
  method RebuildUnbound(attributes: Schema, bindings: map<Id, Axis>, products: map<Id, Product>,
                        rows: map<Id, set<Row>>, ghost docs: map<Id, seq<AttributeValue>>, category: Id, attr: Id)
    returns (after: map<Id, Product>)
    requires Holding(attributes, bindings, products, rows, docs) && category in bindings && attr in bindings[category]
    ensures after ==
      ProductsAfterUnbind(SchemaIn(attributes, bindings[category] - {attr}), products, rows, docs, category, attr)
  {
    var axis := bindings[category] - {attr};
    var schema := SchemaIn(attributes, axis);
    var affected := Affected(products, rows, category, attr);
    AffectedReady(attributes, bindings, products, rows, docs, category, attr, affected);
    SchemaInSound(attributes, axis);
    after := RebuildAffected(schema, axis, affected, products, rows, docs, attr);
  }

  method RebuildAffected(schema: Schema, ghost axis: Axis, affected: set<Id>, products: map<Id, Product>,
                         rows: map<Id, set<Row>>, ghost docs: map<Id, seq<AttributeValue>>, attr: Id)
    returns (after: map<Id, Product>)
    requires SoundSchema(schema) && products.Keys == rows.Keys == docs.Keys && affected <= products.Keys
    requires forall p :: p in affected ==>
      ReadyAt(schema, axis, products[p], RowsWithout(rows[p], attr), WithoutAttr(docs[p], attr))
    ensures after == RebuiltIn(schema, products, docs, attr, affected)
  {
    after := products;
    var todo := affected;
    while todo != {}
      invariant todo <= affected && after.Keys == products.Keys
      invariant forall p :: p in products ==>
        after[p] == if p in affected - todo then Reprojected(schema, products[p], WithoutAttr(docs[p], attr))
          else products[p]
    {
      var p :| p in todo;
      assert ReadyAt(schema, axis, products[p], RowsWithout(rows[p], attr), WithoutAttr(docs[p], attr));
      var rebuilt :=
        RebuildProjections(schema, axis, products[p], RowsWithout(rows[p], attr), WithoutAttr(docs[p], attr));
      after := after[p := rebuilt];
      todo := todo - {p};
    }
  }

  // ---- attributes -------------------------------------------------------------------------

  predicate KeyChar(c: char) {
    'a' <= c <= 'z' || '0' <= c <= '9' || c == '_'
  }

  predicate EndsIn(s: string, ending: string) {
    |ending| <= |s| && s[|s| - |ending|..] == ending
  }

  // snake_case, and not ending like the parameters of a bounded filter.
  predicate ValidKey(key: string) {
    && 1 <= |key| <= 63 && 'a' <= key[0] <= 'z' && (forall i :: 0 <= i < |key| ==> KeyChar(key[i]))
    && !EndsIn(key, "_min") && !EndsIn(key, "_max")
  }

  // A key as the registry wants it, and options only where the type has them, each with a
  // value of its own that is not too long.
  ghost predicate AttributeNamed(key: string, dataType: DataType, options: seq<AttrOption>) {
    && 1 <= |key| <= 63 && 'a' <= key[0] <= 'z'
    && (forall c :: c in key ==> 'a' <= c <= 'z' || '0' <= c <= '9' || c == '_')
    && (|key| >= 4 ==> key[|key| - 4..] != "_min" && key[|key| - 4..] != "_max")
    && (options != [] ==> dataType in {Enum, MultiEnum, Color})
    && OptionsNamed(options, |options|)
  }

  ghost predicate OptionsNamed(options: seq<AttrOption>, n: nat)
    requires n <= |options|
  {
    && (forall i :: 0 <= i < n ==> 1 <= |Trim(options[i].value)| <= 100)
    && (forall i, j :: 0 <= i < j < n ==> Trim(options[i].value) != Trim(options[j].value))
  }

  lemma KeysNamed(key: string)
    ensures ValidKey(key) <==> AttributeNamed(key, Enum, [])
  {
    assert (forall c :: c in key ==> KeyChar(c)) <==> forall i :: 0 <= i < |key| ==> KeyChar(key[i]);
  }

  // Each option named, and none named before.
  method NamesOptions(options: seq<AttrOption>) returns (ok: bool)
    ensures ok <==> OptionsNamed(options, |options|)
  {
    var seen: set<string> := {};
    ok := true;
    for i := 0 to |options|
      invariant ok <==> OptionsNamed(options, i)
      invariant forall v :: v in seen <==> exists j :: 0 <= j < i && Trim(options[j].value) == v
    {
      var value := Trim(options[i].value);
      if value == "" || |value| > MAX_OPTION_VALUE || value in seen {
        ok := false;
      }
      seen := seen + {value};
    }
  }

  ghost predicate KeyTaken(attributes: Schema, key: string) {
    exists id :: id in attributes && attributes[id].key == key
  }

  function AllTrimmed(options: seq<AttrOption>): (trimmed: seq<AttrOption>)
    ensures |trimmed| == |options|
    ensures forall i :: 0 <= i < |options| ==> trimmed[i] == options[i].(value := Trim(options[i].value))
  {
    seq(|options|, i requires 0 <= i < |options| => Trimmed(options[i]))
  }

  lemma NewAttributeHolds(attributes: Schema, bindings: map<Id, Axis>, products: map<Id, Product>,
                          rows: map<Id, set<Row>>, docs: map<Id, seq<AttributeValue>>, a: Attribute)
    requires Holding(attributes, bindings, products, rows, docs) && a.id !in attributes && SoundAttribute(a) &&
      !KeyTaken(attributes, a.key)
    ensures Holding(attributes[a.id := a], bindings, products, rows, docs)
  {
    forall p | p in products
      ensures ProductHolds(attributes[a.id := a], bindings, products[p], rows[p], docs[p])
    {
      NewAttributeSurvives(attributes, bindings, a, products[p], rows[p], docs[p]);
    }
  }

  // ---- options added and removed --------------------------------------------------------

  const MAX_OPTION_VALUE: nat := 100

  function Trimmed(o: AttrOption): AttrOption {
    o.(value := Trim(o.value))
  }

  function Inserted(options: seq<AttrOption>, o: AttrOption, at: nat): seq<AttrOption>
    requires at <= |options|
  {
    options[..at] + [o] + options[at..]
  }

  function Removed(options: seq<AttrOption>, i: nat): seq<AttrOption>
    requires i < |options|
  {
    options[..i] + options[i + 1..]
  }

  lemma InsertedAt(options: seq<AttrOption>, o: AttrOption, at: nat, k: nat)
    requires at <= |options| && k <= |options|
    ensures |Inserted(options, o, at)| == |options| + 1
    ensures Inserted(options, o, at)[k] == if k < at then options[k] else if k == at then o else options[k - 1]
  {
  }

  lemma InsertedMembers(options: seq<AttrOption>, o: AttrOption, at: nat)
    requires at <= |options|
    ensures forall x :: x in Inserted(options, o, at) <==> x == o || x in options
  {
    assert options == options[..at] + options[at..];
  }

  lemma OptionAdded(a: Attribute, o: AttrOption, at: nat)
    requires SoundAttribute(a) && at <= |a.options| && o.value != ""
    requires OptionByValue(a.options, o.value).None? && OptionById(a.options, o.id).None?
    ensures SoundAttribute(a.(options := Inserted(a.options, o, at)))
    ensures forall x :: x in Inserted(a.options, o, at) <==> x == o || x in a.options
  {
    var after := Inserted(a.options, o, at);
    InsertedMembers(a.options, o, at);
    forall k: nat, l: nat | k < l < |after|
      ensures after[k].id != after[l].id && after[k].value != after[l].value
    {
      InsertedAt(a.options, o, at, k);
      InsertedAt(a.options, o, at, l);
    }
  }

  lemma OptionRemoved(a: Attribute, i: nat)
    requires SoundAttribute(a) && i < |a.options|
    ensures var after := Removed(a.options, i);
      && SoundAttribute(a.(options := after))
      && (forall x :: x in a.options <==> x == a.options[i] || x in after)
      && (forall x :: x in a.options && x.id == a.options[i].id ==> x == a.options[i])
  {
    var after := Removed(a.options, i);
    assert a.options == a.options[..i] + [a.options[i]] + a.options[i + 1..];
    forall k, l | 0 <= k < l < |after|
      ensures after[k].id != after[l].id && after[k].value != after[l].value
    {
      assert after[k] == a.options[if k < i then k else k + 1];
      assert after[l] == a.options[if l < i then l else l + 1];
    }
  }

  lemma RemovalKeeps(a: Attribute, i: nat, rows: set<Row>)
    requires SoundAttribute(a) && i < |a.options| && !UsesOption(rows, a.id, a.options[i].id)
    ensures OptionsKeptFor(a, Removed(a.options, i), rows)
  {
    OptionRemoved(a, i);
  }

  lemma RemovalKeepsAll(a: Attribute, i: nat, rows: map<Id, set<Row>>)
    requires SoundAttribute(a) && i < |a.options|
    requires !OptionUsed(rows, a.id, a.options[i].id)
    ensures SoundAttribute(a.(options := Removed(a.options, i)))
    ensures forall p :: p in rows ==> OptionsKeptFor(a, Removed(a.options, i), rows[p])
  {
    OptionRemoved(a, i);
    forall p | p in rows
      ensures OptionsKeptFor(a, Removed(a.options, i), rows[p])
    {
      RemovalKeeps(a, i, rows[p]);
    }
  }

  // The option at place i taken out and put back at place j.
  function Moved(options: seq<AttrOption>, i: nat, j: nat): seq<AttrOption>
    requires i < |options| && j < |options|
  {
    Inserted(Removed(options, i), options[i], j)
  }

  function Origin(k: nat, i: nat, j: nat): int {
    if k == j then i
    else
      var m := if k < j then k else k - 1;
      if m < i then m else m + 1
  }

  lemma MovedAt(options: seq<AttrOption>, i: nat, j: nat, k: nat)
    requires i < |options| && j < |options| && k < |options|
    ensures |Moved(options, i, j)| == |options| && 0 <= Origin(k, i, j) < |options|
    ensures Moved(options, i, j)[k] == options[Origin(k, i, j)]
  {
  }

  lemma MovedFrom(options: seq<AttrOption>, i: nat, j: nat)
    requires i < |options| && j < |options|
    ensures |Moved(options, i, j)| == |options|
    ensures forall o :: o in options <==> o in Moved(options, i, j)
  {
    var moved := Moved(options, i, j);
    forall m | 0 <= m < |options|
      ensures options[m] in moved && moved[m] in options
    {
      var n := if m < i then m else m - 1;
      var k := if m == i then j else if n < j then n else n + 1;
      MovedAt(options, i, j, k);
      MovedAt(options, i, j, m);
    }
  }

  lemma MovedSound(a: Attribute, i: nat, j: nat)
    requires SoundAttribute(a) && i < |a.options| && j < |a.options|
    ensures SoundAttribute(a.(options := Moved(a.options, i, j)))
  {
    MovedFrom(a.options, i, j);
    forall k, l | 0 <= k < l < |a.options|
      ensures Moved(a.options, i, j)[k].id != Moved(a.options, i, j)[l].id
      ensures Moved(a.options, i, j)[k].value != Moved(a.options, i, j)[l].value
    {
      MovedAt(a.options, i, j, k);
      MovedAt(a.options, i, j, l);
      assert Origin(k, i, j) != Origin(l, i, j);
    }
  }

  class Store {
    var attributes: Schema
    // Each category's bound attributes, and whether they vary by variant.
    var bindings: map<Id, Axis>
    var products: map<Id, Product>
    var rows: map<Id, set<Row>>
    ghost var docs: map<Id, seq<AttributeValue>>

    ghost predicate Valid()
      reads this
    {
      Holding(attributes, bindings, products, rows, docs)
    }

    constructor ()
      ensures Valid() && attributes == map[] && bindings == map[] && products == map[]
    {
      attributes, bindings, products, rows, docs := map[], map[], map[], map[], map[];
    }

    method CreateCategory(category: Id) returns (ok: bool)
      requires Valid()
      modifies this`bindings
      ensures Valid()
      ensures ok <==> category !in old(bindings)
      ensures bindings == if ok then old(bindings)[category := map[]] else old(bindings)
    {
      ok := category !in bindings;
      if ok {
        NewCategoryHolds(attributes, bindings, products, rows, docs, category);
        bindings := bindings[category := map[]];
      }
    }

    // Refused for a key that is no key, options of a type that has none, options without a
    // value or with a repeated one, and a key in use.
    method CreateAttribute(id: Id, key: string, dataType: DataType, filterable: bool, options: seq<AttrOption>)
      returns (r: Result<Attribute, Failure>)
      requires Valid() && id !in attributes
      requires forall i, j :: 0 <= i < j < |options| ==> options[i].id != options[j].id
      modifies this`attributes
      ensures Valid()
      ensures r == Err(Invalid) <==> !AttributeNamed(Trim(key), dataType, options)
      ensures r == Err(Conflict) <==>
        AttributeNamed(Trim(key), dataType, options) && KeyTaken(old(attributes), Trim(key))
      ensures r.Ok? || r.error in {Invalid, Conflict}
      ensures r.Ok? ==> r.value == Attribute(id, Trim(key), dataType, filterable, r.value.options)
      ensures r.Ok? ==> |r.value.options| == |options|
      ensures r.Ok? ==> forall i :: 0 <= i < |options| ==>
        r.value.options[i] == options[i].(value := Trim(options[i].value))
      ensures attributes == if r.Ok? then old(attributes)[id := r.value] else old(attributes)
    {
      KeysNamed(Trim(key));
      var named := NamesOptions(options);
      if !ValidKey(Trim(key)) || (!UsesOptions(dataType) && options != []) || !named {
        return Err(Invalid);
      }
      if exists other :: other in attributes && attributes[other].key == Trim(key) {
        return Err(Conflict);
      }
      var a := Attribute(id, Trim(key), dataType, filterable, AllTrimmed(options));
      NewAttributeHolds(attributes, bindings, products, rows, docs, a);
      attributes := attributes[id := a];
      r := Ok(a);
    }

    // The one way options change: those some product uses are neither dropped nor altered.
    method SetOptions(attr: Id, after: seq<AttrOption>)
      requires Valid() && attr in attributes && SoundAttribute(attributes[attr].(options := after))
      requires forall p :: p in rows ==> OptionsKeptFor(attributes[attr], after, rows[p])
      modifies this`attributes
      ensures Valid()
      ensures attributes == WithOptions(old(attributes), attr, after)
    {
      OptionEditHolds(attributes, bindings, products, rows, docs, attr, after);
      attributes := WithOptions(attributes, attr, after);
    }

    // Adds an option at the place its position gives it.
    method CreateOption(attr: Id, o: AttrOption, at: nat) returns (r: Result<(), Failure>)
      requires Valid()
      requires attr in attributes ==>
        at <= |attributes[attr].options| && OptionById(attributes[attr].options, o.id).None?
      requires !OptionUsed(rows, attr, o.id)
      modifies this`attributes
      ensures Valid()
      ensures r.Err? ==> attributes == old(attributes)
      ensures r == if !(1 <= |Trim(o.value)| <= 100) then Err(Invalid)
                   else if attr !in old(attributes) then Err(NotFound)
                   else if old(attributes)[attr].dataType !in {Enum, MultiEnum, Color} then Err(Invalid)
                   else if exists other :: other in old(attributes)[attr].options && other.value == Trim(o.value)
                     then Err(Conflict)
                   else Ok(())
      ensures r.Ok? ==>
        var was, added := old(attributes)[attr].options, o.(value := Trim(o.value));
        attributes == old(attributes)[attr := old(attributes)[attr].(options := was[..at] + [added] + was[at..])]
    {
      if !(0 < |Trim(o.value)| <= MAX_OPTION_VALUE) {
        return Err(Invalid);
      }
      if attr !in attributes {
        return Err(NotFound);
      }
      var a := attributes[attr];
      if !UsesOptions(a.dataType) {
        return Err(Invalid);
      }
      if OptionByValue(a.options, Trim(o.value)).Some? {
        return Err(Conflict);
      }
      OptionAdded(a, Trimmed(o), at);
      SetOptions(attr, Inserted(a.options, Trimmed(o), at));
      r := Ok(());
    }

    // Changes an option's position: the option at place i moves to place j.
    method MoveOption(attr: Id, i: nat, j: nat)
      requires Valid() && attr in attributes && i < |attributes[attr].options| && j < |attributes[attr].options|
      modifies this`attributes
      ensures Valid()
      ensures var was := old(attributes)[attr].options;
        var rest := was[..i] + was[i + 1..];
        attributes == old(attributes)[attr := old(attributes)[attr].(options := rest[..j] + [was[i]] + rest[j..])]
    {
      MovedFrom(attributes[attr].options, i, j);
      MovedSound(attributes[attr], i, j);
      SetOptions(attr, Moved(attributes[attr].options, i, j));
    }

    // An option some row uses cannot be deleted.
    method DeleteOption(attr: Id, i: nat) returns (ok: bool)
      requires Valid() && attr in attributes && i < |attributes[attr].options|
      modifies this`attributes
      ensures Valid()
      ensures ok <==> !OptionUsed(rows, attr, old(attributes)[attr].options[i].id)
      ensures !ok ==> attributes == old(attributes)
      ensures var was := old(attributes)[attr].options;
        ok ==> attributes == old(attributes)[attr := old(attributes)[attr].(options := was[..i] + was[i + 1..])]
    {
      var a := attributes[attr];
      var id := a.options[i].id;
      var used := SelectOptionUsed(rows, attr, id);
      ok := !used;
      if ok {
        RemovalKeepsAll(a, i, rows);
        SetOptions(attr, Removed(a.options, i));
      }
    }

    // Refused when the attribute would change level while products here hold values for it.
    method BindAttribute(category: Id, attr: Id, isAxis: bool) returns (r: Result<(), Failure>)
      requires Valid()
      modifies this`bindings
      ensures Valid()
      ensures category !in old(bindings) || attr !in attributes ==> r == Err(NotFound)
      ensures category in old(bindings) && attr in attributes ==>
        r == if attr in old(bindings)[category] && old(bindings)[category][attr] != isAxis &&
          HasValues(products, rows, category, attr)
             then Err(Conflict) else Ok(())
      ensures r.Err? ==> bindings == old(bindings)
      ensures r.Ok? ==> bindings == Bound(old(bindings), category, attr, isAxis)
    {
      if category !in bindings || attr !in attributes {
        return Err(NotFound);
      }
      var has := SelectHasValues(products, rows, category, attr);
      if attr in bindings[category] && bindings[category][attr] != isAxis && has {
        return Err(Conflict);
      }
      BoundHolds(attributes, bindings, products, rows, docs, category, attr, isAxis);
      bindings := Bound(bindings, category, attr, isAxis);
      r := Ok(());
    }

    method DeleteProduct(pid: Id)
      requires Valid()
      modifies this`products, this`rows, this`docs
      ensures Valid()
      ensures products == old(products) - {pid} && rows == old(rows) - {pid}
    {
      products, rows, docs := products - {pid}, rows - {pid}, docs - {pid};
    }

    // Replaces (or creates) a product from its document: rows and projections rewritten
    // wholesale, or nothing at all when an attribute is unknown, misplaced or ill-typed.
    method Save(pid: Id, category: Id, fields: Raw, variants: map<Id, Raw>) returns (r: Result<Product, Failure>)
      requires Valid()
      modifies this`products, this`rows, this`docs
      ensures Valid()
      ensures r.Ok? <==> Acceptable(attributes, bindings, category, fields, variants)
      ensures r.Err? ==> products == old(products) && rows == old(rows)
      ensures r.Ok? ==> products == old(products)[pid := r.value] && r.value.category == category
      ensures r.Ok? ==>
        DocumentSaved(SchemaIn(attributes, bindings[category]), bindings[category], fields, variants, r.value)
      ensures r.Ok? ==> pid in rows && rows == old(rows)[pid := rows[pid]]
    {
      var d := ReadProduct(attributes, bindings, category, fields, variants);
      match d
      case Err(e) => r := Err(e);
      case Ok(read) =>
        Replace(pid, read.product, SetOf(read.rows), read.values);
        r := Ok(read.product);
    }

    // Deletes what is stored of a product and stores it anew.
    method Replace(pid: Id, product: Product, stored: set<Row>, ghost doc: seq<AttributeValue>)
      requires Valid() && ProductHolds(attributes, bindings, product, stored, doc)
      modifies this`products, this`rows, this`docs
      ensures Valid() && products == old(products)[pid := product] && rows == old(rows)[pid := stored]
    {
      SavedHolds(attributes, bindings, products, rows, docs, pid, product, stored, doc);
      products, rows, docs := products[pid := product], rows[pid := stored], docs[pid := doc];
    }

    // Removes the attribute's values from the category's products and rebuilds the
    // projections of those that had any.
    method UnbindAttribute(category: Id, attr: Id) returns (ok: bool)
      requires Valid()
      modifies this`bindings, this`products, this`rows, this`docs
      ensures Valid()
      ensures ok <==> category in old(bindings) && attr in old(bindings)[category]
      ensures !ok ==> bindings == old(bindings)
      ensures ok ==> bindings == old(bindings)[category := old(bindings)[category] - {attr}]
      ensures !ok ==> products == old(products) && rows == old(rows)
      ensures ok ==>
        AttributeGone(SchemaIn(attributes, bindings[category]), attributes[attr], category, old(products), old(rows),
        products, rows)
    {
      ok := category in bindings && attr in bindings[category];
      if ok {
        UnboundHolds(attributes, bindings, products, rows, docs, category, attr);
        var rebuilt := RebuildUnbound(attributes, bindings, products, rows, docs, category, attr);
        bindings := Unbound(bindings, category, attr);
        rows, docs := RowsAfterUnbind(products, rows, category, attr), DocsAfterUnbind(products, docs, category, attr);
        products := rebuilt;
      }
    }
  }

  // In every reachable state, whatever order a product's rows are read in, the stored
  // projections are the projections of the rows, and the two levels share no key.
  lemma {:induction false} RowsAndProjectionsAgree(s: Store, pid: Id, listing: seq<Row>)
    requires s.Valid() && pid in s.products && Distinct(listing) && SetOf(listing) == s.rows[pid]
    ensures var p := s.products[pid];
      var schema := SchemaIn(s.attributes, s.bindings[p.category]);
      && SameFields(schema, p.attrs, ProjectionOf(schema, AtLevel(Merged(listing), None)))
      && forall id :: id in p.variants ==>
        && SameFields(schema, p.variants[id], ProjectionOf(schema, AtLevel(Merged(listing), Some(id))))
        && p.attrs.Keys !! p.variants[id].Keys
  {
    var p := s.products[pid];
    var axis := s.bindings[p.category];
    assert ProductHolds(s.attributes, s.bindings, p, s.rows[pid], s.docs[pid]);
    SchemaInSound(s.attributes, axis);
    StoredIsProjectionOfRows(SchemaIn(s.attributes, axis), axis, p, s.rows[pid], s.docs[pid], listing);
    forall id | id in p.variants
      ensures p.attrs.Keys !! p.variants[id].Keys
    {
      LevelsDisjoint(SchemaIn(s.attributes, axis), axis, p, s.rows[pid], s.docs[pid], id);
    }
  }
}
