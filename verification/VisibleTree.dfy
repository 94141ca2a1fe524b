// The public category tree: which categories it keeps, and what its product counts mean.
module VisibleTree {
  import opened Prelude
  import opened Categories

  datatype Product = Product(category: Id, active: bool)

  type Products = map<Id, Product>

  // ---- the public queries -------------------------------------------------------------

  // No category on the path is inactive. A category that does not exist passes.
  ghost predicate IsVisible(cats: Table, id: Id) {
    forall a :: id in cats && a in cats && cats[a].path <= cats[id].path ==> cats[a].active
  }

  // The products a public listing under path counts.
  ghost function PublicProducts(cats: Table, products: Products, path: seq<string>): set<Id> {
    set p | p in products && products[p].active && products[p].category in cats
            && IsVisible(cats, products[p].category) && path <= cats[products[p].category].path
  }

  // The active products of some categories.
  function ProductsOf(products: Products, ids: set<Id>): set<Id> {
    set p | p in products && products[p].active && products[p].category in ids
  }

  // Active categories, parents before children as ordering by path puts them.
  ghost predicate ActiveByPath(cats: Table, listing: seq<Id>) {
    && (forall id :: id in listing <==> id in cats && cats[id].active)
    && (forall i, j :: 0 <= i < j < |listing| ==> !(cats[listing[j]].path <= cats[listing[i]].path))
  }

  // A category shows when it is active and its parent shows.
  lemma VisibleBelowVisible(cats: Table, id: Id)
    requires Tree(cats) && id in cats
    ensures IsVisible(cats, id) <==>
      cats[id].active && (cats[id].parent.Some? ==> IsVisible(cats, cats[id].parent.value))
  {
    assert SoundAt(cats, id);
    var path := cats[id].path;
    var above := PathUnder(cats, cats[id].parent);
    assert above == path[..|path| - 1];
    forall a | a in cats && cats[a].path <= path
      ensures a == id || (cats[id].parent.Some? && cats[a].path <= above)
    {
      assert SoundAt(cats, a);
      if cats[a].path == path {
        SamePathSameCategory(cats, a, id);
      }
    }
    if cats[id].parent.Some? {
      assert forall a :: a in cats && cats[a].path <= above ==> cats[a].path <= path;
    }
  }

  // ---- the tree -------------------------------------------------------------------------

  datatype Node = Node(count: nat, parent: Option<Id>, children: seq<Id>)

  ghost predicate DistinctIds(ids: seq<Id>) {
    forall i, j :: 0 <= i < j < |ids| ==> ids[i] != ids[j]
  }

  // A node's children are the nodes that name it as their parent.
  ghost predicate LinkedAt(cats: Table, keys: set<Id>, id: Id, n: Node)
    requires keys <= cats.Keys && id in cats
  {
    && n.parent == cats[id].parent
    && (n.parent.Some? ==> n.parent.value in keys)
    && DistinctIds(n.children)
    && forall c :: c in n.children <==> c in keys && cats[c].parent == Some(id)
  }

  ghost predicate Linked(cats: Table, nodes: map<Id, Node>) {
    && nodes.Keys <= cats.Keys
    && forall id {:trigger LinkedAt(cats, nodes.Keys, id, nodes[id])} :: id in nodes ==>
      LinkedAt(cats, nodes.Keys, id, nodes[id])
  }

  // Of the categories in keys, those at or below id.
  ghost function Subtree(cats: Table, keys: set<Id>, id: Id): set<Id> {
    set d | d in keys && d in cats && id in cats && cats[id].path <= cats[d].path
  }

  // The node and the subtrees of its first k children.
  ghost function UpTo(cats: Table, keys: set<Id>, id: Id, children: seq<Id>, k: nat): set<Id> {
    {id} + set d, j | 0 <= j < k && j < |children| && d in Subtree(cats, keys, children[j]) :: d
  }

  lemma ParentStep(cats: Table, nodes: map<Id, Node>, id: Id, d: Id)
    requires Tree(cats) && Linked(cats, nodes) && id in nodes && d in Subtree(cats, nodes.Keys, id) && d != id
    ensures d in cats && cats[d].parent.Some? && cats[d].parent.value in Subtree(cats, nodes.Keys, id)
    ensures cats[d].parent.value in cats && cats[d].path == cats[cats[d].parent.value].path + [Label(cats[d].slug)]
    ensures cats[d].parent == Some(id) ==> d in nodes[id].children
  {
    assert SoundAt(cats, d) && SoundAt(cats, id);
    assert LinkedAt(cats, nodes.Keys, d, nodes[d]) && LinkedAt(cats, nodes.Keys, id, nodes[id]);
    if cats[d].path == cats[id].path {
      SamePathSameCategory(cats, d, id);
    }
    PrefixSnoc(cats[id].path, PathUnder(cats, cats[d].parent), Label(cats[d].slug));
  }

  // Everything strictly below a node is at or below one of its children.
  lemma ChildAbove(cats: Table, nodes: map<Id, Node>, id: Id, d: Id) returns (c: Id)
    requires Tree(cats) && Linked(cats, nodes) && id in nodes && d in Subtree(cats, nodes.Keys, id) && d != id
    ensures c in nodes[id].children && d in Subtree(cats, nodes.Keys, c)
    decreases |cats[d].path|
  {
    ParentStep(cats, nodes, id, d);
    if cats[d].parent == Some(id) {
      c := d;
    } else {
      c := ChildAbove(cats, nodes, id, cats[d].parent.value);
      assert cats[c].path <= cats[cats[d].parent.value].path <= cats[d].path;
    }
  }

  lemma ChildFacts(cats: Table, nodes: map<Id, Node>, id: Id, c: Id)
    requires Tree(cats) && Linked(cats, nodes) && id in nodes && c in nodes[id].children
    ensures c in nodes && c in cats && cats[c].parent == Some(id)
    ensures cats[c].path == cats[id].path + [Label(cats[c].slug)]
  {
    assert LinkedAt(cats, nodes.Keys, id, nodes[id]);
    assert SoundAt(cats, c);
  }

  lemma UpToWithinSubtree(cats: Table, nodes: map<Id, Node>, id: Id, k: nat, d: Id)
    requires Tree(cats) && Linked(cats, nodes) && id in nodes && k <= |nodes[id].children|
    requires d in UpTo(cats, nodes.Keys, id, nodes[id].children, k)
    ensures d in Subtree(cats, nodes.Keys, id)
  {
    if d != id {
      var j :| 0 <= j < k && d in Subtree(cats, nodes.Keys, nodes[id].children[j]);
      ChildFacts(cats, nodes, id, nodes[id].children[j]);
    }
  }

  lemma SubtreeWithinUpTo(cats: Table, nodes: map<Id, Node>, id: Id, d: Id)
    requires Tree(cats) && Linked(cats, nodes) && id in nodes && d in Subtree(cats, nodes.Keys, id)
    ensures d in UpTo(cats, nodes.Keys, id, nodes[id].children, |nodes[id].children|)
  {
    if d != id {
      var c := ChildAbove(cats, nodes, id, d);
      var j :| 0 <= j < |nodes[id].children| && nodes[id].children[j] == c;
    }
  }

  lemma SubtreeIsUpToAll(cats: Table, nodes: map<Id, Node>, id: Id)
    requires Tree(cats) && Linked(cats, nodes) && id in nodes
    ensures UpTo(cats, nodes.Keys, id, nodes[id].children, |nodes[id].children|) == Subtree(cats, nodes.Keys, id)
  {
    forall d | d in Subtree(cats, nodes.Keys, id)
      ensures d in UpTo(cats, nodes.Keys, id, nodes[id].children, |nodes[id].children|)
    {
      SubtreeWithinUpTo(cats, nodes, id, d);
    }
    forall d | d in UpTo(cats, nodes.Keys, id, nodes[id].children, |nodes[id].children|)
      ensures d in Subtree(cats, nodes.Keys, id)
    {
      UpToWithinSubtree(cats, nodes, id, |nodes[id].children|, d);
    }
  }

  lemma SiblingsApart(cats: Table, nodes: map<Id, Node>, id: Id, j: nat, k: nat, d: Id)
    requires Tree(cats) && Linked(cats, nodes) && id in nodes && j < k < |nodes[id].children|
    requires d in Subtree(cats, nodes.Keys, nodes[id].children[j])
    ensures d !in Subtree(cats, nodes.Keys, nodes[id].children[k])
  {
    var a, b := nodes[id].children[j], nodes[id].children[k];
    ChildFacts(cats, nodes, id, a);
    ChildFacts(cats, nodes, id, b);
    assert LinkedAt(cats, nodes.Keys, id, nodes[id]);
    if d in Subtree(cats, nodes.Keys, b) {
      assert cats[a].path == cats[d].path[..|cats[a].path|];
      assert cats[b].path == cats[d].path[..|cats[b].path|];
      SamePathSameCategory(cats, a, b);
    }
  }

  lemma RootOutsideChild(cats: Table, nodes: map<Id, Node>, id: Id, c: Id)
    requires Tree(cats) && Linked(cats, nodes) && id in nodes && c in nodes[id].children
    ensures c in nodes && Subtree(cats, nodes.Keys, c) <= Subtree(cats, nodes.Keys, id)
    ensures id in Subtree(cats, nodes.Keys, id) && id !in Subtree(cats, nodes.Keys, c)
  {
    ChildFacts(cats, nodes, id, c);
  }

  // Siblings have separate subtrees, none of which holds the parent.
  lemma NextChildIsApart(cats: Table, nodes: map<Id, Node>, id: Id, k: nat)
    requires Tree(cats) && Linked(cats, nodes) && id in nodes && k < |nodes[id].children|
    ensures var children := nodes[id].children;
      && children[k] in nodes
      && UpTo(cats, nodes.Keys, id, children, k) !! Subtree(cats, nodes.Keys, children[k])
      && UpTo(cats, nodes.Keys, id, children, k + 1) ==
        UpTo(cats, nodes.Keys, id, children, k) + Subtree(cats, nodes.Keys, children[k])
      && Subtree(cats, nodes.Keys, children[k]) < Subtree(cats, nodes.Keys, id)
  {
    var children, keys := nodes[id].children, nodes.Keys;
    RootOutsideChild(cats, nodes, id, children[k]);
    forall d | d in Subtree(cats, keys, children[k])
      ensures d !in UpTo(cats, keys, id, children, k)
    {
      if j :| 0 <= j < k && d in Subtree(cats, keys, children[j]) {
        SiblingsApart(cats, nodes, id, j, k, d);
      }
    }
  }

  lemma ProductsAdd(products: Products, a: set<Id>, b: set<Id>)
    requires a !! b
    ensures |ProductsOf(products, a + b)| == |ProductsOf(products, a)| + |ProductsOf(products, b)|
  {
    assert ProductsOf(products, a + b) == ProductsOf(products, a) + ProductsOf(products, b);
    assert ProductsOf(products, a) !! ProductsOf(products, b);
  }

  // ---- rolling up ------------------------------------------------------------------------

  ghost function TotalAt(cats: Table, products: Products, keys: set<Id>, id: Id): nat {
    |ProductsOf(products, Subtree(cats, keys, id))|
  }

  // Only counts changed, and only at the ids in done.
  ghost predicate CountsChanged(was: map<Id, Node>, now: map<Id, Node>, done: set<Id>) {
    && now.Keys == was.Keys
    && (forall d :: d in now ==> now[d] == was[d].(count := now[d].count))
    && (forall d :: d in now && d !in done ==> now[d] == was[d])
  }

  ghost predicate Totalled(cats: Table, products: Products, nodes: map<Id, Node>, done: set<Id>) {
    forall d :: d in done ==> d in nodes && nodes[d].count == TotalAt(cats, products, nodes.Keys, d)
  }

  ghost predicate Untotalled(products: Products, nodes: map<Id, Node>, ids: set<Id>) {
    forall d :: d in ids ==> d in nodes && nodes[d].count == |ProductsOf(products, {d})|
  }

  lemma StillLinked(cats: Table, was: map<Id, Node>, now: map<Id, Node>, done: set<Id>)
    requires Linked(cats, was) && CountsChanged(was, now, done)
    ensures Linked(cats, now)
  {
    forall id | id in now
      ensures LinkedAt(cats, now.Keys, id, now[id])
    {
      assert LinkedAt(cats, was.Keys, id, was[id]);
      assert now[id] == was[id].(count := now[id].count);
    }
  }

  // Adding one child's total extends what has been counted by its subtree.
  lemma OneMoreChild(cats: Table, products: Products, was: map<Id, Node>, before: map<Id, Node>, mid: map<Id, Node>,
                     id: Id, done: set<Id>, sub: set<Id>, below: nat)
    requires was.Keys <= cats.Keys && id in was && id in done && id !in sub && done !! sub
    requires CountsChanged(was, before, done) && Totalled(cats, products, before, done - {id}) &&
      before[id].count == |ProductsOf(products, done)|
    requires CountsChanged(before, mid, sub) && Totalled(cats, products, mid, sub) &&
      below == |ProductsOf(products, sub)|
    ensures var now := mid[id := mid[id].(count := mid[id].count + below)];
      && CountsChanged(was, now, done + sub)
      && Totalled(cats, products, now, done + sub - {id})
      && now[id].count == |ProductsOf(products, done + sub)|
  {
    ProductsAdd(products, done, sub);
    var now := mid[id := mid[id].(count := mid[id].count + below)];
    forall d | d in now
      ensures now[d] == was[d].(count := now[d].count)
    {
      assert mid[d] == before[d].(count := mid[d].count);
      assert before[d] == was[d].(count := before[d].count);
    }
    assert now.Keys == was.Keys;
  }

  lemma StillUntotalled(products: Products, was: map<Id, Node>, now: map<Id, Node>, done: set<Id>, all: set<Id>,
                        sub: set<Id>)
    requires Untotalled(products, was, all) && CountsChanged(was, now, done) && sub <= all && sub !! done
    ensures Untotalled(products, now, sub)
  {
  }

  ghost predicate Uncounted(cats: Table, products: Products, nodes: map<Id, Node>, id: Id) {
    Tree(cats) && Linked(cats, nodes) && id in nodes && Untotalled(products, nodes, Subtree(cats, nodes.Keys, id))
  }

  // The first k children are counted into the node, and their subtrees totalled.
  ghost predicate Counted(cats: Table, products: Products, was: map<Id, Node>, now: map<Id, Node>, id: Id, k: nat) {
    && Uncounted(cats, products, was, id) && k <= |was[id].children|
    && var done := UpTo(cats, was.Keys, id, was[id].children, k);
    && CountsChanged(was, now, done) && Totalled(cats, products, now, done - {id})
    && now[id].count == |ProductsOf(products, done)|
  }

  ghost predicate CountedAll(cats: Table, products: Products, was: map<Id, Node>, now: map<Id, Node>, id: Id) {
    CountsChanged(was, now, Subtree(cats, was.Keys, id)) && Totalled(cats, products, now, Subtree(cats, was.Keys, id))
  }

  lemma NothingCounted(cats: Table, products: Products, nodes: map<Id, Node>, id: Id)
    requires Uncounted(cats, products, nodes, id)
    ensures Counted(cats, products, nodes, nodes, id, 0)
  {
    assert id in Subtree(cats, nodes.Keys, id);
    assert UpTo(cats, nodes.Keys, id, nodes[id].children, 0) == {id};
  }

  lemma ReadyForChild(cats: Table, products: Products, was: map<Id, Node>, now: map<Id, Node>, id: Id, k: nat)
    requires Counted(cats, products, was, now, id, k) && k < |was[id].children|
    ensures Uncounted(cats, products, now, was[id].children[k])
    ensures Subtree(cats, now.Keys, was[id].children[k]) < Subtree(cats, was.Keys, id)
  {
    var done := UpTo(cats, was.Keys, id, was[id].children, k);
    NextChildIsApart(cats, was, id, k);
    StillLinked(cats, was, now, done);
    StillUntotalled(products, was, now, done, Subtree(cats, was.Keys, id),
      Subtree(cats, was.Keys, was[id].children[k]));
  }

  lemma ChildCounted(cats: Table, products: Products, was: map<Id, Node>, before: map<Id, Node>, mid: map<Id, Node>,
                     after: map<Id, Node>, id: Id, k: nat, below: nat)
    requires Counted(cats, products, was, before, id, k) && k < |was[id].children|
    requires CountedAll(cats, products, before, mid, was[id].children[k])
    requires below == TotalAt(cats, products, before.Keys, was[id].children[k])
    requires id in mid ==> after == mid[id := mid[id].(count := mid[id].count + below)]
    ensures id in mid && Counted(cats, products, was, after, id, k + 1)
  {
    var done := UpTo(cats, was.Keys, id, was[id].children, k);
    NextChildIsApart(cats, was, id, k);
    OneMoreChild(cats, products, was, before, mid, id, done, Subtree(cats, was.Keys, was[id].children[k]), below);
  }

  lemma AllCounted(cats: Table, products: Products, was: map<Id, Node>, now: map<Id, Node>, id: Id)
    requires id in was && Counted(cats, products, was, now, id, |was[id].children|)
    ensures CountedAll(cats, products, was, now, id) && now[id].count == TotalAt(cats, products, was.Keys, id)
  {
    SubtreeIsUpToAll(cats, was, id);
  }

  // ---- building --------------------------------------------------------------------------

  ghost predicate Listed(listing: seq<Id>, i: nat, id: Id) {
    exists k :: 0 <= k < i && k < |listing| && listing[k] == id
  }

  // After i rows, the nodes are the visible categories among them.
  ghost predicate Kept(cats: Table, listing: seq<Id>, i: nat, nodes: map<Id, Node>, roots: seq<Id>) {
    && (forall id :: id in nodes <==> id in cats && IsVisible(cats, id) && Listed(listing, i, id))
    && Linked(cats, nodes)
    && AreRoots(cats, nodes, roots)
  }

  function WithNode(cats: Table, nodes: map<Id, Node>, id: Id, count: nat): map<Id, Node>
    requires id in cats
  {
    var parent := cats[id].parent;
    if parent.None? then nodes[id := Node(count, None, [])]
    else if parent.value in nodes then
      var up := nodes[parent.value];
      nodes[parent.value := up.(children := up.children + [id])][id := Node(count, parent, [])]
    else nodes
  }

  lemma NotListedBefore(cats: Table, listing: seq<Id>, i: nat)
    requires ActiveByPath(cats, listing) && i < |listing|
    ensures listing[i] in cats && !Listed(listing, i, listing[i])
  {
  }

  lemma ParentListedBefore(cats: Table, listing: seq<Id>, i: nat)
    requires Tree(cats) && ActiveByPath(cats, listing) && i < |listing| && listing[i] in cats
    requires cats[listing[i]].parent.Some?
    ensures cats[listing[i]].parent.value in cats
    ensures cats[cats[listing[i]].parent.value].active ==> Listed(listing, i, cats[listing[i]].parent.value)
  {
    var id := listing[i];
    assert SoundAt(cats, id);
    var p := cats[id].parent.value;
    if cats[p].active {
      assert p in listing;
      var k :| 0 <= k < |listing| && listing[k] == p;
      assert cats[p].path <= cats[id].path && cats[p].path != cats[id].path;
      assert k < i;
    }
  }

  // Its parent is a node exactly when the next category shows.
  lemma ShowsIffParentKept(cats: Table, listing: seq<Id>, i: nat, nodes: map<Id, Node>, roots: seq<Id>)
    requires Tree(cats) && ActiveByPath(cats, listing) && i < |listing| && Kept(cats, listing, i, nodes, roots)
    ensures listing[i] in cats && listing[i] !in nodes
    ensures IsVisible(cats, listing[i]) <==> cats[listing[i]].parent.None? || cats[listing[i]].parent.value in nodes
  {
    var id := listing[i];
    assert id in listing;
    NotListedBefore(cats, listing, i);
    VisibleBelowVisible(cats, id);
    if cats[id].parent.Some? {
      ParentListedBefore(cats, listing, i);
      VisibleBelowVisible(cats, cats[id].parent.value);
    }
  }

  lemma NewNodeLinked(cats: Table, nodes: map<Id, Node>, id: Id, count: nat, k: Id)
    requires Tree(cats) && Linked(cats, nodes) && id in cats && id !in nodes
    requires cats[id].parent.None? || cats[id].parent.value in nodes
    requires k in nodes || k == id
    ensures var after := WithNode(cats, nodes, id, count);
      after.Keys == nodes.Keys + {id} && LinkedAt(cats, after.Keys, k, after[k])
  {
    assert SoundAt(cats, id);
    var after := WithNode(cats, nodes, id, count);
    assert after.Keys == nodes.Keys + {id};
    if k == id {
      forall c | c in after.Keys
        ensures cats[c].parent != Some(id)
      {
        if c in nodes {
          assert LinkedAt(cats, nodes.Keys, c, nodes[c]);
        }
      }
    } else {
      assert LinkedAt(cats, nodes.Keys, k, nodes[k]);
    }
  }

  lemma NextLinked(cats: Table, nodes: map<Id, Node>, id: Id, count: nat)
    requires Tree(cats) && Linked(cats, nodes) && id in cats && id !in nodes
    ensures Linked(cats, WithNode(cats, nodes, id, count))
    ensures WithNode(cats, nodes, id, count).Keys ==
      if cats[id].parent.None? || cats[id].parent.value in nodes then nodes.Keys + {id} else nodes.Keys
  {
    if cats[id].parent.None? || cats[id].parent.value in nodes {
      var after := WithNode(cats, nodes, id, count);
      NewNodeLinked(cats, nodes, id, count, id);
      forall k | k in after
        ensures LinkedAt(cats, after.Keys, k, after[k])
      {
        NewNodeLinked(cats, nodes, id, count, k);
      }
    }
  }

  lemma NextUntotalled(cats: Table, products: Products, nodes: map<Id, Node>, id: Id, count: nat)
    requires id in cats && Untotalled(products, nodes, nodes.Keys) && count == |ProductsOf(products, {id})|
    ensures Untotalled(products, WithNode(cats, nodes, id, count), WithNode(cats, nodes, id, count).Keys)
  {
  }

  lemma NextKept(cats: Table, listing: seq<Id>, i: nat, nodes: map<Id, Node>, roots: seq<Id>, count: nat)
    requires Tree(cats) && ActiveByPath(cats, listing) && i < |listing| && Kept(cats, listing, i, nodes, roots)
    ensures listing[i] in cats
    ensures Kept(cats, listing, i + 1, WithNode(cats, nodes, listing[i], count),
      if cats[listing[i]].parent.None? then roots + [listing[i]] else roots)
  {
    var id := listing[i];
    ShowsIffParentKept(cats, listing, i, nodes, roots);
    NextLinked(cats, nodes, id, count);
    NextRoots(cats, nodes, roots, id, count);
    NextKeys(cats, listing, i, nodes, WithNode(cats, nodes, id, count));
  }

  lemma NextKeys(cats: Table, listing: seq<Id>, i: nat, nodes: map<Id, Node>, after: map<Id, Node>)
    requires i < |listing| && listing[i] in cats
    requires forall id :: id in nodes <==> id in cats && IsVisible(cats, id) && Listed(listing, i, id)
    requires after.Keys == if IsVisible(cats, listing[i]) then nodes.Keys + {listing[i]} else nodes.Keys
    ensures forall id :: id in after <==> id in cats && IsVisible(cats, id) && Listed(listing, i + 1, id)
  {
  }

  lemma NextRoots(cats: Table, nodes: map<Id, Node>, roots: seq<Id>, id: Id, count: nat)
    requires AreRoots(cats, nodes, roots) && id in cats && id !in nodes
    ensures AreRoots(cats, WithNode(cats, nodes, id, count), if cats[id].parent.None? then roots + [id] else roots)
  {
  }

  // ---- from roots down ---------------------------------------------------------------------

  ghost function RootsUpTo(cats: Table, keys: set<Id>, roots: seq<Id>, j: nat): set<Id> {
    set d, k | 0 <= k < j && k < |roots| && d in Subtree(cats, keys, roots[k]) :: d
  }

  ghost predicate AreRoots(cats: Table, nodes: map<Id, Node>, roots: seq<Id>) {
    DistinctIds(roots) && forall id :: id in roots <==> id in nodes && id in cats && cats[id].parent.None?
  }

  lemma RootAbove(cats: Table, nodes: map<Id, Node>, d: Id) returns (r: Id)
    requires Tree(cats) && Linked(cats, nodes) && d in nodes
    ensures r in nodes && r in cats && cats[r].parent.None? && d in Subtree(cats, nodes.Keys, r)
    decreases |cats[d].path|
  {
    assert SoundAt(cats, d) && LinkedAt(cats, nodes.Keys, d, nodes[d]);
    if cats[d].parent.None? {
      r := d;
    } else {
      r := RootAbove(cats, nodes, cats[d].parent.value);
      assert cats[r].path <= cats[cats[d].parent.value].path <= cats[d].path;
    }
  }

  lemma RootsApart(cats: Table, nodes: map<Id, Node>, roots: seq<Id>, j: nat)
    requires Tree(cats) && Linked(cats, nodes) && AreRoots(cats, nodes, roots) && j < |roots|
    ensures RootsUpTo(cats, nodes.Keys, roots, j) !! Subtree(cats, nodes.Keys, roots[j])
    ensures RootsUpTo(cats, nodes.Keys, roots, j + 1) ==
      RootsUpTo(cats, nodes.Keys, roots, j) + Subtree(cats, nodes.Keys, roots[j])
  {
    assert roots[j] in roots && SoundAt(cats, roots[j]);
    forall d | d in RootsUpTo(cats, nodes.Keys, roots, j)
      ensures d !in Subtree(cats, nodes.Keys, roots[j])
    {
      var k :| 0 <= k < j && k < |roots| && d in Subtree(cats, nodes.Keys, roots[k]);
      assert roots[k] in roots && SoundAt(cats, roots[k]);
      if d in Subtree(cats, nodes.Keys, roots[j]) {
        assert cats[roots[k]].path == cats[d].path[..1] && cats[roots[j]].path == cats[d].path[..1];
        SamePathSameCategory(cats, roots[k], roots[j]);
      }
    }
  }

  // Before the j-th root: earlier roots' trees are totalled, the rest is as built.
  ghost predicate RootsCounted(cats: Table, products: Products, base: map<Id, Node>, now: map<Id, Node>, roots: seq<Id>,
                               j: nat) {
    && Tree(cats) && Linked(cats, base) && AreRoots(cats, base, roots) && j <= |roots|
    && Untotalled(products, base, base.Keys)
    && CountsChanged(base, now, RootsUpTo(cats, base.Keys, roots, j))
    && Totalled(cats, products, now, RootsUpTo(cats, base.Keys, roots, j))
  }

  lemma RootReady(cats: Table, products: Products, base: map<Id, Node>, now: map<Id, Node>, roots: seq<Id>, j: nat)
    requires RootsCounted(cats, products, base, now, roots, j) && j < |roots|
    ensures Uncounted(cats, products, now, roots[j])
  {
    assert roots[j] in roots;
    RootsApart(cats, base, roots, j);
    StillLinked(cats, base, now, RootsUpTo(cats, base.Keys, roots, j));
    StillUntotalled(products, base, now, RootsUpTo(cats, base.Keys, roots, j), base.Keys,
      Subtree(cats, base.Keys, roots[j]));
  }

  lemma RootDone(cats: Table, products: Products, base: map<Id, Node>, before: map<Id, Node>, now: map<Id, Node>,
                 roots: seq<Id>, j: nat)
    requires RootsCounted(cats, products, base, before, roots, j) && j < |roots| &&
      CountedAll(cats, products, before, now, roots[j])
    ensures RootsCounted(cats, products, base, now, roots, j + 1)
  {
    RootsApart(cats, base, roots, j);
    forall d | d in now
      ensures now[d] == base[d].(count := now[d].count)
    {
      assert now[d] == before[d].(count := now[d].count);
      assert before[d] == base[d].(count := before[d].count);
    }
  }

  lemma AllRootsDone(cats: Table, products: Products, base: map<Id, Node>, now: map<Id, Node>, roots: seq<Id>)
    requires RootsCounted(cats, products, base, now, roots, |roots|)
    ensures Linked(cats, now) && now.Keys == base.Keys && Totalled(cats, products, now, now.Keys)
  {
    StillLinked(cats, base, now, RootsUpTo(cats, base.Keys, roots, |roots|));
    forall d | d in base
      ensures d in RootsUpTo(cats, base.Keys, roots, |roots|)
    {
      var r := RootAbove(cats, base, d);
      assert r in roots;
      var k :| 0 <= k < |roots| && roots[k] == r;
    }
  }

  // A node's total is what the public listing counts under its path.
  lemma TotalIsPublicCount(cats: Table, products: Products, keys: set<Id>, id: Id)
    requires forall d :: d in keys <==> d in cats && IsVisible(cats, d)
    requires id in keys
    ensures TotalAt(cats, products, keys, id) == |PublicProducts(cats, products, cats[id].path)|
  {
    assert ProductsOf(products, Subtree(cats, keys, id)) == PublicProducts(cats, products, cats[id].path);
  }

  lemma AllPublicCounts(cats: Table, products: Products, nodes: map<Id, Node>)
    requires forall d :: d in nodes <==> d in cats && IsVisible(cats, d)
    requires Totalled(cats, products, nodes, nodes.Keys)
    ensures forall id :: id in nodes ==> nodes[id].count == |PublicProducts(cats, products, cats[id].path)|
  {
    forall id | id in nodes
      ensures nodes[id].count == |PublicProducts(cats, products, cats[id].path)|
    {
      TotalIsPublicCount(cats, products, nodes.Keys, id);
    }
  }

  lemma AllVisibleKept(cats: Table, listing: seq<Id>, nodes: map<Id, Node>, roots: seq<Id>)
    requires ActiveByPath(cats, listing) && Kept(cats, listing, |listing|, nodes, roots)
    ensures forall d :: d in nodes <==> d in cats && IsVisible(cats, d)
  {
  }

  // ---- siblings in order ------------------------------------------------------------------

  // The place a category takes among its siblings: by position, then by name.
  type Rank = Id -> int

  predicate InOrder(rank: Rank, ids: seq<Id>) {
    forall i, j :: 0 <= i < j < |ids| ==> rank(ids[i]) <= rank(ids[j])
  }

  // sorted holds the same ids as ids, each once, in order.
  ghost predicate SortedAs(rank: Rank, ids: seq<Id>, sorted: seq<Id>) {
    InOrder(rank, sorted) && DistinctIds(sorted) && forall id :: id in sorted <==> id in ids
  }

  function Insert(rank: Rank, x: Id, s: seq<Id>): (r: seq<Id>)
    ensures forall id :: id in r <==> id == x || id in s
    ensures |r| == |s| + 1
  {
    if s == [] then [x]
    else if rank(x) <= rank(s[0]) then [x] + s
    else
      var rest := Insert(rank, x, s[1..]);
      assert s == [s[0]] + s[1..];
      [s[0]] + rest
  }

  lemma {:induction false} InsertSorted(rank: Rank, x: Id, s: seq<Id>)
    requires InOrder(rank, s) && DistinctIds(s) && x !in s
    ensures InOrder(rank, Insert(rank, x, s)) && DistinctIds(Insert(rank, x, s))
  {
    if s != [] && rank(x) > rank(s[0]) {
      assert s == [s[0]] + s[1..];
      InsertSorted(rank, x, s[1..]);
      var rest := Insert(rank, x, s[1..]);
      forall id | id in rest
        ensures rank(s[0]) <= rank(id) && id != s[0]
      {
      }
    }
  }

  function SortIds(rank: Rank, ids: seq<Id>): seq<Id> {
    if ids == [] then [] else Insert(rank, ids[0], SortIds(rank, ids[1..]))
  }

  lemma {:induction false} SortIdsSorts(rank: Rank, ids: seq<Id>)
    requires DistinctIds(ids)
    ensures SortedAs(rank, ids, SortIds(rank, ids))
  {
    if ids != [] {
      assert ids == [ids[0]] + ids[1..];
      SortIdsSorts(rank, ids[1..]);
      InsertSorted(rank, ids[0], SortIds(rank, ids[1..]));
    }
  }

  // Only the order of children differs, and it is the right one for the nodes in done.
  ghost predicate Arranged(rank: Rank, was: map<Id, Node>, now: map<Id, Node>, done: set<Id>) {
    && now.Keys == was.Keys
    && forall id :: id in was ==>
      && now[id].(children := was[id].children) == was[id]
      && if id in done then SortedAs(rank, was[id].children, now[id].children) else now[id] == was[id]
  }

  lemma ArrangedStillLinked(cats: Table, rank: Rank, was: map<Id, Node>, now: map<Id, Node>)
    requires Linked(cats, was) && Arranged(rank, was, now, was.Keys)
    ensures Linked(cats, now)
  {
    forall id | id in now
      ensures LinkedAt(cats, now.Keys, id, now[id])
    {
      assert LinkedAt(cats, was.Keys, id, was[id]);
    }
  }

  class CategoryTree {
    var nodes: map<Id, Node>
    var roots: seq<Id>

    constructor ()
      ensures nodes == map[] && roots == []
    {
      nodes, roots := map[], [];
    }

    // Adds each descendant's products to its ancestors, children first.
    method RollUp(ghost cats: Table, ghost products: Products, id: Id) returns (total: nat)
      requires Uncounted(cats, products, nodes, id)
      modifies this`nodes
      ensures CountedAll(cats, products, old(nodes), nodes, id)
      ensures total == TotalAt(cats, products, old(nodes).Keys, id)
      decreases Subtree(cats, nodes.Keys, id), 0
    {
      var children := nodes[id].children;
      ghost var was := nodes;
      NothingCounted(cats, products, was, id);
      for k := 0 to |children|
        invariant Counted(cats, products, was, nodes, id, k)
      {
        ReadyForChild(cats, products, was, nodes, id, k);
        RollUpChild(cats, products, was, id, k, children[k]);
      }
      AllCounted(cats, products, was, nodes, id);
      total := nodes[id].count;
    }

    // Adds up one child and adds it to its parent.
    method RollUpChild(ghost cats: Table, ghost products: Products, ghost was: map<Id, Node>, id: Id, ghost k: nat,
                       child: Id)
      requires Counted(cats, products, was, nodes, id, k) && k < |was[id].children| && child == was[id].children[k]
      requires Uncounted(cats, products, nodes, child)
      modifies this`nodes
      ensures Counted(cats, products, was, nodes, id, k + 1)
      decreases Subtree(cats, nodes.Keys, child), 1
    {
      ghost var before := nodes;
      var below := RollUp(cats, products, child);
      ghost var mid := nodes;
      nodes := nodes[id := nodes[id].(count := nodes[id].count + below)];
      ChildCounted(cats, products, was, before, mid, nodes, id, k, below);
    }

    // Keeps a category when it is a root or its parent was kept, then adds up the counts and sorts siblings.
    // counts gives each active category's own active products.
    method Build(cats: Table, ghost products: Products, listing: seq<Id>, counts: map<Id, nat>, rank: Rank)
      requires Tree(cats) && ActiveByPath(cats, listing)
      requires forall id :: id in listing ==> id in counts && counts[id] == |ProductsOf(products, {id})|
      modifies this
      ensures forall id :: id in nodes <==> id in cats && IsVisible(cats, id)
      ensures Linked(cats, nodes) && AreRoots(cats, nodes, roots)
      ensures forall id :: id in nodes ==> nodes[id].count == |PublicProducts(cats, products, cats[id].path)|
      ensures InOrder(rank, roots) && forall id :: id in nodes ==> InOrder(rank, nodes[id].children)
    {
      BuildNodes(cats, products, listing, counts);
      AllVisibleKept(cats, listing, nodes, roots);
      RollUpRoots(cats, products);
      AllPublicCounts(cats, products, nodes);
      SortNodes(cats, rank);
    }

    // Puts the roots, and every node's children, in order.
    method SortNodes(ghost cats: Table, rank: Rank)
      requires Linked(cats, nodes) && DistinctIds(roots)
      modifies this
      ensures Linked(cats, nodes) && SortedAs(rank, old(roots), roots)
      ensures Arranged(rank, old(nodes), nodes, old(nodes).Keys)
    {
      ghost var was := nodes;
      SortIdsSorts(rank, roots);
      roots := SortIds(rank, roots);
      ghost var sorted := roots;
      var todo := nodes.Keys;
      while todo != {}
        invariant roots == sorted && todo <= was.Keys && Arranged(rank, was, nodes, was.Keys - todo)
      {
        var id :| id in todo;
        todo := todo - {id};
        assert LinkedAt(cats, was.Keys, id, was[id]);
        SortIdsSorts(rank, nodes[id].children);
        nodes := nodes[id := nodes[id].(children := SortIds(rank, nodes[id].children))];
      }
      ArrangedStillLinked(cats, rank, was, nodes);
    }

    method RollUpRoots(ghost cats: Table, ghost products: Products)
      requires RootsCounted(cats, products, nodes, nodes, roots, 0)
      modifies this`nodes
      ensures Linked(cats, nodes) && nodes.Keys == old(nodes).Keys && Totalled(cats, products, nodes, nodes.Keys)
    {
      ghost var base := nodes;
      for j := 0 to |roots|
        invariant RootsCounted(cats, products, base, nodes, roots, j)
      {
        RootReady(cats, products, base, nodes, roots, j);
        ghost var before := nodes;
        var total := RollUp(cats, products, roots[j]);
        RootDone(cats, products, base, before, nodes, roots, j);
      }
      AllRootsDone(cats, products, base, nodes, roots);
    }

    method BuildNodes(cats: Table, ghost products: Products, listing: seq<Id>, counts: map<Id, nat>)
      requires Tree(cats) && ActiveByPath(cats, listing)
      requires forall id :: id in listing ==> id in counts && counts[id] == |ProductsOf(products, {id})|
      modifies this
      ensures Kept(cats, listing, |listing|, nodes, roots)
      ensures Untotalled(products, nodes, nodes.Keys)
    {
      nodes, roots := map[], [];
      for i := 0 to |listing|
        invariant Kept(cats, listing, i, nodes, roots)
        invariant Untotalled(products, nodes, nodes.Keys)
      {
        var id := listing[i];
        assert id in listing;
        ghost var before := nodes;
        NextKept(cats, listing, i, nodes, roots, counts[id]);
        NextUntotalled(cats, products, nodes, id, counts[id]);
        var parent := cats[id].parent;
        if parent.None? {
          roots := roots + [id];
          nodes := nodes[id := Node(counts[id], None, [])];
        } else if parent.value in nodes {
          var up := nodes[parent.value];
          nodes := nodes[parent.value := up.(children := up.children + [id])];
          nodes := nodes[id := Node(counts[id], parent, [])];
        }
        assert nodes == WithNode(cats, before, id, counts[id]);
      }
    }
  }
}
