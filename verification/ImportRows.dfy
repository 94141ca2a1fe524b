// What sorting a sheet and committing a batch share: the decision on a row, and rows sorted
// into groups by key, in order of appearance.
module ImportRows {
  import opened Prelude

  datatype Decision = Pending | Accept | Merge | Skip

  // The key of each row, if it belongs to a group.
  type Keys = seq<Option<string>>

  // Where the rows of a group are, among the first n.
  function Members(keys: Keys, n: nat, key: string): seq<nat>
    requires n <= |keys|
  {
    if n == 0 then []
    else Members(keys, n - 1, key) + if keys[n - 1] == Some(key) then [n - 1] else []
  }

  lemma {:induction false} MembersFacts(keys: Keys, n: nat, key: string)
    requires n <= |keys|
    ensures forall j :: 0 <= j < |Members(keys, n, key)| ==>
      Members(keys, n, key)[j] < n && keys[Members(keys, n, key)[j]] == Some(key)
    ensures forall i, j :: 0 <= i < j < |Members(keys, n, key)| ==> Members(keys, n, key)[i] < Members(keys, n, key)[j]
    ensures forall x: nat :: x < n && keys[x] == Some(key) ==> x in Members(keys, n, key)
  {
    if n > 0 {
      MembersFacts(keys, n - 1, key);
    }
  }

  // The groups in order of appearance, and the rows of each.
  datatype Groups = Groups(order: seq<string>, lists: map<string, seq<nat>>) {
    function List(key: string): seq<nat> {
      if key in lists then lists[key] else []
    }

    function Add(i: nat, key: string): Groups {
      Groups(if key in lists then order else order + [key], lists[key := List(key) + [i]])
    }
  }

  const NO_GROUPS := Groups([], map[])

  // The groups after the first n rows.
  function Sorted(keys: Keys, n: nat): Groups
    requires n <= |keys|
  {
    if n == 0 then NO_GROUPS
    else if keys[n - 1].None? then Sorted(keys, n - 1)
    else Sorted(keys, n - 1).Add(n - 1, keys[n - 1].value)
  }

  // Each group is listed once, with its rows; every row with a key is in one.
  ghost predicate Grouped(keys: Keys, n: nat, g: Groups)
    requires n <= |keys|
  {
    && (forall i, j :: 0 <= i < j < |g.order| ==> g.order[i] != g.order[j])
    && (forall key :: key in g.order <==> key in g.lists)
    && (forall key {:trigger g.List(key)} :: g.List(key) == Members(keys, n, key))
  }

  lemma OrderAdd(g: Groups, i: nat, key: string)
    requires forall i, j :: 0 <= i < j < |g.order| ==> g.order[i] != g.order[j]
    requires forall k :: k in g.order <==> k in g.lists
    ensures var more := g.Add(i, key);
      && (forall i, j :: 0 <= i < j < |more.order| ==> more.order[i] != more.order[j])
      && (forall k :: k in more.order <==> k in more.lists)
  {
  }

  lemma GroupedAdd(keys: Keys, i: nat, g: Groups, key: string)
    requires i < |keys| && Grouped(keys, i, g) && keys[i] == Some(key)
    ensures Grouped(keys, i + 1, g.Add(i, key))
  {
    OrderAdd(g, i, key);
    forall k
      ensures g.Add(i, key).List(k) == Members(keys, i + 1, k)
    {
      assert g.List(k) == Members(keys, i, k);
    }
  }

  lemma GroupedSkip(keys: Keys, i: nat, g: Groups)
    requires i < |keys| && Grouped(keys, i, g) && keys[i].None?
    ensures Grouped(keys, i + 1, g)
  {
    forall k
      ensures g.List(k) == Members(keys, i + 1, k)
    {
      assert g.List(k) == Members(keys, i, k);
    }
  }

  lemma GroupedNone(keys: Keys)
    ensures Grouped(keys, 0, NO_GROUPS)
  {
  }

  lemma {:induction false} SortedIsGrouped(keys: Keys, n: nat)
    requires n <= |keys|
    ensures Grouped(keys, n, Sorted(keys, n))
  {
    if n == 0 {
      GroupedNone(keys);
    } else {
      var before := Sorted(keys, n - 1);
      SortedIsGrouped(keys, n - 1);
      if keys[n - 1].Some? {
        GroupedAdd(keys, n - 1, before, keys[n - 1].value);
        assert Sorted(keys, n) == before.Add(n - 1, keys[n - 1].value);
      } else {
        GroupedSkip(keys, n - 1, before);
        assert Sorted(keys, n) == before;
      }
    }
  }

  // Every row with a key is in a group that order lists.
  lemma EveryKeyListed(keys: Keys, g: Groups, i: nat)
    requires Grouped(keys, |keys|, g) && i < |keys| && keys[i].Some?
    ensures keys[i].value in g.order
  {
    MembersFacts(keys, |keys|, keys[i].value);
    assert g.List(keys[i].value) == Members(keys, |keys|, keys[i].value);
  }
}
