// A staged import batch, from matching rows to existing variants through the reviewer's
// decisions to the commit that applies each chosen row once.
module ImportBatch {
  import opened Prelude
  import opened ImportRows

  type ProductId = nat
  type VariantId = nat

  datatype Status = DryRun | Reviewing | Committed | Aborted

  // target is a foreign key the database clears when the product goes; variant was stored
  // with the proposal and stays.
  datatype Row = Row(groupKey: string, sku: string, itemNo: string, hasErrors: bool,
                     decision: Decision, target: Option<ProductId>, variant: Option<VariantId>)

  datatype Variant = Variant(id: VariantId, product: ProductId, sku: string, itemNo: string)

  // ---- matching rows to existing variants ---------------------------------------------

  predicate Identifies(r: Row, v: Variant) {
    v.sku == r.sku || (r.itemNo != "" && (v.itemNo == r.itemNo || v.sku == r.itemNo))
  }

  function Matches(r: Row, variants: seq<Variant>): (found: seq<Variant>)
    ensures forall v :: v in found <==> v in variants && Identifies(r, v)
  {
    if variants == [] then []
    else
      var n := |variants| - 1;
      assert variants == variants[..n] + [variants[n]];
      Matches(r, variants[..n]) + if Identifies(r, variants[n]) then [variants[n]] else []
  }

  predicate MatchedOnce(r: Row, variants: seq<Variant>) {
    r.decision == Accept && |Matches(r, variants)| == 1
  }

  // The product of the last row of the group that matched one variant.
  function GroupTarget(rows: seq<Row>, variants: seq<Variant>, n: nat, key: string): Option<ProductId>
    requires n <= |rows|
  {
    if n == 0 then None
    else if rows[n - 1].groupKey == key && MatchedOnce(rows[n - 1], variants)
      then Some(Matches(rows[n - 1], variants)[0].product)
    else GroupTarget(rows, variants, n - 1, key)
  }

  function Proposed(r: Row, variants: seq<Variant>): Row {
    if r.decision != Accept then r
    else
      var found := Matches(r, variants);
      if |found| == 0 then r
      else if |found| == 1 then r.(decision := Merge, target := Some(found[0].product), variant := Some(found[0].id))
      else r.(decision := Pending)
  }

  function Pointed(rows: seq<Row>, variants: seq<Variant>, i: nat): Row
    requires i < |rows|
  {
    var p := Proposed(rows[i], variants);
    var target := GroupTarget(rows, variants, |rows|, p.groupKey);
    if p.decision == Accept && target.Some? then p.(target := target) else p
  }

  ghost predicate TargetsKnown(rows: seq<Row>, variants: seq<Variant>, n: nat, targets: map<string, ProductId>)
    requires n <= |rows|
  {
    forall key :: GroupTarget(rows, variants, n, key) == if key in targets then Some(targets[key]) else None
  }

  lemma TargetsStep(rows: seq<Row>, variants: seq<Variant>, i: nat, targets: map<string, ProductId>)
    requires i < |rows| && TargetsKnown(rows, variants, i, targets)
    ensures MatchedOnce(rows[i], variants) ==>
      TargetsKnown(rows, variants, i + 1, targets[rows[i].groupKey := Matches(rows[i], variants)[0].product])
    ensures !MatchedOnce(rows[i], variants) ==> TargetsKnown(rows, variants, i + 1, targets)
  {
  }

  lemma PointedMeaning(rows: seq<Row>, variants: seq<Variant>, i: nat, targets: map<string, ProductId>)
    requires i < |rows| && TargetsKnown(rows, variants, |rows|, targets)
    ensures var p := Proposed(rows[i], variants);
      Pointed(rows, variants, i) ==
      if p.decision == Accept && p.groupKey in targets then p.(target := Some(targets[p.groupKey])) else p
  {
  }

  // The variants among the first n that the row's SKU or its supplier's item number names.
  ghost function Named(r: Row, variants: seq<Variant>, n: nat): (found: set<nat>)
    requires n <= |variants|
    ensures forall k: nat :: k in found <==>
      (k < n && (variants[k].sku == r.sku ||
                 (r.itemNo != "" && (variants[k].itemNo == r.itemNo || variants[k].sku == r.itemNo))))
  {
    set k: nat | k < n &&
      (variants[k].sku == r.sku || (r.itemNo != "" && (variants[k].itemNo == r.itemNo || variants[k].sku == r.itemNo)))
  }

  lemma {:induction false} NamedStep(r: Row, variants: seq<Variant>, n: nat)
    requires n < |variants|
    ensures Named(r, variants, n + 1) == Named(r, variants, n) + if Identifies(r, variants[n]) then {n} else {}
    ensures |Named(r, variants, n + 1)| == |Named(r, variants, n)| + if Identifies(r, variants[n]) then 1 else 0
  {
    assert Named(r, variants, n + 1) == Named(r, variants, n) + if Identifies(r, variants[n]) then {n} else {};
  }

  lemma {:induction false} MatchesStep(r: Row, variants: seq<Variant>, n: nat)
    requires n < |variants|
    ensures Matches(r, variants[..n + 1]) ==
      Matches(r, variants[..n]) + if Identifies(r, variants[n]) then [variants[n]] else []
  {
    assert variants[..n + 1][..n] == variants[..n];
  }

  ghost predicate FirstNamed(r: Row, variants: seq<Variant>, n: nat, v: Variant)
    requires n <= |variants|
  {
    exists k :: k in Named(r, variants, n) && variants[k] == v
  }

  lemma {:induction false} NamedMatch(r: Row, variants: seq<Variant>, n: nat)
    requires n <= |variants|
    ensures |Matches(r, variants[..n])| == |Named(r, variants, n)|
    ensures |Matches(r, variants[..n])| > 0 ==> FirstNamed(r, variants, n, Matches(r, variants[..n])[0])
  {
    if n == 0 {
      assert Named(r, variants, 0) == {};
    } else {
      var before := Matches(r, variants[..n - 1]);
      NamedMatch(r, variants, n - 1);
      NamedStep(r, variants, n - 1);
      MatchesStep(r, variants, n - 1);
      assert before == [] && Identifies(r, variants[n - 1]) ==> FirstNamed(r, variants, n, variants[n - 1]);
      assert before != [] ==> FirstNamed(r, variants, n, before[0]);
    }
  }

  // An accepted row that names one variant, which belongs to this product.
  ghost predicate MergesInto(r: Row, variants: seq<Variant>, p: ProductId) {
    && r.decision == Accept && |Named(r, variants, |variants|)| == 1
    && exists k :: k in Named(r, variants, |variants|) && variants[k].product == p
  }

  // The last row of the group, among the first n, that names one variant.
  ghost predicate LastMerge(rows: seq<Row>, variants: seq<Variant>, n: nat, key: string, h: nat, p: ProductId)
    requires n <= |rows|
  {
    && h < n && rows[h].groupKey == key && MergesInto(rows[h], variants, p)
    && forall i, q :: h < i < n && rows[i].groupKey == key ==> !MergesInto(rows[i], variants, q)
  }

  lemma {:induction false} OnceMerges(r: Row, variants: seq<Variant>)
    ensures MatchedOnce(r, variants) ==> MergesInto(r, variants, Matches(r, variants)[0].product)
    ensures !MatchedOnce(r, variants) ==> forall p :: !MergesInto(r, variants, p)
  {
    assert variants[..|variants|] == variants;
    NamedMatch(r, variants, |variants|);
  }

  lemma LastMergeStays(rows: seq<Row>, variants: seq<Variant>, n: nat, key: string)
    requires n < |rows| && (rows[n].groupKey == key ==> forall p :: !MergesInto(rows[n], variants, p))
    ensures forall h, p :: LastMerge(rows, variants, n, key, h, p) ==> LastMerge(rows, variants, n + 1, key, h, p)
  {
  }

  lemma {:induction false} GroupTargetMeans(rows: seq<Row>, variants: seq<Variant>, n: nat, key: string)
    requires n <= |rows|
    ensures var t := GroupTarget(rows, variants, n, key);
      && (t.None? ==> forall i, q :: 0 <= i < n && rows[i].groupKey == key ==> !MergesInto(rows[i], variants, q))
      && (t.Some? ==> exists h :: LastMerge(rows, variants, n, key, h, t.value))
  {
    if n > 0 {
      GroupTargetMeans(rows, variants, n - 1, key);
      OnceMerges(rows[n - 1], variants);
      if rows[n - 1].groupKey == key && MatchedOnce(rows[n - 1], variants) {
        assert LastMerge(rows, variants, n, key, n - 1, Matches(rows[n - 1], variants)[0].product);
      } else {
        LastMergeStays(rows, variants, n - 1, key);
      }
    }
  }

  // What becomes of an accepted row: one variant named makes it a merge into that variant,
  // several leave it to a person, and with none it goes where the last merge of its group goes.
  ghost predicate MatchMeans(rows: seq<Row>, variants: seq<Variant>, i: nat, after: Row)
    requires i < |rows|
  {
    var r, n := rows[i], |Named(rows[i], variants, |variants|)|;
    if r.decision != Accept then after == r
    else if n > 1 then after == r.(decision := Pending)
    else if n == 1 then
      exists k :: k in Named(r, variants, |variants|) &&
        after == r.(decision := Merge, target := Some(variants[k].product), variant := Some(variants[k].id))
    else
      || ((forall h, p :: !LastMerge(rows, variants, |rows|, r.groupKey, h, p)) && after == r)
      || (exists h, p :: LastMerge(rows, variants, |rows|, r.groupKey, h, p) && after == r.(target := Some(p)))
  }

  lemma {:induction false} PointedMeans(rows: seq<Row>, variants: seq<Variant>, i: nat)
    requires i < |rows|
    ensures MatchMeans(rows, variants, i, Pointed(rows, variants, i))
  {
    assert variants[..|variants|] == variants;
    NamedMatch(rows[i], variants, |variants|);
    GroupTargetMeans(rows, variants, |rows|, rows[i].groupKey);
  }

  // One match makes a row a merge, several leave it to a person, and the other accepted
  // rows of a merged row's group point at the same product.
  method MatchExisting(rows: array<Row>, variants: seq<Variant>)
    modifies rows
    ensures forall i :: 0 <= i < rows.Length ==> rows[i] == Pointed(old(rows[..]), variants, i)
    ensures forall i :: 0 <= i < rows.Length ==> MatchMeans(old(rows[..]), variants, i, rows[i])
  {
    ghost var was := rows[..];
    var targets: map<string, ProductId> := map[];
    for i := 0 to rows.Length
      invariant forall k :: 0 <= k < i ==> rows[k] == Proposed(was[k], variants)
      invariant forall k :: i <= k < rows.Length ==> rows[k] == was[k]
      invariant TargetsKnown(was, variants, i, targets)
    {
      TargetsStep(was, variants, i, targets);
      if rows[i].decision == Accept {
        var found := Matches(rows[i], variants);
        if |found| == 1 {
          rows[i] := rows[i].(decision := Merge, target := Some(found[0].product), variant := Some(found[0].id));
          targets := targets[rows[i].groupKey := found[0].product];
        } else if |found| > 1 {
          rows[i] := rows[i].(decision := Pending);
        }
      }
    }
    for i := 0 to rows.Length
      invariant forall k :: 0 <= k < i ==> rows[k] == Pointed(was, variants, k)
      invariant forall k :: i <= k < rows.Length ==> rows[k] == Proposed(was[k], variants)
    {
      PointedMeaning(was, variants, i, targets);
      if rows[i].groupKey in targets && rows[i].decision == Accept {
        rows[i] := rows[i].(target := Some(targets[rows[i].groupKey]));
      }
    }
    forall i | 0 <= i < rows.Length
      ensures MatchMeans(was, variants, i, rows[i])
    {
      PointedMeans(was, variants, i);
    }
  }

  // ---- applying ---------------------------------------------------------------------------

  datatype Effect =
    | MergeInto(row: nat, product: ProductId, variant: VariantId)
    | ExtendProduct(product: ProductId, rows: seq<nat>)
    | CreateProduct(product: ProductId, rows: seq<nat>)

  datatype CommitError = Closed | Undecided | MissingTarget | Refused

  // Whether the catalogue turns an effect down, given those before it.
  type Catalogue = (seq<Effect>, Effect) -> bool

  ghost predicate CanRefuse(refuses: Catalogue) {
    exists log, e :: refuses(log, e)
  }

  ghost predicate Chosen(r: Row) {
    r.decision == Accept || r.decision == Merge
  }

  function Touched(log: seq<Effect>): seq<nat> {
    if log == [] then []
    else
      var last := log[|log| - 1];
      Touched(log[..|log| - 1]) +
      match last
      case MergeInto(row, _, _) => [row]
      case ExtendProduct(_, rows) => rows
      case CreateProduct(_, rows) => rows
  }

  lemma {:induction false} TouchedSnoc(log: seq<Effect>, e: Effect)
    ensures Touched(log + [e]) == Touched(log) + match e
      case MergeInto(row, _, _) => [row]
      case ExtendProduct(_, rows) => rows
      case CreateProduct(_, rows) => rows
  {
  }

  // How often row i is among them.
  function Count(s: seq<nat>, i: nat): nat {
    if s == [] then 0 else Count(s[..|s| - 1], i) + if s[|s| - 1] == i then 1 else 0
  }

  lemma {:induction false} CountAppend(a: seq<nat>, b: seq<nat>, i: nat)
    ensures Count(a + b, i) == Count(a, i) + Count(b, i)
  {
    if b == [] {
      assert a + b == a;
    } else {
      var n := |b| - 1;
      assert (a + b)[..|a| + n] == a + b[..n];
      CountAppend(a, b[..n], i);
    }
  }

  lemma {:induction false} CountSnoc(s: seq<nat>, x: nat, i: nat)
    ensures Count(s + [x], i) == Count(s, i) + if x == i then 1 else 0
  {
  }

  ghost predicate InRange(rows: seq<Row>, members: seq<nat>) {
    forall j :: 0 <= j < |members| ==> members[j] < |rows| && Chosen(rows[members[j]])
  }

  // The rows of a group with a given decision, in order.
  function Of(rows: seq<Row>, members: seq<nat>, d: Decision): (s: seq<nat>)
    requires forall j :: 0 <= j < |members| ==> members[j] < |rows|
  {
    if members == [] then []
    else
      var n := |members| - 1;
      Of(rows, members[..n], d) + if rows[members[n]].decision == d then [members[n]] else []
  }

  lemma {:induction false} MergesAndAdditions(rows: seq<Row>, members: seq<nat>, i: nat)
    requires InRange(rows, members)
    ensures Count(Of(rows, members, Merge), i) + Count(Of(rows, members, Accept), i) == Count(members, i)
  {
    if members != [] {
      var n := |members| - 1;
      MergesAndAdditions(rows, members[..n], i);
      forall d
        ensures Count(Of(rows, members, d), i) ==
          Count(Of(rows, members[..n], d), i) + if rows[members[n]].decision == d && members[n] == i then 1 else 0
      {
        CountAppend(Of(rows, members[..n], d), if rows[members[n]].decision == d then [members[n]] else [], i);
        assert Count([members[n]], i) == if members[n] == i then 1 else 0;
      }
    }
  }

  // Row j of these has the target t, and none after it has one.
  ghost predicate IsLastTarget(rows: seq<Row>, members: seq<nat>, j: nat, t: Option<ProductId>)
    requires forall j :: 0 <= j < |members| ==> members[j] < |rows|
  {
    && j < |members| && rows[members[j]].target == t
    && forall k :: j < k < |members| ==> rows[members[k]].target.None?
  }

  // The last target any row of the group has.
  function LastTarget(rows: seq<Row>, members: seq<nat>): (t: Option<ProductId>)
    requires forall j :: 0 <= j < |members| ==> members[j] < |rows|
    ensures t.None? <==> forall j :: 0 <= j < |members| ==> rows[members[j]].target.None?
    ensures t.Some? ==> exists j: nat :: IsLastTarget(rows, members, j, t)
  {
    if members == [] then None
    else
      var n := |members| - 1;
      var before := LastTarget(rows, members[..n]);
      assert forall j :: 0 <= j < n ==> members[..n][j] == members[j];
      assert forall j: nat :: IsLastTarget(rows, members[..n], j, before) && rows[members[n]].target.None? ==>
        IsLastTarget(rows, members, j, before);
      assert rows[members[n]].target.Some? ==> IsLastTarget(rows, members, n, rows[members[n]].target);
      if rows[members[n]].target.Some? then rows[members[n]].target else before
  }

  datatype Outcome = Outcome(created: nat, applied: nat, log: seq<Effect>)

  ghost predicate MergesHaveTargets(rows: seq<Row>, members: seq<nat>)
    requires forall j :: 0 <= j < |members| ==> members[j] < |rows|
  {
    forall j :: 0 <= j < |members| && rows[members[j]].decision == Merge ==> rows[members[j]].target.Some?
  }

  ghost predicate Sound(rows: seq<Row>, members: seq<nat>) {
    && InRange(rows, members)
    && forall j :: 0 <= j < |members| && rows[members[j]].decision == Merge ==> rows[members[j]].variant.Some?
  }

  // The product the rows of a group point at, if any does.
  ghost function TargetOf(rows: seq<Row>, key: string): Option<ProductId> {
    LastTarget(rows, MembersOf(rows, key))
  }

  ghost predicate IsAddition(rows: seq<Row>, key: string, added: seq<nat>) {
    added == Of(rows, MembersOf(rows, key), Accept) && added != []
  }

  // Each effect is one the rows ask for: a merge goes to the row's own product and variant,
  // and a group's accepted rows go together to the product it points at or to a new one.
  ghost predicate EffectFits(rows: seq<Row>, e: Effect) {
    match e
    case MergeInto(i, product, variant) =>
      i < |rows| && rows[i].decision == Merge && rows[i].target == Some(product) && rows[i].variant == Some(variant)
    case ExtendProduct(product, added) => exists key ::
      IsAddition(rows, key, added) && TargetOf(rows, key) == Some(product)
    case CreateProduct(_, added) => exists key :: IsAddition(rows, key, added) && TargetOf(rows, key) == None
  }

  ghost predicate LogFits(rows: seq<Row>, log: seq<Effect>) {
    forall k :: 0 <= k < |log| ==> EffectFits(rows, log[k])
  }

  lemma LogFitsSnoc(rows: seq<Row>, log: seq<Effect>, e: Effect)
    requires LogFits(rows, log) && EffectFits(rows, e)
    ensures LogFits(rows, log + [e])
  {
  }

  // What is known of a group after its first j rows.
  ghost predicate Merged(rows: seq<Row>, members: seq<nat>, j: nat, log: seq<Effect>, out: seq<Effect>,
                         target: Option<ProductId>, additions: seq<nat>) {
    && Sound(rows, members) && j <= |members|
    && target == LastTarget(rows, members[..j])
    && additions == Of(rows, members[..j], Accept)
    && Touched(out) == Touched(log) + Of(rows, members[..j], Merge)
    && MergesHaveTargets(rows, members[..j]) && LogFits(rows, out)
  }

  // One more row of the group: what the functions over its rows become.
  lemma {:induction false} PrefixStep(rows: seq<Row>, members: seq<nat>, j: nat)
    requires InRange(rows, members) && j < |members|
    ensures var row := rows[members[j]];
      && LastTarget(rows, members[..j + 1]) == (if row.target.Some? then row.target else LastTarget(rows, members[..j]))
      && Of(rows, members[..j + 1], Merge) ==
        Of(rows, members[..j], Merge) + (if row.decision == Merge then [members[j]] else [])
      && Of(rows, members[..j + 1], Accept) ==
        Of(rows, members[..j], Accept) + (if row.decision == Merge then [] else [members[j]])
  {
    var next := members[..j + 1];
    assert next[..j] == members[..j] && next[j] == members[j];
  }

  lemma {:induction false} MergeLogged(rows: seq<Row>, i: nat, log: seq<Effect>, out: seq<Effect>, e: Effect,
                                       done: seq<nat>)
    requires i < |rows| && rows[i].decision == Merge && rows[i].target.Some? && rows[i].variant.Some?
    requires e == MergeInto(i, rows[i].target.value, rows[i].variant.value)
    requires Touched(out) == Touched(log) + done && LogFits(rows, out)
    ensures Touched(out + [e]) == Touched(log) + (done + [i]) && LogFits(rows, out + [e])
  {
    TouchedSnoc(out, e);
    LogFitsSnoc(rows, out, e);
  }

  lemma {:induction false} MergedStep(rows: seq<Row>, members: seq<nat>, j: nat, log: seq<Effect>, out: seq<Effect>,
                                      target: Option<ProductId>, additions: seq<nat>, more: seq<Effect>)
    requires Merged(rows, members, j, log, out, target, additions) && j < |members|
    requires var row := rows[members[j]];
      if row.decision == Merge
        then row.target.Some? && more == out + [MergeInto(members[j], row.target.value, row.variant.value)]
      else more == out
    ensures var row := rows[members[j]];
      Merged(rows, members, j + 1, log, more, if row.target.Some? then row.target else target,
             if row.decision == Merge then additions else additions + [members[j]])
  {
    var row := rows[members[j]];
    PrefixStep(rows, members, j);
    MergesHaveTargetsSnoc(rows, members, j);
    if row.decision == Merge {
      MergeLogged(rows, members[j], log, out, MergeInto(members[j], row.target.value, row.variant.value),
        Of(rows, members[..j], Merge));
    }
  }

  lemma MergesHaveTargetsSnoc(rows: seq<Row>, members: seq<nat>, j: nat)
    requires InRange(rows, members) && j < |members| && MergesHaveTargets(rows, members[..j])
    requires rows[members[j]].decision == Merge ==> rows[members[j]].target.Some?
    ensures MergesHaveTargets(rows, members[..j + 1])
  {
    var next := members[..j + 1];
    forall k | 0 <= k < |next| && rows[next[k]].decision == Merge
      ensures rows[next[k]].target.Some?
    {
      assert k < j ==> next[k] == members[..j][k];
    }
  }

  // Merges each matched row and gathers the others.
  method MergeRows(rows: seq<Row>, members: seq<nat>, log: seq<Effect>, refuses: Catalogue)
    returns (error: Option<CommitError>, out: seq<Effect>, target: Option<ProductId>, additions: seq<nat>)
    requires Sound(rows, members) && LogFits(rows, log)
    ensures error.None? ==> Merged(rows, members, |members|, log, out, target, additions)
    ensures error == Some(MissingTarget) ==> !MergesHaveTargets(rows, members)
    ensures error in {None, Some(MissingTarget), Some(Refused)}
    ensures error == Some(Refused) ==> CanRefuse(refuses)
  {
    error, out, target, additions := None, log, None, [];
    for j := 0 to |members|
      invariant error.None? && Merged(rows, members, j, log, out, target, additions)
    {
      var row := rows[members[j]];
      ghost var before, t, a := out, target, additions;
      if row.target.Some? {
        target := row.target;
      }
      if row.decision == Merge {
        if row.target.None? {
          error := Some(MissingTarget);
          return;
        }
        var e := MergeInto(members[j], row.target.value, row.variant.value);
        if refuses(out, e) {
          error := Some(Refused);
          return;
        }
        out := out + [e];
      } else {
        additions := additions + [members[j]];
      }
      MergedStep(rows, members, j, log, before, t, a, out);
    }
  }

  // log grew by effects that touch each row as often as members lists it.
  ghost predicate TouchedMore(log: seq<Effect>, members: seq<nat>, out: seq<Effect>) {
    forall i: nat :: Count(Touched(out), i) == Count(Touched(log), i) + Count(members, i)
  }

  lemma {:induction false} AllTouched(rows: seq<Row>, members: seq<nat>, log: seq<Effect>, out: seq<Effect>)
    requires InRange(rows, members)
    requires Touched(out) == Touched(log) + Of(rows, members, Merge) + Of(rows, members, Accept)
    ensures TouchedMore(log, members, out)
  {
    forall i: nat
      ensures Count(Touched(out), i) == Count(Touched(log), i) + Count(members, i)
    {
      CountAppend(Touched(log) + Of(rows, members, Merge), Of(rows, members, Accept), i);
      CountAppend(Touched(log), Of(rows, members, Merge), i);
      MergesAndAdditions(rows, members, i);
    }
  }

  // How the group's accepted rows are added.
  function Addition(target: Option<ProductId>, newId: ProductId, additions: seq<nat>): Effect {
    if target.Some? then ExtendProduct(target.value, additions) else CreateProduct(newId, additions)
  }

  lemma {:induction false} GroupDone(rows: seq<Row>, key: string, members: seq<nat>, log: seq<Effect>, out: seq<Effect>,
                                     target: Option<ProductId>, additions: seq<nat>, newId: ProductId)
    requires Merged(rows, members, |members|, log, out, target, additions) && members == MembersOf(rows, key)
    ensures MergesHaveTargets(rows, members) && target == LastTarget(rows, members) &&
      additions == Of(rows, members, Accept)
    ensures additions == [] ==> TouchedMore(log, members, out)
    ensures additions != [] ==> TouchedMore(log, members, out + [Addition(target, newId, additions)])
    ensures additions != [] ==> LogFits(rows, out + [Addition(target, newId, additions)])
  {
    assert members[..|members|] == members;
    var e := Addition(target, newId, additions);
    if additions == [] {
      assert Touched(out) == Touched(log) + Of(rows, members, Merge) + Of(rows, members, Accept);
      AllTouched(rows, members, log, out);
    } else {
      TouchedSnoc(out, e);
      AllTouched(rows, members, log, out + [e]);
      AdditionFits(rows, key, target, newId, additions);
      LogFitsSnoc(rows, out, e);
    }
  }

  lemma AdditionFits(rows: seq<Row>, key: string, target: Option<ProductId>, newId: ProductId, additions: seq<nat>)
    requires IsAddition(rows, key, additions) && TargetOf(rows, key) == target
    ensures EffectFits(rows, Addition(target, newId, additions))
  {
  }

  // Merges each matched row, then adds the accepted rows to the group's product, made anew
  // when no row of the group has a target.
  method ApplyGroup(rows: seq<Row>, ghost key: string, members: seq<nat>, log: seq<Effect>, refuses: Catalogue,
                    ids: nat -> ProductId) returns (r: Result<Outcome, CommitError>)
    requires Sound(rows, members) && members == MembersOf(rows, key) && LogFits(rows, log)
    ensures r.Ok? ==> MergesHaveTargets(rows, members) && LogFits(rows, r.value.log)
    ensures r.Ok? ==> r.value.applied == |members|
    ensures r.Ok? ==>
      r.value.created == if Of(rows, members, Accept) != [] && LastTarget(rows, members).None? then 1 else 0
    ensures r.Ok? ==> TouchedMore(log, members, r.value.log)
    ensures r.Err? && r.error == MissingTarget ==> !MergesHaveTargets(rows, members)
    ensures r.Err? ==> r.error == MissingTarget || (r.error == Refused && CanRefuse(refuses))
  {
    var error, out, target, additions := MergeRows(rows, members, log, refuses);
    if error.Some? {
      return Err(error.value);
    }
    var e := Addition(target, ids(|out|), additions);
    GroupDone(rows, key, members, log, out, target, additions, ids(|out|));
    if additions == [] {
      return Ok(Outcome(0, |members|, out));
    }
    if refuses(out, e) {
      return Err(Refused);
    }
    r := Ok(Outcome(if target.Some? then 0 else 1, |members|, out + [e]));
  }

  // ---- the whole batch ---------------------------------------------------------------------

  // Rows that are neither skipped nor undecided belong to their key's group.
  ghost function KeysOf(rows: seq<Row>): Keys {
    seq(|rows|, i requires 0 <= i < |rows| => if Chosen(rows[i]) then Some(rows[i].groupKey) else None)
  }

  ghost predicate ChosenAs(rows: seq<Row>, i: nat, key: string) {
    i < |rows| && Chosen(rows[i]) && rows[i].groupKey == key
  }

  // Where the chosen rows of a group are.
  ghost function MembersOf(rows: seq<Row>, key: string): (members: seq<nat>)
    ensures InRange(rows, members)
    ensures forall j :: 0 <= j < |members| ==> rows[members[j]].groupKey == key
    ensures forall i, j :: 0 <= i < j < |members| ==> members[i] < members[j]
    ensures forall i: nat :: i < |rows| && ChosenAs(rows, i, key) ==> i in members
  {
    MembersFacts(KeysOf(rows), |rows|, key);
    Members(KeysOf(rows), |rows|, key)
  }

  lemma {:induction false} MemberOnce(rows: seq<Row>, n: nat, key: string, i: nat)
    requires n <= |rows|
    ensures Count(Members(KeysOf(rows), n, key), i) == if i < n && ChosenAs(rows, i, key) then 1 else 0
  {
    if n > 0 {
      MemberOnce(rows, n - 1, key, i);
      var before := Members(KeysOf(rows), n - 1, key);
      if ChosenAs(rows, n - 1, key) {
        assert Members(KeysOf(rows), n, key) == before + [n - 1];
        CountSnoc(before, n - 1, i);
      } else {
        assert Members(KeysOf(rows), n, key) == before;
      }
    }
  }

  ghost function ChosenIn(rows: seq<Row>, n: nat, key: string): set<nat>
    requires n <= |rows|
  {
    set i | 0 <= i < n && ChosenAs(rows, i, key)
  }

  lemma {:induction false} MembersSize(rows: seq<Row>, n: nat, key: string)
    requires n <= |rows|
    ensures |Members(KeysOf(rows), n, key)| == |ChosenIn(rows, n, key)|
  {
    if n > 0 {
      MembersSize(rows, n - 1, key);
      assert ChosenIn(rows, n, key) == ChosenIn(rows, n - 1, key) + if ChosenAs(rows, n - 1, key) then {n - 1} else {};
    }
  }

  method GroupChosen(rows: seq<Row>) returns (groups: Groups)
    ensures Grouped(KeysOf(rows), |rows|, groups)
  {
    groups := NO_GROUPS;
    for i := 0 to |rows|
      invariant groups == Sorted(KeysOf(rows), i)
    {
      if rows[i].decision == Accept || rows[i].decision == Merge {
        groups := groups.Add(i, rows[i].groupKey);
      }
    }
    SortedIsGrouped(KeysOf(rows), |rows|);
  }

  // A group with an accepted row and no target among its chosen rows.
  ghost predicate MakesProduct(rows: seq<Row>, key: string) {
    && (exists i :: 0 <= i < |rows| && rows[i].decision == Accept && rows[i].groupKey == key)
    && (forall i :: 0 <= i < |rows| && Chosen(rows[i]) && rows[i].groupKey == key ==> rows[i].target.None?)
  }

  ghost function NewGroups(rows: seq<Row>, keys: seq<string>): set<string> {
    set k | k in keys && MakesProduct(rows, k)
  }

  lemma {:induction false} OfIsEmpty(rows: seq<Row>, members: seq<nat>, d: Decision)
    requires forall j :: 0 <= j < |members| ==> members[j] < |rows|
    ensures Of(rows, members, d) == [] <==> forall j :: 0 <= j < |members| ==> rows[members[j]].decision != d
  {
    if members != [] {
      var n := |members| - 1;
      OfIsEmpty(rows, members[..n], d);
      assert forall j :: 0 <= j < n ==> members[..n][j] == members[j];
    }
  }

  lemma {:induction false} MakesProductMeaning(rows: seq<Row>, key: string)
    ensures InRange(rows, MembersOf(rows, key))
    ensures MakesProduct(rows, key) <==>
      Of(rows, MembersOf(rows, key), Accept) != [] && LastTarget(rows, MembersOf(rows, key)).None?
  {
    var members := MembersOf(rows, key);
    OfIsEmpty(rows, members, Accept);
    if MakesProduct(rows, key) {
      var i :| 0 <= i < |rows| && rows[i].decision == Accept && rows[i].groupKey == key;
      assert i in members;
    }
    forall i | 0 <= i < |rows| && Chosen(rows[i]) && rows[i].groupKey == key
      ensures exists j :: 0 <= j < |members| && members[j] == i
    {
      assert i in members;
    }
  }

  ghost predicate AllSound(rows: seq<Row>) {
    forall i :: 0 <= i < |rows| && rows[i].decision == Merge ==> rows[i].variant.Some?
  }

  // Some merge lost the product it was matched to.
  ghost predicate LostTarget(rows: seq<Row>) {
    exists i :: 0 <= i < |rows| && rows[i].decision == Merge && rows[i].target.None?
  }

  ghost predicate ChosenUnder(rows: seq<Row>, i: nat, keys: seq<string>) {
    i < |rows| && Chosen(rows[i]) && rows[i].groupKey in keys
  }

  ghost function AllChosenUnder(rows: seq<Row>, keys: seq<string>): set<nat> {
    set i | 0 <= i < |rows| && ChosenUnder(rows, i, keys)
  }

  // The groups with these keys are applied: each of their chosen rows once.
  ghost predicate AppliedSoFar(rows: seq<Row>, keys: seq<string>, out: Outcome) {
    && LogFits(rows, out.log)
    && (forall i: nat :: Count(Touched(out.log), i) == if ChosenUnder(rows, i, keys) then 1 else 0)
    && out.applied == |AllChosenUnder(rows, keys)|
    && out.created == |NewGroups(rows, keys)|
    && forall key :: key in keys ==> GroupHasTargets(rows, key)
  }

  ghost predicate GroupHasTargets(rows: seq<Row>, key: string) {
    forall i :: 0 <= i < |rows| && rows[i].decision == Merge && rows[i].groupKey == key ==> rows[i].target.Some?
  }

  lemma {:induction false} GroupTargets(rows: seq<Row>, key: string)
    requires AllSound(rows)
    ensures Sound(rows, MembersOf(rows, key))
    ensures MergesHaveTargets(rows, MembersOf(rows, key)) <==> GroupHasTargets(rows, key)
  {
    var members := MembersOf(rows, key);
    forall i | 0 <= i < |rows| && rows[i].decision == Merge && rows[i].groupKey == key
      ensures exists j :: 0 <= j < |members| && members[j] == i
    {
      assert i in members;
    }
  }

  lemma {:induction false} OneMoreApplied(rows: seq<Row>, keys: seq<string>, key: string, before: Outcome,
                                          group: Outcome)
    requires AppliedSoFar(rows, keys, before) && key !in keys && GroupHasTargets(rows, key)
    requires group.applied == |MembersOf(rows, key)| && group.created == if MakesProduct(rows, key) then 1 else 0
    requires TouchedMore(before.log, MembersOf(rows, key), group.log) && LogFits(rows, group.log)
    ensures AppliedSoFar(rows, keys + [key],
      Outcome(before.created + group.created, before.applied + group.applied, group.log))
  {
    forall i: nat
      ensures Count(Touched(group.log), i) == if ChosenUnder(rows, i, keys + [key]) then 1 else 0
    {
      MemberOnce(rows, |rows|, key, i);
      assert Count(Touched(group.log), i) == Count(Touched(before.log), i) + Count(MembersOf(rows, key), i);
    }
    MembersSize(rows, |rows|, key);
    SizesAdd(rows, keys, key);
  }

  lemma SizesAdd(rows: seq<Row>, keys: seq<string>, key: string)
    requires key !in keys
    ensures |AllChosenUnder(rows, keys + [key])| == |AllChosenUnder(rows, keys)| + |ChosenIn(rows, |rows|, key)|
    ensures |NewGroups(rows, keys + [key])| == |NewGroups(rows, keys)| + if MakesProduct(rows, key) then 1 else 0
  {
    assert AllChosenUnder(rows, keys + [key]) == AllChosenUnder(rows, keys) + ChosenIn(rows, |rows|, key);
    assert AllChosenUnder(rows, keys) !! ChosenIn(rows, |rows|, key);
    assert NewGroups(rows, keys + [key]) == NewGroups(rows, keys) + if MakesProduct(rows, key) then {key} else {};
  }

  method ApplyNext(rows: seq<Row>, ghost done: seq<string>, key: string, members: seq<nat>, before: Outcome,
                   refuses: Catalogue, ids: nat -> ProductId) returns (r: Result<Outcome, CommitError>)
    requires AllSound(rows) && AppliedSoFar(rows, done, before) && key !in done && members == MembersOf(rows, key)
    ensures r.Ok? ==> AppliedSoFar(rows, done + [key], r.value)
    ensures r.Err? ==> r.error == MissingTarget || (r.error == Refused && CanRefuse(refuses))
    ensures r == Err(MissingTarget) ==> LostTarget(rows)
  {
    GroupTargets(rows, key);
    MakesProductMeaning(rows, key);
    var group := ApplyGroup(rows, key, members, before.log, refuses, ids);
    match group
    case Err(e) => r := Err(e);
    case Ok(out) =>
      OneMoreApplied(rows, done, key, before, out);
      r := Ok(Outcome(before.created + out.created, before.applied + out.applied, out.log));
  }

  lemma NothingApplied(rows: seq<Row>)
    ensures AppliedSoFar(rows, [], Outcome(0, 0, []))
  {
    assert AllChosenUnder(rows, []) == {} && NewGroups(rows, []) == {};
  }

  lemma NextGroup(rows: seq<Row>, groups: Groups, t: nat)
    requires Grouped(KeysOf(rows), |rows|, groups) && t < |groups.order|
    ensures groups.order[t] !in groups.order[..t]
    ensures groups.order[..t + 1] == groups.order[..t] + [groups.order[t]]
    ensures groups.List(groups.order[t]) == MembersOf(rows, groups.order[t])
  {
  }

  method Apply(rows: seq<Row>, refuses: Catalogue, ids: nat -> ProductId) returns (r: Result<Outcome, CommitError>)
    requires AllSound(rows)
    ensures r.Ok? ==> AppliedExactly(rows, r.value) && !LostTarget(rows)
    ensures r.Err? ==> r.error == MissingTarget || (r.error == Refused && CanRefuse(refuses))
    ensures r == Err(MissingTarget) ==> LostTarget(rows)
  {
    var groups := GroupChosen(rows);
    var order := groups.order;
    r := Ok(Outcome(0, 0, []));
    NothingApplied(rows);
    for t := 0 to |order|
      invariant r.Ok? && AppliedSoFar(rows, order[..t], r.value)
    {
      NextGroup(rows, groups, t);
      r := ApplyNext(rows, order[..t], order[t], groups.List(order[t]), r.value, refuses, ids);
      if r.Err? {
        return;
      }
    }
    assert order[..|order|] == order;
    AllApplied(rows, groups, r.value);
  }

  function ProductGroups(rows: seq<Row>): set<string> {
    set i | 0 <= i < |rows| :: rows[i].groupKey
  }

  // Each chosen row is applied exactly once, and nothing else is; products are made for
  // exactly the groups with an accepted row and no target.
  ghost predicate AppliedExactly(rows: seq<Row>, out: Outcome) {
    && LogFits(rows, out.log)
    && (forall i: nat :: Count(Touched(out.log), i) == if i < |rows| && Chosen(rows[i]) then 1 else 0)
    && out.applied == |set i | 0 <= i < |rows| && Chosen(rows[i])|
    && out.created == |set key | key in ProductGroups(rows) && MakesProduct(rows, key)|
  }

  lemma AllChosenListed(rows: seq<Row>, groups: Groups)
    requires Grouped(KeysOf(rows), |rows|, groups)
    ensures forall i: nat :: i < |rows| && Chosen(rows[i]) ==> ChosenUnder(rows, i, groups.order)
  {
    forall i: nat | i < |rows| && Chosen(rows[i])
      ensures ChosenUnder(rows, i, groups.order)
    {
      EveryKeyListed(KeysOf(rows), groups, i);
    }
  }

  lemma AllApplied(rows: seq<Row>, groups: Groups, out: Outcome)
    requires Grouped(KeysOf(rows), |rows|, groups) && AppliedSoFar(rows, groups.order, out)
    ensures AppliedExactly(rows, out) && !LostTarget(rows)
  {
    AllChosenListed(rows, groups);
    assert AllChosenUnder(rows, groups.order) == set i | 0 <= i < |rows| && Chosen(rows[i]);
    assert NewGroups(rows, groups.order) == set key | key in ProductGroups(rows) && MakesProduct(rows, key);
  }

  // ---- where added rows end up -------------------------------------------------------------

  // The product the log adds row i to.
  function Destination(log: seq<Effect>, i: nat): Option<ProductId> {
    if log == [] then None
    else
      var before := Destination(log[..|log| - 1], i);
      match log[|log| - 1]
      case MergeInto(_, _, _) => before
      case ExtendProduct(product, added) => if i in added then Some(product) else before
      case CreateProduct(product, added) => if i in added then Some(product) else before
  }

  // Each added row points at the product it went to; the others point where they did.
  function Retargeted(rows: seq<Row>, log: seq<Effect>): (after: seq<Row>)
    ensures |after| == |rows| && forall i :: 0 <= i < |rows| ==>
      after[i] == if Destination(log, i).Some? then rows[i].(target := Destination(log, i)) else rows[i]
  {
    seq(|rows|, i requires 0 <= i < |rows| =>
      if Destination(log, i).Some? then rows[i].(target := Destination(log, i)) else rows[i])
  }

  lemma {:induction false} OfDecision(rows: seq<Row>, members: seq<nat>, d: Decision, i: nat)
    requires (forall j :: 0 <= j < |members| ==> members[j] < |rows|) && i in Of(rows, members, d)
    ensures i in members && i < |rows| && rows[i].decision == d
  {
    if members != [] && !(i == members[|members| - 1] && rows[i].decision == d) {
      OfDecision(rows, members[..|members| - 1], d, i);
    }
  }

  lemma {:induction false} CountedIsIn(s: seq<nat>, i: nat)
    ensures Count(s, i) > 0 <==> i in s
  {
    if s != [] {
      var n := |s| - 1;
      CountedIsIn(s[..n], i);
      assert s == s[..n] + [s[n]];
    }
  }

  // The effect adds row i to the product.
  ghost predicate Adds(e: Effect, i: nat, p: ProductId) {
    !e.MergeInto? && e.product == p && i in e.rows
  }

  lemma {:induction false} DestinationKnown(rows: seq<Row>, log: seq<Effect>, i: nat)
    requires LogFits(rows, log) && i < |rows|
    ensures Destination(log, i).Some? ==> rows[i].decision == Accept && exists k ::
      0 <= k < |log| && Adds(log[k], i, Destination(log, i).value)
    ensures rows[i].decision == Accept && i in Touched(log) ==> Destination(log, i).Some?
  {
    if log != [] {
      var n := |log| - 1;
      DestinationKnown(rows, log[..n], i);
      assert EffectFits(rows, log[n]);
      if (log[n].ExtendProduct? || log[n].CreateProduct?) && i in log[n].rows {
        var key :| IsAddition(rows, key, log[n].rows);
        OfDecision(rows, MembersOf(rows, key), Accept, i);
        assert Adds(log[n], i, log[n].product);
      }
    }
  }

  // After the effects an accepted row points at the product one of them added it to, and
  // every other row points where it did.
  ghost predicate RowArrived(row: Row, log: seq<Effect>, i: nat, after: Row) {
    if row.decision == Accept
      then exists k, p :: 0 <= k < |log| && Adds(log[k], i, p) && after == row.(target := Some(p))
    else after == row
  }

  lemma {:induction false} AcceptedRowsArrive(rows: seq<Row>, out: Outcome, i: nat)
    requires AppliedExactly(rows, out) && i < |rows|
    ensures RowArrived(rows[i], out.log, i, Retargeted(rows, out.log)[i])
  {
    DestinationKnown(rows, out.log, i);
    CountedIsIn(Touched(out.log), i);
  }

  // ---- a batch over its life -----------------------------------------------------------------

  // A row as the sheet was parsed and its duplicates resolved.
  predicate Parsed(r: Row) {
    (r.decision == Accept || r.decision == Skip) && r.target.None? && r.variant.None?
  }

  // A row with an error waits for a person unless it is skipped.
  function Settled(r: Row): Row {
    if r.hasErrors && r.decision != Skip then r.(decision := Pending) else r
  }

  // The row as matching leaves it, held back if it has errors and is not skipped.
  ghost predicate StagedMeans(parsed: seq<Row>, variants: seq<Variant>, i: nat, after: Row)
    requires i < |parsed|
  {
    exists m: Row :: MatchMeans(parsed, variants, i, m) &&
      after == m.(decision := if m.hasErrors && m.decision in {Accept, Merge} then Pending else m.decision)
  }

  // matched is the product the row was matched to when it was staged, gone the products
  // deleted since.
  ghost predicate RowSound(r: Row, matched: Option<ProductId>, gone: set<ProductId>) {
    && (r.decision == Accept ==> !r.hasErrors)
    && (r.decision == Merge ==> r.variant.Some?)
    && (r.variant.Some? ==> matched.Some?)
    && r.target == if matched.Some? && matched.value in gone then None else matched
  }

  ghost predicate IsOpen(s: Status) {
    s == DryRun || s == Reviewing
  }

  class Batch {
    var status: Status
    var rows: seq<Row>
    ghost var matched: seq<Option<ProductId>>
    ghost var gone: set<ProductId>

    ghost predicate Valid()
      reads this
    {
      && |matched| == |rows|
      && (forall i :: 0 <= i < |rows| && rows[i].decision == Accept ==> !rows[i].hasErrors)
      && (IsOpen(status) ==> forall i :: 0 <= i < |rows| ==> RowSound(rows[i], matched[i], gone))
    }

    // Stages parsed rows: matched to the variants that exist, errors left for a person.
    constructor Stage(parsed: seq<Row>, variants: seq<Variant>)
      requires forall i :: 0 <= i < |parsed| ==> Parsed(parsed[i])
      ensures Valid() && status == DryRun && gone == {}
      ensures |rows| == |parsed| && forall i :: 0 <= i < |rows| ==> rows[i] == Settled(Pointed(parsed, variants, i))
      ensures forall i :: 0 <= i < |rows| ==> StagedMeans(parsed, variants, i, rows[i])
    {
      var work := new Row[|parsed|](i requires 0 <= i < |parsed| => parsed[i]);
      assert work[..] == parsed;
      MatchExisting(work, variants);
      status := DryRun;
      rows := seq(|parsed|, i requires 0 <= i < |parsed| && work.Length == |parsed| reads work => Settled(work[i]));
      gone := {};
      matched := seq(|parsed|, i requires 0 <= i < |parsed| => Pointed(parsed, variants, i).target);
    }

    // Refused for a row with errors (accept) and one that matched nothing (merge).
    method SetDecision(i: nat, d: Decision) returns (ok: bool)
      requires Valid()
      modifies this
      ensures Valid() && matched == old(matched) && gone == old(gone)
      ensures ok <==> IsOpen(old(status)) && i < |old(rows)|
                      && !(d == Accept && old(rows)[i].hasErrors) && !(d == Merge && old(rows)[i].variant.None?)
      ensures ok ==> status == Reviewing && rows == old(rows)[i := old(rows)[i].(decision := d)]
      ensures !ok ==> status == old(status) && rows == old(rows)
    {
      ok := false;
      if (status != DryRun && status != Reviewing) || i >= |rows| {
        return;
      }
      if (d == Accept && rows[i].hasErrors) || (d == Merge && rows[i].variant.None?) {
        return;
      }
      rows := rows[i := rows[i].(decision := d)];
      if status == DryRun {
        status := Reviewing;
      }
      ok := true;
    }

    method Abort() returns (ok: bool)
      requires Valid()
      modifies this`status
      ensures Valid()
      ensures ok <==> IsOpen(old(status))
      ensures status == if ok then Aborted else old(status)
    {
      ok := status == DryRun || status == Reviewing;
      if ok {
        status := Aborted;
      }
    }

    // Deleting a product clears it as a target of every row, whatever the batch's status.
    method ProductDeleted(p: ProductId)
      requires Valid()
      modifies this`rows, this`gone
      ensures Valid() && gone == old(gone) + {p}
      ensures |rows| == |old(rows)| && forall i :: 0 <= i < |rows| ==>
        rows[i] == if old(rows)[i].target == Some(p) then old(rows)[i].(target := None) else old(rows)[i]
    {
      rows := seq(|rows|, i requires 0 <= i < |rows| reads this =>
        if rows[i].target == Some(p) then rows[i].(target := None) else rows[i]);
      gone := gone + {p};
    }

    // All or nothing: each accepted and merged row applied exactly once. A merge whose
    // product has been deleted has no target left to dereference.
    method Commit(refuses: Catalogue, ids: nat -> ProductId) returns (r: Result<Outcome, CommitError>)
      requires Valid()
      modifies this`status, this`rows
      ensures Valid()
      ensures !IsOpen(old(status)) ==> r == Err(Closed)
      ensures IsOpen(old(status)) && HasPending(old(rows)) ==> r == Err(Undecided)
      ensures r.Ok? ==>
        status == Committed && AppliedExactly(old(rows), r.value) && |rows| == |old(rows)| &&
        forall i :: 0 <= i < |rows| ==> RowArrived(old(rows)[i], r.value.log, i, rows[i])
      ensures r.Err? ==> status == old(status) && rows == old(rows)
      ensures r == Err(MissingTarget) ==> MergedIntoDeleted(old(rows), matched, gone)
      ensures IsOpen(old(status)) && MergedIntoDeleted(old(rows), matched, gone) ==> r.Err?
      ensures IsOpen(old(status)) && !HasPending(old(rows)) && !CanRefuse(refuses) ==>
        (r.Err? <==> MergedIntoDeleted(old(rows), matched, gone)) && (r.Err? ==> r.error == MissingTarget)
    {
      if status != DryRun && status != Reviewing {
        return Err(Closed);
      }
      if exists i :: 0 <= i < |rows| && rows[i].decision == Pending {
        return Err(Undecided);
      }
      LostMeansDeleted(rows, matched, gone);
      r := Apply(rows, refuses, ids);
      if r.Ok? {
        status := Committed;
        ghost var was := rows;
        rows := Retargeted(rows, r.value.log);
        forall i | 0 <= i < |rows|
          ensures RowArrived(was[i], r.value.log, i, rows[i])
        {
          AcceptedRowsArrive(was, r.value, i);
        }
      }
    }
  }

  ghost predicate HasPending(rows: seq<Row>) {
    exists i :: 0 <= i < |rows| && rows[i].decision == Pending
  }

  // Some row is to be merged into a product that was deleted after staging.
  ghost predicate MergedIntoDeleted(rows: seq<Row>, matched: seq<Option<ProductId>>, gone: set<ProductId>) {
    |matched| == |rows| && exists i ::
      0 <= i < |rows| && rows[i].decision == Merge && matched[i].Some? && matched[i].value in gone
  }

  lemma LostMeansDeleted(rows: seq<Row>, matched: seq<Option<ProductId>>, gone: set<ProductId>)
    requires |matched| == |rows| && forall i :: 0 <= i < |rows| ==> RowSound(rows[i], matched[i], gone)
    ensures LostTarget(rows) <==> MergedIntoDeleted(rows, matched, gone)
    ensures AllSound(rows)
  {
  }

  lemma {:induction false} OneMatchMerges(row: Row, variant: Variant)
    requires row.decision == Accept && !row.hasErrors && variant.sku == row.sku
    ensures Settled(Pointed([row], [variant], 0)) ==
      row.(decision := Merge, target := Some(variant.product), variant := Some(variant.id))
  {
    assert [variant][..0] == [];
    assert Matches(row, [variant]) == [variant];
  }

  // A merge row need not keep both targets: stage a match, delete its product, commit.
  method DeletedTargetFailsCommit(row: Row, variant: Variant) returns (r: Result<Outcome, CommitError>)
    requires Parsed(row) && row.decision == Accept && !row.hasErrors && variant.sku == row.sku
    ensures r == Err(MissingTarget)
  {
    OneMatchMerges(row, variant);
    var b := new Batch.Stage([row], [variant]);
    assert b.rows[0].decision == Merge && b.rows[0].target == Some(variant.product);
    b.ProductDeleted(variant.product);
    assert b.rows[0].decision == Merge && RowSound(b.rows[0], b.matched[0], b.gone);
    r := b.Commit((log, e) => false, n => n);
  }
}
