// Grouping a sheet's rows into products: exact duplicates are skipped, SKUs that collide
// are renamed, and a group with any warning goes to review as a whole.
module GroupRows {
  import opened Prelude
  import opened Text
  import opened ImportRows

  datatype Severity = Info | Warning | Error

  datatype Code = DuplicateRow | HasDuplicates | AmbiguousVariant | Other(name: string)

  datatype Issue = Issue(code: Code, severity: Severity)

  datatype Status = Draft | Active | Discontinued | NeedsReview

  // One parsed row. name and brand are folded to lower case; attrs is the canonical JSON of
  // the product attributes; details stands for the other fields a variant is told apart by.
  datatype StagedRow = StagedRow(
    category: string, name: string, brand: string, attrs: string,
    groupKey: string, sku: string, details: string,
    status: Status, decision: Decision, issues: seq<Issue>)

  predicate Has(r: StagedRow, s: Severity) {
    exists i :: 0 <= i < |r.issues| && r.issues[i].severity == s
  }

  function Flag(r: StagedRow, code: Code): StagedRow {
    r.(issues := r.issues + [Issue(code, Warning)])
  }

  // ---- group keys ------------------------------------------------------------------------

  // strings.Join with "|".
  function Join(parts: seq<string>): string {
    if parts == [] then ""
    else if |parts| == 1 then parts[0]
    else parts[0] + "|" + Join(parts[1..])
  }

  function GroupKey(r: StagedRow): string {
    Join([r.category, r.name, r.brand, r.attrs])
  }

  lemma KeyShape(r: StagedRow)
    ensures GroupKey(r) == r.category + "|" + (r.name + "|" + (r.brand + "|" + r.attrs))
  {
    var parts := [r.category, r.name, r.brand, r.attrs];
    assert parts[1..] == [r.name, r.brand, r.attrs];
    assert parts[1..][1..] == [r.brand, r.attrs];
    assert parts[1..][1..][1..] == [r.attrs];
    assert Join([r.attrs]) == r.attrs;
    assert Join([r.brand, r.attrs]) == r.brand + "|" + r.attrs;
    assert Join([r.name, r.brand, r.attrs]) == r.name + "|" + (r.brand + "|" + r.attrs);
  }

  lemma BarSplits(a: string, rest: string, b: string, more: string)
    requires '|' !in a && '|' !in b && a + "|" + rest == b + "|" + more
    ensures a == b && rest == more
  {
    var s := a + "|" + rest;
    assert s[|a|] == '|' && s[|b|] == '|';
    assert forall i :: 0 <= i < |a| ==> s[i] == a[i];
    assert forall i :: 0 <= i < |b| ==> s[i] == b[i];
    assert !(|a| < |b|) && !(|b| < |a|);
    assert s[..|a|] == a && s[..|b|] == b;
    assert s[|a| + 1..] == rest && s[|b| + 1..] == more;
  }

  predicate SameProduct(q: StagedRow, r: StagedRow) {
    q.category == r.category && q.name == r.name && q.brand == r.brand && q.attrs == r.attrs
  }

  // A key stands for one product as long as names and brands hold no bar.
  lemma KeyTellsProducts(q: StagedRow, r: StagedRow)
    requires '|' !in q.category && '|' !in q.name && '|' !in q.brand
    requires '|' !in r.category && '|' !in r.name && '|' !in r.brand
    ensures GroupKey(q) == GroupKey(r) <==> SameProduct(q, r)
  {
    if GroupKey(q) == GroupKey(r) {
      var qs, rs := q.brand + "|" + q.attrs, r.brand + "|" + r.attrs;
      KeyShape(q);
      KeyShape(r);
      BarSplits(q.category, q.name + "|" + qs, r.category, r.name + "|" + rs);
      BarSplits(q.name, qs, r.name, rs);
      BarSplits(q.brand, q.attrs, r.brand, r.attrs);
    }
  }

  // Within a category and the same attributes, the key is the name and the brand around a bar.
  lemma KeyIsNameAndBrand(q: StagedRow, r: StagedRow)
    requires q.category == r.category && q.attrs == r.attrs
    ensures GroupKey(q) == GroupKey(r) <==> q.name + "|" + q.brand == r.name + "|" + r.brand
  {
    KeyAroundMiddle(q);
    KeyAroundMiddle(r);
    var pre, post := r.category + "|", "|" + r.attrs;
    SameAround(pre, q.name + "|" + q.brand, r.name + "|" + r.brand, post);
  }

  lemma KeyAroundMiddle(r: StagedRow)
    ensures GroupKey(r) == (r.category + "|") + (r.name + "|" + r.brand) + ("|" + r.attrs)
  {
    KeyShape(r);
  }

  lemma SameAround(pre: string, x: string, y: string, post: string)
    ensures pre + x + post == pre + y + post <==> x == y
  {
    var s, u := pre + x + post, pre + y + post;
    if s == u {
      assert |x| == |y|;
      assert x == s[|pre|..|pre| + |x|];
      assert y == u[|pre|..|pre| + |y|];
    }
  }

  // Another reading of the row's key: the name or the brand is taken apart at its bar, and
  // the piece moves across.
  lemma BarMovesAcross(r: StagedRow) returns (q: StagedRow)
    requires '|' in r.name || '|' in r.brand
    ensures q.category == r.category && q.attrs == r.attrs && GroupKey(q) == GroupKey(r) && !SameProduct(q, r)
  {
    if '|' in r.name {
      var i :| 0 <= i < |r.name| && r.name[i] == '|';
      q := r.(name := r.name[..i], brand := r.name[i + 1..] + "|" + r.brand);
      assert r.name == r.name[..i] + "|" + r.name[i + 1..];
      assert q.name + "|" + q.brand == r.name + "|" + r.brand;
    } else {
      var i :| 0 <= i < |r.brand| && r.brand[i] == '|';
      q := r.(name := r.name + "|" + r.brand[..i], brand := r.brand[i + 1..]);
      assert r.brand == r.brand[..i] + "|" + r.brand[i + 1..];
      assert q.name + "|" + q.brand == r.name + "|" + r.brand;
    }
    KeyIsNameAndBrand(q, r);
  }

  // Nothing but the row's own product reads as its key.
  ghost predicate KeyIsOwn(r: StagedRow) {
    forall q: StagedRow :: q.category == r.category && q.attrs == r.attrs && GroupKey(q) == GroupKey(r) ==>
      SameProduct(q, r)
  }

  // Among rows of its category and attributes, a row's key stands for its product alone
  // exactly when neither its name nor its brand holds a bar.
  lemma KeyIsOwnIffNoBar(r: StagedRow)
    ensures KeyIsOwn(r) <==> '|' !in r.name && '|' !in r.brand
  {
    if '|' in r.name || '|' in r.brand {
      var q := BarMovesAcross(r);
    } else {
      forall q: StagedRow | q.category == r.category && q.attrs == r.attrs && GroupKey(q) == GroupKey(r)
        ensures SameProduct(q, r)
      {
        KeyIsNameAndBrand(q, r);
        OnlyBar(r.name, r.brand, q.name, q.brand);
      }
    }
  }

  // A text with one bar comes apart in one way.
  lemma OnlyBar(a: string, b: string, x: string, y: string)
    requires '|' !in a && '|' !in b && x + "|" + y == a + "|" + b
    ensures x == a && y == b
  {
    var s := a + "|" + b;
    assert s[|x|] == '|';
    assert forall i :: 0 <= i < |s| && i != |a| ==> s[i] != '|';
    assert s[..|a|] == a && s[..|x|] == x && s[|a| + 1..] == b && s[|x| + 1..] == y;
  }

  // With a bar in a name or a brand, two products can share a key.
  lemma BarsConfuseProducts() returns (q: StagedRow, r: StagedRow)
    ensures r.name == "helmet" && r.brand == "kids|acme" && q.name == "helmet|kids" && q.brand == "acme"
    ensures GroupKey(q) == GroupKey(r) && !SameProduct(q, r) && q.category == r.category && q.attrs == r.attrs
  {
    q := StagedRow("c", "helmet|kids", "acme", "{}", "", "", "", Active, Pending, []);
    r := q.(name := "helmet", brand := "kids|acme");
    assert q.name + "|" + q.brand == "helmet|kids|acme" == r.name + "|" + r.brand;
    KeyIsNameAndBrand(q, r);
  }

  // ---- what becomes of one group -------------------------------------------------------------

  // Everything that describes the variant a row stands for.
  datatype Signature = Signature(sku: string, details: string)

  function SignatureOf(r: StagedRow): Signature {
    Signature(r.sku, r.details)
  }

  // One line entered twice.
  predicate Copies(q: StagedRow, r: StagedRow) {
    q.sku == r.sku && q.details == r.details
  }

  // No row before row j is a copy of it.
  predicate Kept(g: seq<StagedRow>, j: nat)
    requires j < |g|
  {
    forall i :: 0 <= i < j ==> !Copies(g[i], g[j])
  }

  // Among the first k rows, some later one repeats row j.
  predicate Repeated(g: seq<StagedRow>, j: nat, k: nat)
    requires j < |g| && k <= |g|
  {
    exists i :: j < i < k && Copies(g[i], g[j])
  }

  function Rename(sku: string, n: nat): string {
    sku + "-" + Decimal(n + 1)
  }

  function Get(m: map<string, nat>, x: string): nat {
    if x in m then m[x] else 0
  }

  // How many of the rows kept among the first k go by each name.
  function Names(g: seq<StagedRow>, k: nat): map<string, nat>
    requires k <= |g|
    decreases k, 0
  {
    if k == 0 then map[]
    else
      var m := Names(g, k - 1);
      if Kept(g, k - 1) then m[NameOf(g, k - 1) := Get(m, NameOf(g, k - 1)) + 1] else m
  }

  function Taken(g: seq<StagedRow>, k: nat, x: string): nat
    requires k <= |g|
    decreases k, 1
  {
    Get(Names(g, k), x)
  }

  // The SKU row j goes by: its own, unless rows before it already go by that name.
  function NameOf(g: seq<StagedRow>, j: nat): string
    requires j < |g|
    decreases j, 3
  {
    if Renamed(g, j) then Rename(g[j].sku, Taken(g, j, g[j].sku)) else g[j].sku
  }

  predicate Renamed(g: seq<StagedRow>, j: nat)
    requires j < |g|
    decreases j, 2
  {
    Taken(g, j, g[j].sku) > 0
  }

  // The issues row j has been given once the first k rows were gone through.
  ghost function Marks(g: seq<StagedRow>, j: nat, k: nat): seq<Issue>
    requires j < k <= |g|
  {
    if !Kept(g, j) then [Issue(DuplicateRow, Warning)]
    else
      (if Renamed(g, j) then [Issue(AmbiguousVariant, Warning)] else []) +
      (if Repeated(g, j, k) then [Issue(HasDuplicates, Warning)] else [])
  }

  // r is row j of the group after the first k rows were gone through.
  ghost predicate Processed(g: seq<StagedRow>, j: nat, k: nat, r: StagedRow)
    requires j < k <= |g|
  {
    r == g[j].(sku := if Kept(g, j) then NameOf(g, j) else g[j].sku,
               decision := if Kept(g, j) then g[j].decision else Skip,
               issues := g[j].issues + Marks(g, j, k))
  }

  // How many kept rows before row j leave the group under this name.
  ghost function GoingBy(g: seq<StagedRow>, after: seq<StagedRow>, j: nat, name: string): nat
    requires j <= |g| == |after|
  {
    |set i: nat | i < j && Kept(g, i) && after[i].sku == name|
  }

  // A copy is skipped and says so; a kept row gets a number behind its SKU if others before
  // it go by that, and says whether it was renamed and whether it was copied.
  ghost predicate RowMeans(g: seq<StagedRow>, after: seq<StagedRow>, j: nat)
    requires j < |g| == |after|
  {
    var n := GoingBy(g, after, j, g[j].sku);
    after[j].(status := g[j].status) ==
      if !Kept(g, j) then g[j].(decision := Skip, issues := g[j].issues + [Issue(DuplicateRow, Warning)])
      else g[j].(sku := if n == 0 then g[j].sku else g[j].sku + "-" + Decimal(n + 1),
                 issues := g[j].issues + (if n == 0 then [] else [Issue(AmbiguousVariant, Warning)]) +
                   (if Repeated(g, j, |g|) then [Issue(HasDuplicates, Warning)] else []))
  }

  // Some row that is not skipped carries a warning.
  ghost predicate KeptWarns(after: seq<StagedRow>) {
    exists i :: 0 <= i < |after| && after[i].decision != Skip && Has(after[i], Warning)
  }

  // What a group becomes: a warning on any row that is kept sends all its rows to review.
  ghost predicate GroupMeans(g: seq<StagedRow>, after: seq<StagedRow>) {
    && |after| == |g|
    && (forall j :: 0 <= j < |g| ==> RowMeans(g, after, j))
    && (forall j :: 0 <= j < |g| ==> after[j].status == if KeptWarns(after) then NeedsReview else g[j].status)
  }

  // No row is lost: a skipped row has an earlier, kept row that it copies.
  lemma SkippedHasKeptCopy(g: seq<StagedRow>, j: nat) returns (i: nat)
    requires j < |g| && !Kept(g, j)
    ensures i < j && Kept(g, i) && Copies(g[i], g[j]) && Repeated(g, i, |g|)
  {
    i :| 0 <= i < j && Copies(g[i], g[j]);
    if !Kept(g, i) {
      i := SkippedHasKeptCopy(g, i);
    }
  }

  // Any duplicate sends the group to review.
  lemma DuplicateForcesReview(g: seq<StagedRow>, after: seq<StagedRow>, j: nat)
    requires GroupMeans(g, after) && j < |g| && !Kept(g, j)
    requires forall i :: 0 <= i < |g| ==> g[i].decision != Skip
    ensures forall i :: 0 <= i < |g| ==> after[i].status == NeedsReview
  {
    var i := SkippedHasKeptCopy(g, j);
    assert RowMeans(g, after, i);
    assert after[i].issues[|after[i].issues| - 1] == Issue(HasDuplicates, Warning);
  }

  lemma {:induction false} GoingByStep(g: seq<StagedRow>, after: seq<StagedRow>, k: nat, x: string)
    requires k < |g| == |after|
    ensures GoingBy(g, after, k + 1, x) == GoingBy(g, after, k, x) + if Kept(g, k) && after[k].sku == x then 1 else 0
  {
    var before := set i: nat | i < k && Kept(g, i) && after[i].sku == x;
    assert (set i: nat | i < k + 1 && Kept(g, i) && after[i].sku == x) ==
      before + if Kept(g, k) && after[k].sku == x then {k} else {};
  }

  lemma {:induction false} TakenStep(g: seq<StagedRow>, k: nat, x: string)
    requires k < |g|
    ensures Taken(g, k + 1, x) == Taken(g, k, x) + if Kept(g, k) && NameOf(g, k) == x then 1 else 0
  {
  }

  lemma {:induction false} GoingByCounts(g: seq<StagedRow>, after: seq<StagedRow>, k: nat, x: string)
    requires k <= |g| == |after| && forall j :: 0 <= j < k && Kept(g, j) ==> after[j].sku == NameOf(g, j)
    ensures GoingBy(g, after, k, x) == Taken(g, k, x)
  {
    if k > 0 {
      GoingByCounts(g, after, k - 1, x);
      GoingByStep(g, after, k - 1, x);
      TakenStep(g, k - 1, x);
    }
  }

  // The names rows leave the group under are those the rule gives them.
  lemma {:induction false} NamesGiven(g: seq<StagedRow>, after: seq<StagedRow>, k: nat)
    requires k <= |g| == |after| && forall j :: 0 <= j < |g| ==> RowMeans(g, after, j)
    ensures forall j :: 0 <= j < k && Kept(g, j) ==> after[j].sku == NameOf(g, j)
  {
    if k > 0 {
      NamesGiven(g, after, k - 1);
      GoingByCounts(g, after, k - 1, g[k - 1].sku);
      assert RowMeans(g, after, k - 1);
    }
  }

  // ---- going through one group --------------------------------------------------------------------

  ghost predicate SkuCounts(g: seq<StagedRow>, k: nat, skus: map<string, nat>)
    requires k <= |g|
  {
    skus == Names(g, k)
  }

  ghost predicate FirstsKnown(g: seq<StagedRow>, k: nat, firsts: map<Signature, nat>)
    requires k <= |g|
  {
    && (forall s :: s in firsts ==> firsts[s] < k && Kept(g, firsts[s]) && SignatureOf(g[firsts[s]]) == s)
    && (forall j :: 0 <= j < k ==> SignatureOf(g[j]) in firsts)
  }

  ghost predicate FlagsKnown(g: seq<StagedRow>, k: nat, flagged: set<nat>)
    requires k <= |g|
  {
    forall j :: 0 <= j < k && Kept(g, j) ==> (j in flagged <==> Repeated(g, j, k))
  }

  // One more row that repeats row f, kept before it.
  lemma RepeatStep(g: seq<StagedRow>, k: nat, f: nat)
    requires f < k < |g| && Kept(g, f) && SignatureOf(g[f]) == SignatureOf(g[k])
    ensures !Kept(g, k) && Repeated(g, f, k + 1)
    ensures forall j :: 0 <= j < k && Kept(g, j) && j != f ==> (Repeated(g, j, k + 1) <==> Repeated(g, j, k))
  {
  }

  lemma KeepStep(g: seq<StagedRow>, k: nat, firsts: map<Signature, nat>)
    requires k < |g| && FirstsKnown(g, k, firsts) && SignatureOf(g[k]) !in firsts
    ensures Kept(g, k)
    ensures FirstsKnown(g, k + 1, firsts[SignatureOf(g[k]) := k])
    ensures forall j :: 0 <= j < k && Kept(g, j) ==> (Repeated(g, j, k + 1) <==> Repeated(g, j, k))
    ensures !Repeated(g, k, k + 1)
  {
  }

  lemma SkippedCounts(g: seq<StagedRow>, k: nat, skus: map<string, nat>)
    requires k < |g| && SkuCounts(g, k, skus) && !Kept(g, k)
    ensures SkuCounts(g, k + 1, skus)
  {
  }

  lemma {:induction false} KeptCounts(g: seq<StagedRow>, k: nat, skus: map<string, nat>)
    requires k < |g| && SkuCounts(g, k, skus) && Kept(g, k)
    ensures Get(skus, g[k].sku) == Taken(g, k, g[k].sku)
    ensures SkuCounts(g, k + 1, skus[NameOf(g, k) := Get(skus, NameOf(g, k)) + 1])
  {
  }

  // All rows before k are processed, the others as they were.
  ghost predicate Through(g: seq<StagedRow>, k: nat, now: seq<StagedRow>) {
    && |now| == |g| && k <= |g|
    && (forall j :: 0 <= j < k ==> Processed(g, j, k, now[j]))
    && (forall j :: k <= j < |g| ==> now[j] == g[j])
  }

  lemma ProcessedOn(g: seq<StagedRow>, j: nat, k: nat, r: StagedRow)
    requires j < k < |g| && Processed(g, j, k, r) && (Kept(g, j) ==> (Repeated(g, j, k + 1) <==> Repeated(g, j, k)))
    ensures Processed(g, j, k + 1, r)
  {
  }

  lemma ProcessedFlag(g: seq<StagedRow>, j: nat, k: nat, r: StagedRow)
    requires j < k < |g| && Processed(g, j, k, r) && Kept(g, j) && Repeated(g, j, k + 1)
    ensures Processed(g, j, k + 1, if Repeated(g, j, k) then r else Flag(r, HasDuplicates))
  {
    if !Repeated(g, j, k) {
      assert Flag(r, HasDuplicates).issues == g[j].issues + Marks(g, j, k + 1);
    }
  }

  // The row skipped and, the first time, the row it copies flagged.
  function AfterSkip(now: seq<StagedRow>, k: nat, f: nat, flag: bool): seq<StagedRow>
    requires f < k < |now|
  {
    var skipped := now[k := Flag(now[k].(decision := Skip), DuplicateRow)];
    if flag then skipped[f := Flag(now[f], HasDuplicates)] else skipped
  }

  // Skipping row k, flagging row f unless it was flagged already.
  lemma ThroughSkipped(g: seq<StagedRow>, k: nat, now: seq<StagedRow>, f: nat, flag: bool)
    requires k < |g| && Through(g, k, now) && f < k && Kept(g, f) && SignatureOf(g[f]) == SignatureOf(g[k])
    requires flag <==> !Repeated(g, f, k)
    ensures Through(g, k + 1, AfterSkip(now, k, f, flag))
  {
    RepeatStep(g, k, f);
    var after := AfterSkip(now, k, f, flag);
    forall j | 0 <= j < k
      ensures Processed(g, j, k + 1, after[j])
    {
      if j == f {
        ProcessedFlag(g, f, k, now[f]);
      } else {
        ProcessedOn(g, j, k, now[j]);
      }
    }
    SkippedProcessed(g, k);
  }

  lemma SkippedProcessed(g: seq<StagedRow>, k: nat)
    requires k < |g| && !Kept(g, k)
    ensures Processed(g, k, k + 1, Flag(g[k].(decision := Skip), DuplicateRow))
  {
  }

  // A kept row when n rows before it go by its SKU.
  function KeptAs(r: StagedRow, n: nat): StagedRow {
    if n > 0 then Flag(r, AmbiguousVariant).(sku := Rename(r.sku, n)) else r
  }

  // Keeping row k, under the name it is given.
  lemma {:induction false} ThroughKept(g: seq<StagedRow>, k: nat, now: seq<StagedRow>, n: nat)
    requires k < |g| && Through(g, k, now) && Kept(g, k) && !Repeated(g, k, k + 1) && n == Taken(g, k, g[k].sku)
    requires forall j :: 0 <= j < k && Kept(g, j) ==> (Repeated(g, j, k + 1) <==> Repeated(g, j, k))
    ensures Through(g, k + 1, now[k := KeptAs(now[k], n)])
  {
    forall j | 0 <= j < k
      ensures Processed(g, j, k + 1, now[j])
    {
      ProcessedOn(g, j, k, now[j]);
    }
    KeptProcessed(g, k, n);
  }

  lemma {:induction false} KeptProcessed(g: seq<StagedRow>, k: nat, n: nat)
    requires k < |g| && Kept(g, k) && !Repeated(g, k, k + 1) && n == Taken(g, k, g[k].sku)
    ensures Processed(g, k, k + 1, KeptAs(g[k], n)) && KeptAs(g[k], n).sku == NameOf(g, k)
  {
    assert KeptAs(g[k], n).issues == g[k].issues + Marks(g, k, k + 1);
  }

  lemma FlagsStep(g: seq<StagedRow>, k: nat, firsts: map<Signature, nat>, flagged: set<nat>)
    requires k < |g| && FirstsKnown(g, k, firsts) && FlagsKnown(g, k, flagged) && SignatureOf(g[k]) in firsts
    ensures var f := firsts[SignatureOf(g[k])];
      && f < k && Kept(g, f) && SignatureOf(g[f]) == SignatureOf(g[k])
      && (f in flagged <==> Repeated(g, f, k))
      && !Kept(g, k) && FirstsKnown(g, k + 1, firsts) && FlagsKnown(g, k + 1, flagged + {f})
  {
  }

  lemma NewFirstStep(g: seq<StagedRow>, k: nat, firsts: map<Signature, nat>, flagged: set<nat>)
    requires k < |g| && FirstsKnown(g, k, firsts) && FlagsKnown(g, k, flagged) && SignatureOf(g[k]) !in firsts
    requires forall f :: f in flagged ==> f < k
    ensures Kept(g, k) && FirstsKnown(g, k + 1, firsts[SignatureOf(g[k]) := k]) && FlagsKnown(g, k + 1, flagged)
  {
  }

  // What the loop knows after k rows of the group.
  ghost predicate Going(g: seq<StagedRow>, now: seq<StagedRow>, k: nat, firsts: map<Signature, nat>, flagged: set<nat>,
                        skus: map<string, nat>) {
    && Through(g, k, now)
    && FirstsKnown(g, k, firsts) && FlagsKnown(g, k, flagged) && SkuCounts(g, k, skus)
    && forall f :: f in flagged ==> f < k
  }

  lemma SkipGoing(g: seq<StagedRow>, now: seq<StagedRow>, k: nat, firsts: map<Signature, nat>, flagged: set<nat>,
                  skus: map<string, nat>, f: nat, flag: bool)
    requires Going(g, now, k, firsts, flagged, skus) && k < |g|
    requires SignatureOf(g[k]) in firsts && f == firsts[SignatureOf(g[k])] && (flag <==> f !in flagged)
    ensures f < k && Going(g, AfterSkip(now, k, f, flag), k + 1, firsts, flagged + {f}, skus)
  {
    FlagsStep(g, k, firsts, flagged);
    SkippedCounts(g, k, skus);
    ThroughSkipped(g, k, now, f, flag);
  }

  lemma KeepGoing(g: seq<StagedRow>, now: seq<StagedRow>, k: nat, firsts: map<Signature, nat>, flagged: set<nat>,
                  skus: map<string, nat>, n: nat, name: string)
    requires Going(g, now, k, firsts, flagged, skus) && k < |g| && SignatureOf(g[k]) !in firsts
    requires n == Get(skus, g[k].sku) && name == KeptAs(g[k], n).sku
    ensures Going(g, now[k := KeptAs(now[k], n)], k + 1, firsts[SignatureOf(g[k]) := k], flagged,
      skus[name := Get(skus, name) + 1])
  {
    KeepStep(g, k, firsts);
    NewFirstStep(g, k, firsts, flagged);
    KeptCounts(g, k, skus);
    KeptProcessed(g, k, n);
    ThroughKept(g, k, now, n);
  }

  // Keeps row k, the first of its signature, under a name of its own.
  method KeepRow(ghost g: seq<StagedRow>, rows: array<StagedRow>, k: nat, firsts: map<Signature, nat>,
                 ghost flagged: set<nat>, skus: map<string, nat>)
    returns (firsts': map<Signature, nat>, skus': map<string, nat>)
    requires k < rows.Length && Going(g, rows[..], k, firsts, flagged, skus) && SignatureOf(rows[k]) !in firsts
    modifies rows
    ensures Going(g, rows[..], k + 1, firsts', flagged, skus')
  {
    ghost var now := rows[..];
    var n := Get(skus, rows[k].sku);
    firsts' := firsts[SignatureOf(rows[k]) := k];
    rows[k] := KeptAs(rows[k], n);
    skus' := skus[rows[k].sku := Get(skus, rows[k].sku) + 1];
    KeepGoing(g, now, k, firsts, flagged, skus, n, rows[k].sku);
    assert rows[..] == now[k := KeptAs(now[k], n)];
  }

  // Skips row k, a copy, and flags the row it copies unless that was done.
  method SkipRow(ghost g: seq<StagedRow>, rows: array<StagedRow>, k: nat, firsts: map<Signature, nat>,
                 flagged: set<nat>, ghost skus: map<string, nat>)
    returns (flagged': set<nat>)
    requires k < rows.Length && Going(g, rows[..], k, firsts, flagged, skus) && SignatureOf(rows[k]) in firsts
    modifies rows
    ensures Going(g, rows[..], k + 1, firsts, flagged', skus)
  {
    ghost var now := rows[..];
    var f := firsts[SignatureOf(rows[k])];
    var flag := f !in flagged;
    SkipGoing(g, now, k, firsts, flagged, skus, f, flag);
    flagged' := flagged + {f};
    rows[k] := Flag(rows[k].(decision := Skip), DuplicateRow);
    if flag {
      rows[f] := Flag(rows[f], HasDuplicates);
    }
    assert rows[..] == AfterSkip(now, k, f, flag);
  }

  // Skips copies, flags what they copy and renames colliding SKUs, in one group.
  method MarkDuplicates(rows: array<StagedRow>)
    modifies rows
    ensures forall j :: 0 <= j < rows.Length ==>
      RowMeans(old(rows[..]), rows[..], j) && rows[j].status == old(rows[j]).status
  {
    ghost var g := rows[..];
    var firsts: map<Signature, nat> := map[];
    var flagged: set<nat> := {};
    var skus: map<string, nat> := map[];
    for k := 0 to rows.Length
      invariant Going(g, rows[..], k, firsts, flagged, skus)
    {
      if SignatureOf(rows[k]) in firsts {
        flagged := SkipRow(g, rows, k, firsts, flagged, skus);
      } else {
        firsts, skus := KeepRow(g, rows, k, firsts, flagged, skus);
      }
    }
    ThroughMeans(g, rows[..]);
  }

  lemma {:induction false} ThroughMeans(g: seq<StagedRow>, now: seq<StagedRow>)
    requires Through(g, |g|, now)
    ensures forall j :: 0 <= j < |g| ==> RowMeans(g, now, j) && now[j].status == g[j].status
  {
    forall j | 0 <= j < |g|
      ensures RowMeans(g, now, j)
    {
      GoingByCounts(g, now, j, g[j].sku);
      assert Processed(g, j, |g|, now[j]);
      var renamed := if Renamed(g, j) then [Issue(AmbiguousVariant, Warning)] else [];
      var copied := if Repeated(g, j, |g|) then [Issue(HasDuplicates, Warning)] else [];
      assert g[j].issues + (renamed + copied) == g[j].issues + renamed + copied;
    }
  }

  method KeptWarning(rows: array<StagedRow>) returns (review: bool)
    ensures review <==> KeptWarns(rows[..])
  {
    review := false;
    for j := 0 to rows.Length
      invariant review <==> exists i :: 0 <= i < j && rows[i].decision != Skip && Has(rows[i], Warning)
    {
      if rows[j].decision != Skip && Has(rows[j], Warning) {
        review := true;
      }
    }
  }

  // Sends every row to review.
  method SendToReview(rows: array<StagedRow>)
    modifies rows
    ensures forall j :: 0 <= j < rows.Length ==> rows[j] == old(rows[j]).(status := NeedsReview)
  {
    for j := 0 to rows.Length
      invariant forall i :: 0 <= i < j ==> rows[i] == old(rows[i]).(status := NeedsReview)
      invariant forall i :: j <= i < rows.Length ==> rows[i] == old(rows[i])
    {
      rows[j] := rows[j].(status := NeedsReview);
    }
  }

  // Another status changes nothing else that was said about a group.
  lemma StatusApart(g: seq<StagedRow>, now: seq<StagedRow>, after: seq<StagedRow>)
    requires |g| == |now| == |after|
    requires forall j :: 0 <= j < |g| ==> after[j] == now[j].(status := after[j].status)
    ensures forall j :: 0 <= j < |g| && RowMeans(g, now, j) ==> RowMeans(g, after, j)
    ensures KeptWarns(after) <==> KeptWarns(now)
  {
    assert forall j :: 0 <= j < |g| ==> after[j].issues == now[j].issues && after[j].sku == now[j].sku;
    forall j | 0 <= j < |g|
      ensures GoingBy(g, after, j, g[j].sku) == GoingBy(g, now, j, g[j].sku)
      ensures Has(after[j], Warning) <==> Has(now[j], Warning)
    {
      var name := g[j].sku;
      assert (set i: nat | i < j && Kept(g, i) && after[i].sku == name) ==
        set i: nat | i < j && Kept(g, i) && now[i].sku == name;
    }
  }

  method ResolveGroup(rows: array<StagedRow>)
    modifies rows
    ensures GroupMeans(old(rows[..]), rows[..])
  {
    ghost var g := rows[..];
    MarkDuplicates(rows);
    ghost var now := rows[..];
    var review := KeptWarning(rows);
    if review {
      SendToReview(rows);
    }
    StatusApart(g, now, rows[..]);
  }

  // ---- the whole sheet --------------------------------------------------------------------------

  // Rows with an error, and rows skipped already, belong to no group.
  predicate Excluded(r: StagedRow) {
    Has(r, Error) || r.decision == Skip
  }

  predicate InGroup(r: StagedRow, key: string) {
    !Excluded(r) && GroupKey(r) == key
  }

  // The group each row belongs to.
  function KeysOf(rows: seq<StagedRow>): Keys {
    seq(|rows|, i requires 0 <= i < |rows| => if Excluded(rows[i]) then None else Some(GroupKey(rows[i])))
  }

  // Where the rows of a group are.
  function MembersOf(rows: seq<StagedRow>, key: string): (members: seq<nat>)
    ensures forall j :: 0 <= j < |members| ==> members[j] < |rows| && InGroup(rows[members[j]], key)
    ensures forall i, j :: 0 <= i < j < |members| ==> members[i] < members[j]
    ensures forall x: nat :: x < |rows| && InGroup(rows[x], key) ==> x in members
  {
    MembersFacts(KeysOf(rows), |rows|, key);
    Members(KeysOf(rows), |rows|, key)
  }

  function Keyed(r: StagedRow): StagedRow {
    r.(groupKey := GroupKey(r))
  }

  // The rows of a group in sheet order, with their key.
  function GroupOf(rows: seq<StagedRow>, key: string): (g: seq<StagedRow>)
    ensures |g| == |MembersOf(rows, key)|
    ensures forall j :: 0 <= j < |g| ==> g[j] == rows[MembersOf(rows, key)[j]].(groupKey := key)
  {
    var members := MembersOf(rows, key);
    seq(|members|, j requires 0 <= j < |members| => Keyed(rows[members[j]]))
  }

  // The rows standing where the group's rows stood.
  function InPlace(was: seq<StagedRow>, now: seq<StagedRow>, key: string): (after: seq<StagedRow>)
    requires |now| == |was|
    ensures |after| == |MembersOf(was, key)|
    ensures forall j :: 0 <= j < |after| ==> after[j] == now[MembersOf(was, key)[j]]
  {
    var members := MembersOf(was, key);
    seq(|members|, j requires 0 <= j < |members| => now[members[j]])
  }

  ghost predicate GroupResolved(was: seq<StagedRow>, now: seq<StagedRow>, key: string)
    requires |now| == |was|
  {
    GroupMeans(GroupOf(was, key), InPlace(was, now, key))
  }

  // The groups in keys are resolved, the others only have their key.
  ghost predicate Resolved(was: seq<StagedRow>, now: seq<StagedRow>, keys: seq<string>) {
    && |now| == |was|
    && (forall x :: 0 <= x < |was| && Excluded(was[x]) ==> now[x] == was[x])
    && (forall x :: 0 <= x < |was| && !Excluded(was[x]) && GroupKey(was[x]) !in keys ==> now[x] == Keyed(was[x]))
    && (forall key :: key in keys ==> GroupResolved(was, now, key))
  }

  ghost predicate KeyedUpTo(was: seq<StagedRow>, n: nat, now: seq<StagedRow>) {
    && |now| == |was| && n <= |was| && now[n..] == was[n..]
    && forall x {:trigger now[x]} :: 0 <= x < n ==> now[x] == if Excluded(was[x]) then was[x] else Keyed(was[x])
  }

  // Sets every row's key and sorts the rows into groups, in order of appearance.
  method SortIntoGroups(rows: array<StagedRow>) returns (groups: Groups)
    modifies rows
    ensures Grouped(KeysOf(old(rows[..])), rows.Length, groups)
    ensures Resolved(old(rows[..]), rows[..], [])
  {
    ghost var was := rows[..];
    ghost var keys := KeysOf(was);
    groups := NO_GROUPS;
    for i := 0 to rows.Length
      invariant groups == Sorted(keys, i)
      invariant KeyedUpTo(was, i, rows[..])
    {
      if !(Has(rows[i], Error) || rows[i].decision == Skip) {
        var key := GroupKey(rows[i]);
        rows[i] := rows[i].(groupKey := key);
        groups := groups.Add(i, key);
      }
    }
    SortedIsGrouped(keys, |keys|);
  }

  // Writes a resolved group back to where its rows are.
  method WriteBack(rows: array<StagedRow>, members: seq<nat>, group: array<StagedRow>)
    requires rows != group && group.Length == |members|
    requires forall j :: 0 <= j < |members| ==> members[j] < rows.Length
    requires forall i, j :: 0 <= i < j < |members| ==> members[i] < members[j]
    modifies rows
    ensures forall j :: 0 <= j < |members| ==> rows[members[j]] == group[j]
    ensures forall x: nat :: x < rows.Length && x !in members ==> rows[x] == old(rows[x])
  {
    for j := 0 to |members|
      invariant forall i :: 0 <= i < j ==> rows[members[i]] == group[i]
      invariant forall x: nat :: x < rows.Length && x !in members ==> rows[x] == old(rows[x])
    {
      rows[members[j]] := group[j];
    }
  }

  lemma {:induction false} GroupInPlace(was: seq<StagedRow>, now: seq<StagedRow>, keys: seq<string>, key: string)
    requires Resolved(was, now, keys) && key !in keys
    ensures |GroupOf(was, key)| == |MembersOf(was, key)|
    ensures forall j :: 0 <= j < |MembersOf(was, key)| ==>
      && MembersOf(was, key)[j] < |now| && now[MembersOf(was, key)[j]] == GroupOf(was, key)[j]
      && GroupOf(was, key)[j].decision != Skip
  {
  }

  // Writing one group leaves another as resolved as it was.
  lemma {:induction false} OtherGroup(was: seq<StagedRow>, now: seq<StagedRow>, after: seq<StagedRow>, key: string,
                                      other: string)
    requires |now| == |was| == |after| && key != other && GroupResolved(was, now, other)
    requires forall x: nat :: x < |now| && x !in MembersOf(was, key) ==> after[x] == now[x]
    ensures GroupResolved(was, after, other)
  {
    var members := MembersOf(was, other);
    forall j | 0 <= j < |members|
      ensures after[members[j]] == now[members[j]]
    {
      assert members[j] !in MembersOf(was, key);
    }
    assert InPlace(was, after, other) == InPlace(was, now, other);
  }

  lemma {:induction false} OneMoreGroup(was: seq<StagedRow>, now: seq<StagedRow>, after: seq<StagedRow>,
                                        keys: seq<string>, key: string)
    requires Resolved(was, now, keys) && key !in keys && |after| == |now|
    requires forall x: nat :: x < |now| && x !in MembersOf(was, key) ==> after[x] == now[x]
    requires GroupResolved(was, after, key)
    ensures Resolved(was, after, keys + [key])
  {
    forall k | k in keys
      ensures GroupResolved(was, after, k)
    {
      OtherGroup(was, now, after, key, k);
    }
  }

  // Resolves one more group and writes it back.
  method ResolveInPlace(rows: array<StagedRow>, ghost was: seq<StagedRow>, ghost done: seq<string>, key: string,
                        members: seq<nat>)
    requires Resolved(was, rows[..], done) && key !in done && members == MembersOf(was, key)
    modifies rows
    ensures Resolved(was, rows[..], done + [key])
  {
    ghost var now := rows[..];
    GroupInPlace(was, now, done, key);
    var group := new StagedRow[|members|](j reads rows requires 0 <= j < |members| && members[j] < rows.Length =>
      rows[members[j]]);
    assert group[..] == GroupOf(was, key);
    ResolveGroup(group);
    WriteBack(rows, members, group);
    assert InPlace(was, rows[..], key) == group[..];
    OneMoreGroup(was, now, rows[..], done, key);
  }

  // Every group is resolved; rows with errors and rows already skipped are untouched.
  method GroupRows(rows: array<StagedRow>)
    modifies rows
    ensures forall x :: 0 <= x < rows.Length && (Has(old(rows[x]), Error) || old(rows[x]).decision == Skip) ==>
      rows[x] == old(rows[x])
    ensures forall key :: GroupResolved(old(rows[..]), rows[..], key)
  {
    ghost var was := rows[..];
    var groups := SortIntoGroups(rows);
    var order := groups.order;
    for t := 0 to |order|
      invariant Resolved(was, rows[..], order[..t])
    {
      var key := order[t];
      assert key !in order[..t];
      ResolveInPlace(rows, was, order[..t], key, groups.List(key));
      assert order[..t + 1] == order[..t] + [key];
    }
    assert order[..|order|] == order;
    forall key
      ensures GroupResolved(was, rows[..], key)
    {
      assert groups.List(key) == MembersOf(was, key);
      NoRowsNothingToDo(was, rows[..], order, key);
    }
  }

  // Which of its group's rows a row of the sheet is.
  lemma MemberAt(was: seq<StagedRow>, now: seq<StagedRow>, key: string, x: nat) returns (j: nat)
    requires |now| == |was| && x < |was| && InGroup(was[x], key)
    ensures j < |MembersOf(was, key)| && MembersOf(was, key)[j] == x
    ensures GroupOf(was, key)[j] == was[x].(groupKey := key) && InPlace(was, now, key)[j] == now[x]
  {
    j :| 0 <= j < |MembersOf(was, key)| && MembersOf(was, key)[j] == x;
  }

  // A row of the group that is not skipped leaves the sheet with a warning.
  ghost predicate GroupWarns(was: seq<StagedRow>, now: seq<StagedRow>, key: string)
    requires |now| == |was|
  {
    exists y :: 0 <= y < |was| && InGroup(was[y], key) && now[y].decision != Skip && Has(now[y], Warning)
  }

  // Rows of one group, all parsed as active, leave the sheet with one status.
  lemma {:induction false} OneStatusAGroup(was: seq<StagedRow>, now: seq<StagedRow>, key: string, x: nat)
    requires forall y :: 0 <= y < |was| ==> was[y].status == Active
    requires |now| == |was| && GroupResolved(was, now, key) && x < |was| && InGroup(was[x], key)
    ensures now[x].status == if GroupWarns(was, now, key) then NeedsReview else Active
  {
    var j := MemberAt(was, now, key, x);
    var after := InPlace(was, now, key);
    if KeptWarns(after) {
      var i :| 0 <= i < |after| && after[i].decision != Skip && Has(after[i], Warning);
      assert InGroup(was[MembersOf(was, key)[i]], key);
    }
    if GroupWarns(was, now, key) {
      var y :| 0 <= y < |was| && InGroup(was[y], key) && now[y].decision != Skip && Has(now[y], Warning);
      var i := MemberAt(was, now, key, y);
      assert after[i] == now[y];
    }
  }

  // A row is skipped exactly when an earlier row of its group has its SKU and all that
  // tells variants apart.
  lemma {:induction false} SkippedIffCopy(was: seq<StagedRow>, now: seq<StagedRow>, key: string, x: nat)
    requires |now| == |was| && GroupResolved(was, now, key) && x < |was| && InGroup(was[x], key)
    ensures now[x].decision == Skip <==> exists y ::
      0 <= y < x && InGroup(was[y], key) && was[y].sku == was[x].sku && was[y].details == was[x].details
  {
    var j := MemberAt(was, now, key, x);
    var g, members := GroupOf(was, key), MembersOf(was, key);
    assert RowMeans(g, InPlace(was, now, key), j);
    if !Kept(g, j) {
      var i :| 0 <= i < j && Copies(g[i], g[j]);
      assert members[i] < x && InGroup(was[members[i]], key);
    }
    if y: nat :| y < x && InGroup(was[y], key) && was[y].sku == was[x].sku && was[y].details == was[x].details {
      var i := MemberAt(was, now, key, y);
      assert Copies(g[i], g[j]);
    }
  }

  lemma {:induction false} NoRowsNothingToDo(was: seq<StagedRow>, now: seq<StagedRow>, keys: seq<string>, key: string)
    requires Resolved(was, now, keys) && (key !in keys ==> MembersOf(was, key) == [])
    ensures GroupResolved(was, now, key)
  {
  }

  // ---- do SKUs end up distinct? --------------------------------------------------------------------

  ghost predicate NamesDistinct(g: seq<StagedRow>, k: nat)
    requires k <= |g|
  {
    forall i, j :: 0 <= i < j < k && Kept(g, i) && Kept(g, j) ==> NameOf(g, i) != NameOf(g, j)
  }

  ghost predicate IsTaken(g: seq<StagedRow>, k: nat, x: string)
    requires k <= |g|
  {
    exists i :: 0 <= i < k && Kept(g, i) && NameOf(g, i) == x
  }

  lemma {:induction false} TakenMeaning(g: seq<StagedRow>, k: nat, x: string)
    requires k <= |g|
    ensures Taken(g, k, x) > 0 <==> IsTaken(g, k, x)
    ensures NamesDistinct(g, k) ==> Taken(g, k, x) <= 1
  {
    if k > 0 {
      TakenMeaning(g, k - 1, x);
      if IsTaken(g, k - 1, x) {
        var i :| 0 <= i < k - 1 && Kept(g, i) && NameOf(g, i) == x;
        assert 0 <= i < k;
      }
    }
  }

  // Read off the sheet: a kept row before j has the SKU x, or has a SKU whose "-2" form is
  // x and was itself seen before.
  predicate Seen(g: seq<StagedRow>, j: nat, x: string)
    requires j <= |g|
    decreases j
  {
    j > 0 && (Seen(g, j - 1, x) || (Kept(g, j - 1) &&
    (g[j - 1].sku == x || (g[j - 1].sku + "-2" == x && Seen(g, j - 1, g[j - 1].sku)))))
  }

  // A kept row whose SKU and that SKU's "-2" form were both seen before.
  predicate CollidesAt(g: seq<StagedRow>, j: nat)
    requires j < |g|
  {
    Kept(g, j) && Seen(g, j, g[j].sku) && Seen(g, j, g[j].sku + "-2")
  }

  // While names are distinct, the SKUs seen are the names taken.
  lemma {:induction false} SeenIsTaken(g: seq<StagedRow>, j: nat, x: string)
    requires j <= |g| && NamesDistinct(g, j)
    ensures Seen(g, j, x) <==> IsTaken(g, j, x)
  {
    if j > 0 {
      var i := j - 1;
      SeenIsTaken(g, i, x);
      SeenIsTaken(g, i, g[i].sku);
      NameIsSkuOrSecond(g, i);
      TakenMeaning(g, i, g[i].sku);
      assert IsTaken(g, j, x) <==> IsTaken(g, i, x) || (Kept(g, i) && NameOf(g, i) == x);
    }
  }

  lemma {:induction false} NextNameTaken(g: seq<StagedRow>, j: nat)
    requires j < |g| && NamesDistinct(g, j)
    ensures CollidesAt(g, j) <==> Kept(g, j) && IsTaken(g, j, NameOf(g, j))
  {
    NameIsSkuOrSecond(g, j);
    TakenMeaning(g, j, g[j].sku);
    SeenIsTaken(g, j, g[j].sku);
    SeenIsTaken(g, j, g[j].sku + "-2");
  }

  // Names stay distinct exactly as long as no kept row finds both its SKU and that SKU's
  // "-2" form among the SKUs before it: a third row of one SKU gets the second's name.
  lemma {:induction false} DistinctUnlessCollision(g: seq<StagedRow>, k: nat)
    requires k <= |g|
    ensures NamesDistinct(g, k) <==> forall j :: 0 <= j < k ==> !CollidesAt(g, j)
  {
    if k > 0 {
      var j := k - 1;
      DistinctUnlessCollision(g, j);
      if NamesDistinct(g, j) {
        NextNameTaken(g, j);
        if IsTaken(g, j, NameOf(g, j)) && Kept(g, j) {
          var i :| 0 <= i < j && Kept(g, i) && NameOf(g, i) == NameOf(g, j);
          assert !NamesDistinct(g, k);
        }
      }
    }
  }

  // So do the SKUs kept rows leave the group with.
  lemma SkusDistinctUnlessCollision(g: seq<StagedRow>, after: seq<StagedRow>)
    requires GroupMeans(g, after)
    ensures (forall i, j :: 0 <= i < j < |g| && Kept(g, i) && Kept(g, j) ==> after[i].sku != after[j].sku) <==>
      forall j :: 0 <= j < |g| ==> !CollidesAt(g, j)
  {
    NamesGiven(g, after, |g|);
    DistinctUnlessCollision(g, |g|);
  }

  predicate EndsInTwo(sku: string) {
    |sku| >= 2 && sku[|sku| - 2..] == "-2"
  }

  lemma {:induction false} NameIsSkuOrSecond(g: seq<StagedRow>, j: nat)
    requires j < |g| && NamesDistinct(g, j)
    ensures NameOf(g, j) == if Renamed(g, j) then g[j].sku + "-2" else g[j].sku
  {
    TakenMeaning(g, j, g[j].sku);
    assert Rename(g[j].sku, 1) == g[j].sku + "-2";
  }

  // Three kept rows share a SKU.
  predicate Three(g: seq<StagedRow>, h: nat, i: nat, j: nat) {
    && h < |g| && i < |g| && j < |g| && h != i && h != j && i != j
    && Kept(g, h) && Kept(g, i) && Kept(g, j)
    && g[h].sku == g[i].sku == g[j].sku
  }

  lemma SecondForm(x: string, y: string)
    ensures EndsInTwo(x + "-2") && (x + "-2" == y + "-2" ==> x == y)
  {
  }

  // The row that made x seen: its own SKU, or the one before "-2".
  lemma {:induction false} SeenBy(g: seq<StagedRow>, j: nat, x: string) returns (i: nat)
    requires j <= |g| && Seen(g, j, x)
    ensures i < j && Kept(g, i) && (g[i].sku == x || (g[i].sku + "-2" == x && Seen(g, i, g[i].sku)))
  {
    if Seen(g, j - 1, x) {
      i := SeenBy(g, j - 1, x);
    } else {
      i := j - 1;
    }
  }

  lemma {:induction false} CollisionMeansThree(g: seq<StagedRow>, j: nat) returns (h: nat, i: nat)
    requires j < |g| && CollidesAt(g, j)
    requires forall k :: 0 <= k < |g| ==> !EndsInTwo(g[k].sku)
    ensures Three(g, h, i, j)
  {
    var x := g[j].sku;
    SecondForm(x, x);
    i := SeenBy(g, j, x + "-2");
    SecondForm(g[i].sku, x);
    h := SeenBy(g, i, x);
    SecondForm(g[h].sku, x);
  }

  // With at most two kept rows a SKU, and no SKU that already ends in "-2", names are distinct.
  lemma {:induction false} TwoPerSkuStayDistinct(g: seq<StagedRow>, k: nat)
    requires k <= |g|
    requires forall j :: 0 <= j < |g| ==> !EndsInTwo(g[j].sku)
    requires forall h: nat, i: nat, j: nat :: !Three(g, h, i, j)
    ensures NamesDistinct(g, k)
  {
    forall j: nat | j < k
      ensures !CollidesAt(g, j)
    {
      if CollidesAt(g, j) {
        var h, i := CollisionMeansThree(g, j);
      }
    }
    DistinctUnlessCollision(g, k);
  }

  // A third row of one SKU gets the name the second was given.
  lemma ThirdRowCollides() returns (g: seq<StagedRow>)
    ensures |g| == 3 && Kept(g, 0) && Kept(g, 1) && Kept(g, 2)
    ensures NameOf(g, 1) == NameOf(g, 2) == "A-2" && !NamesDistinct(g, 3)
  {
    var r := StagedRow("c", "n", "b", "{}", "", "A", "1", Active, Pending, []);
    g := [r, r.(details := "2"), r.(details := "3")];
    assert SignatureOf(g[0]) != SignatureOf(g[1]) && SignatureOf(g[0]) != SignatureOf(g[2]) &&
      SignatureOf(g[1]) != SignatureOf(g[2]);
    assert Names(g, 0) == map[] && NameOf(g, 0) == "A";
    assert Names(g, 1) == map["A" := 1];
    assert NameOf(g, 1) == Rename("A", 1) == "A-2";
    assert Names(g, 2) == map["A" := 1, "A-2" := 1];
    assert NameOf(g, 2) == Rename("A", 1);
  }
}
