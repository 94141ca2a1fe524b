// The category tree and its materialised paths: parent pointers and paths describe the
// same tree after every create, rename, move and delete.
module Categories {
  import opened Prelude
  import opened Text
  import ETags

  type Id = nat

  datatype Category = Category(parent: Option<Id>, slug: string, path: seq<string>, active: bool)

  type Table = map<Id, Category>

  datatype Failure = NotFound | VersionMismatch | InvalidParent | InvalidSlug | SlugTaken | InUse

  const MAX_SLUG: nat := 120

  // ---- slugs and labels ----------------------------------------------------------------

  predicate IsAlnum(c: char) {
    'a' <= c <= 'z' || '0' <= c <= '9'
  }

  // Runs of letters and digits joined by single hyphens.
  predicate SlugShape(s: string) {
    && s != "" && IsAlnum(s[0]) && IsAlnum(s[|s| - 1])
    && (forall i :: 0 <= i < |s| ==> IsAlnum(s[i]) || s[i] == '-')
    && (forall i :: 0 < i < |s| ==> !(s[i - 1] == '-' && s[i] == '-'))
  }

  // Letters and digits only, at least one.
  ghost predicate Word(w: string) {
    w != "" && forall c :: c in w ==> 'a' <= c <= 'z' || '0' <= c <= '9'
  }

  ghost function Hyphenated(words: seq<string>): string {
    if words == [] then "" else if |words| == 1 then words[0] else words[0] + "-" + Hyphenated(words[1..])
  }

  // A slug is one or more words with a hyphen between any two.
  ghost predicate SpelledBy(s: string, words: seq<string>) {
    words != [] && s == Hyphenated(words) && forall w :: w in words ==> Word(w)
  }

  lemma WordShape(w: string)
    ensures Word(w) <==> SlugShape(w) && '-' !in w
  {
    if Word(w) {
      assert forall i :: 0 <= i < |w| ==> w[i] in w && IsAlnum(w[i]);
    }
    if SlugShape(w) && '-' !in w {
      assert forall i :: 0 <= i < |w| ==> w[i] != '-';
    }
  }

  // What a text is, place by place, when it is a word, a hyphen and the rest.
  lemma JoinedAt(w: string, rest: string, i: nat)
    requires i <= |w| + |rest|
    ensures (w + "-" + rest)[i] == if i < |w| then w[i] else if i == |w| then '-' else rest[i - |w| - 1]
  {
  }

  lemma JoinIsSlug(w: string, rest: string)
    requires Word(w) && SlugShape(rest)
    ensures SlugShape(w + "-" + rest)
  {
    var s := w + "-" + rest;
    WordShape(w);
    forall i: nat | i < |s|
      ensures IsAlnum(s[i]) || s[i] == '-'
      ensures i > 0 ==> !(s[i - 1] == '-' && s[i] == '-')
    {
      JoinedAt(w, rest, i);
      if i > 0 {
        JoinedAt(w, rest, i - 1);
      }
    }
    JoinedAt(w, rest, 0);
    JoinedAt(w, rest, |w| + |rest|);
  }

  lemma RestIsSlug(w: string, rest: string)
    requires SlugShape(w + "-" + rest)
    ensures SlugShape(rest)
  {
    var s := w + "-" + rest;
    JoinedAt(w, rest, |w|);
    JoinedAt(w, rest, |w| + |rest|);
    forall i: nat | i < |rest|
      ensures IsAlnum(rest[i]) || rest[i] == '-'
      ensures i > 0 ==> !(rest[i - 1] == '-' && rest[i] == '-')
      ensures i == 0 || i == |rest| - 1 ==> rest[i] != '-'
    {
      var k := |w| + i + 1;
      JoinedAt(w, rest, k);
      JoinedAt(w, rest, k - 1);
      assert !(s[k - 1] == '-' && s[k] == '-');
    }
  }

  lemma {:induction false} SpelledIsSlug(s: string, words: seq<string>)
    requires SpelledBy(s, words)
    ensures SlugShape(s)
    decreases |words|
  {
    WordShape(words[0]);
    if |words| > 1 {
      SpelledIsSlug(Hyphenated(words[1..]), words[1..]);
      JoinIsSlug(words[0], Hyphenated(words[1..]));
    }
  }

  lemma {:induction false} SlugSpelled(s: string) returns (words: seq<string>)
    requires SlugShape(s)
    ensures SpelledBy(s, words)
    decreases |s|
  {
    if '-' !in s {
      WordShape(s);
      words := [s];
    } else {
      var i := FirstHyphen(s);
      var rest := s[i + 1..];
      assert s == s[..i] + "-" + rest;
      RestIsSlug(s[..i], rest);
      var more := SlugSpelled(rest);
      words := [s[..i]] + more;
      assert words[1..] == more;
    }
  }

  lemma FirstHyphen(s: string) returns (i: nat)
    requires SlugShape(s) && '-' in s
    ensures i < |s| && s[i] == '-' && Word(s[..i])
  {
    i := 0;
    while s[i] != '-'
      invariant i < |s| && forall k :: 0 <= k < i ==> s[k] != '-'
      decreases |s| - i
    {
      i := i + 1;
    }
    assert forall c :: c in s[..i] ==> exists k :: 0 <= k < i && s[k] == c;
  }

  // The slugs are exactly the words joined by single hyphens.
  lemma SlugMeans(s: string)
    ensures SlugShape(s) <==> exists words :: SpelledBy(s, words)
  {
    if SlugShape(s) {
      var words := SlugSpelled(s);
    }
    if words :| SpelledBy(s, words) {
      SpelledIsSlug(s, words);
    }
  }

  // What a client may ask for; slugs derived here are not held to the limit.
  ghost predicate ValidSlug(s: string) {
    |s| <= 120 && SlugShape(s)
  }

  function LabelChar(c: char): char {
    if c == '-' then '_' else c
  }

  // ltree labels take no hyphens.
  function Label(slug: string): (text: string)
    ensures |text| == |slug| && forall i :: 0 <= i < |slug| ==> text[i] == LabelChar(slug[i])
  {
    seq(|slug|, i requires 0 <= i < |slug| => LabelChar(slug[i]))
  }

  lemma LabelInjective(s: string, t: string)
    requires SlugShape(s) && SlugShape(t) && Label(s) == Label(t)
    ensures s == t
  {
  }

  // ---- slugs derived from names ------------------------------------------------------------

  // The n-th slug tried for a name that was folded to base.
  function Candidate(base: string, n: nat): string
    requires n >= 1
  {
    if n == 1 then (if base == "" then "item-1" else base)
    else if base == "" then Decimal(n)
    else base + "-" + Decimal(n)
  }

  lemma DigitsAreAlnum(s: string)
    requires IsDigits(s)
    ensures SlugShape(s) && '-' !in s
  {
  }

  lemma CandidateShape(base: string, n: nat)
    requires n >= 1 && (base == "" || SlugShape(base))
    ensures SlugShape(Candidate(base, n))
  {
    if n > 1 {
      DigitsAreAlnum(Decimal(n));
      var s, d := Candidate(base, n), Decimal(n);
      if base != "" {
        assert forall i :: 0 <= i < |s| ==>
          s[i] == if i < |base| then base[i] else if i == |base| then '-' else d[i - |base| - 1];
      }
    }
  }

  lemma CandidatesDiffer(base: string, m: nat, n: nat)
    requires 1 <= m < n
    ensures Candidate(base, m) != Candidate(base, n)
  {
    DigitsAreAlnum(Decimal(n));
    if base == "" {
      assert m == 1 ==> Candidate(base, m)[4] == '-';
      assert Value(Decimal(m)) == m && Value(Decimal(n)) == n;
    } else if m > 1 {
      assert Candidate(base, m)[|base| + 1..] == Decimal(m) && Candidate(base, n)[|base| + 1..] == Decimal(n);
      assert Value(Decimal(m)) == m && Value(Decimal(n)) == n;
    }
  }

  // No more candidates can be taken than there are slugs.
  lemma {:induction false} TakenAreFew(base: string, slugs: set<string>, n: nat)
    requires forall m: nat :: 1 <= m <= n ==> Candidate(base, m) in slugs
    ensures n <= |slugs|
  {
    if n > 0 {
      forall m: nat | 1 <= m < n
        ensures Candidate(base, m) in slugs - {Candidate(base, n)}
      {
        CandidatesDiffer(base, m, n);
      }
      TakenAreFew(base, slugs - {Candidate(base, n)}, n - 1);
    }
  }

  // ---- paths as text ---------------------------------------------------------------------

  // The labels of a path, each followed by a dot: what a child's path starts with.
  function Dotted(path: seq<string>): string {
    if path == [] then "" else path[0] + "." + Dotted(path[1..])
  }

  predicate DotFree(path: seq<string>) {
    forall i :: 0 <= i < |path| ==> '.' !in path[i]
  }

  lemma FirstDot(a: string, rest: string)
    requires '.' !in a
    ensures var s := a + "." + rest;
      s[|a|] == '.' && (forall i :: 0 <= i < |a| ==> s[i] != '.') && s[..|a|] == a && s[|a| + 1..] == rest
  {
  }

  lemma FirstLabel(a: string, rest: string, b: string, more: string)
    requires '.' !in a && '.' !in b && a + "." + rest <= b + "." + more
    ensures a == b && rest <= more
  {
    var s, t := a + "." + rest, b + "." + more;
    FirstDot(a, rest);
    FirstDot(b, more);
    assert t[|a|] == s[|a|] == '.';
    assert |b| <= |a|;
    assert s[|b|] == t[|b|] == '.';
    assert |a| == |b|;
    assert s[..|a|] == t[..|a|];
    assert t[..|s|][|a| + 1..] == s[|a| + 1..];
  }

  // Comparing dotted text by prefix is comparing label lists by prefix.
  lemma {:induction false} TextPrefixIsLabelPrefix(p: seq<string>, q: seq<string>)
    requires DotFree(p) && DotFree(q)
    ensures Dotted(p) <= Dotted(q) <==> p <= q
  {
    if p == [] {
    } else if q == [] {
      assert Dotted(p) != "" && Dotted(q) == "";
    } else {
      TextPrefixIsLabelPrefix(p[1..], q[1..]);
      if Dotted(p) <= Dotted(q) {
        FirstLabel(p[0], Dotted(p[1..]), q[0], Dotted(q[1..]));
        assert p == [p[0]] + p[1..] && q == [q[0]] + q[1..];
      }
      if p <= q {
        assert p[1..] <= q[1..];
        assert Dotted(q) == p[0] + "." + Dotted(q[1..]);
        SamePrefix(p[0] + ".", Dotted(p[1..]), Dotted(q[1..]));
      }
    }
  }

  lemma SamePrefix(a: string, s: string, t: string)
    requires s <= t
    ensures a + s <= a + t
  {
  }

  // ---- the tree -------------------------------------------------------------------------

  function PathUnder(cats: Table, parent: Option<Id>): seq<string>
    requires parent.Some? ==> parent.value in cats
  {
    if parent.None? then [] else cats[parent.value].path
  }

  ghost predicate SoundAt(cats: Table, id: Id)
    requires id in cats
  {
    var c := cats[id];
    && SlugShape(c.slug)
    && (c.parent.Some? ==> c.parent.value in cats)
    && c.path == PathUnder(cats, c.parent) + [Label(c.slug)]
  }

  ghost predicate SlugsUnique(cats: Table) {
    forall a, b :: a in cats && b in cats && cats[a].slug == cats[b].slug ==> a == b
  }

  // Every path is the parent's path and the category's own label.
  ghost predicate Tree(cats: Table) {
    SlugsUnique(cats) && forall id {:trigger SoundAt(cats, id)} :: id in cats ==> SoundAt(cats, id)
  }

  // a is c or an ancestor of c, by parent pointers. That the parents run out is part of
  // the claim: each is one label shorter.
  ghost predicate Under(cats: Table, a: Id, c: Id)
    requires Tree(cats) && c in cats
    decreases |cats[c].path|
  {
    assert SoundAt(cats, c);
    a == c || (cats[c].parent.Some? && Under(cats, a, cats[c].parent.value))
  }

  lemma SamePathSameCategory(cats: Table, a: Id, b: Id)
    requires Tree(cats) && a in cats && b in cats && cats[a].path == cats[b].path
    ensures a == b
  {
    assert SoundAt(cats, a) && SoundAt(cats, b);
    assert cats[a].path[|cats[a].path| - 1] == Label(cats[a].slug);
    assert cats[b].path[|cats[b].path| - 1] == Label(cats[b].slug);
    LabelInjective(cats[a].slug, cats[b].slug);
  }

  // Ancestry by path prefix and by parent pointer agree.
  lemma {:induction false} PrefixIffAncestor(cats: Table, a: Id, c: Id)
    requires Tree(cats) && a in cats && c in cats
    ensures cats[a].path <= cats[c].path <==> Under(cats, a, c)
    decreases |cats[c].path|
  {
    assert SoundAt(cats, a) && SoundAt(cats, c);
    var path, n := cats[c].path, |cats[c].path| - 1;
    var above := PathUnder(cats, cats[c].parent);
    assert above == path[..n];
    if cats[a].path == path {
      SamePathSameCategory(cats, a, c);
    } else {
      assert cats[a].path <= path <==> cats[a].path <= above;
      if cats[c].parent.Some? {
        PrefixIffAncestor(cats, a, cats[c].parent.value);
      }
    }
  }

  // No category is above its own parent.
  lemma {:induction false} ParentsAcyclic(cats: Table, c: Id)
    requires Tree(cats) && c in cats && cats[c].parent.Some?
    ensures cats[c].parent.value in cats && !Under(cats, c, cats[c].parent.value)
  {
    assert SoundAt(cats, c);
    PrefixIffAncestor(cats, c, cats[c].parent.value);
  }

  lemma LabelsDotFree(cats: Table, id: Id)
    requires Tree(cats) && id in cats
    ensures DotFree(cats[id].path) && cats[id].path != []
    decreases |cats[id].path|
  {
    assert SoundAt(cats, id);
    var parent := cats[id].parent;
    if parent.Some? {
      LabelsDotFree(cats, parent.value);
    }
    var own := Label(cats[id].slug);
    forall i | 0 <= i < |own|
      ensures own[i] != '.'
    {
    }
  }

  // The guard compares text; it refuses exactly the category and its descendants.
  lemma {:induction false} GuardMeaning(cats: Table, id: Id, parent: Id)
    requires Tree(cats) && id in cats && parent in cats
    ensures Dotted(cats[id].path) <= Dotted(cats[parent].path) <==> Under(cats, id, parent)
  {
    LabelsDotFree(cats, id);
    LabelsDotFree(cats, parent);
    TextPrefixIsLabelPrefix(cats[id].path, cats[parent].path);
    PrefixIffAncestor(cats, id, parent);
  }

  // ---- statements ---------------------------------------------------------------------------

  // Re-roots every path at or below src dst below new.
  function SubtreeMoved(cats: Table, src: seq<string>, dst: seq<string>): Table {
    map id | id in cats ::
      if cats[id].path == src then cats[id].(path := dst)
      else if src <= cats[id].path then cats[id].(path := dst + cats[id].path[|src|..])
      else cats[id]
  }

  lemma PrefixSnoc(src: seq<string>, p: seq<string>, last: string)
    requires src != p + [last]
    ensures src <= p + [last] <==> src <= p
  {
  }

  lemma RebaseSnoc(src: seq<string>, p: seq<string>, last: string, dst: seq<string>)
    requires src <= p
    ensures dst + (p + [last])[|src|..] == dst + p[|src|..] + [last]
  {
  }

  function Rebased(path: seq<string>, src: seq<string>, dst: seq<string>): seq<string> {
    if src <= path then dst + path[|src|..] else path
  }

  // A category other than the moved one stays right below its parent.
  lemma MovedDescendant(cats: Table, id: Id, c: Id, dst: seq<string>)
    requires Tree(cats) && id in cats && c in cats && c != id
    ensures cats[c].path != cats[id].path && SoundAt(cats, c)
    ensures cats[c].parent.Some? ==>
      Rebased(cats[c].path, cats[id].path, dst) ==
        Rebased(cats[cats[c].parent.value].path, cats[id].path, dst) + [Label(cats[c].slug)]
    ensures cats[c].parent.None? ==> Rebased(cats[c].path, cats[id].path, dst) == cats[c].path
  {
    assert SoundAt(cats, c) && SoundAt(cats, id);
    if cats[c].path == cats[id].path {
      SamePathSameCategory(cats, c, id);
    }
    var src, p := cats[id].path, PathUnder(cats, cats[c].parent);
    PrefixSnoc(src, p, Label(cats[c].slug));
    if src <= p {
      RebaseSnoc(src, p, Label(cats[c].slug), dst);
    }
  }

  // One category rewritten, its path not yet; then its subtree re-rooted.
  function Rewritten(cats: Table, id: Id, parent: Option<Id>, slug: string, active: bool): Table
    requires id in cats
  {
    cats[id := cats[id].(parent := parent, slug := slug, active := active)]
  }

  lemma SubtreeMovedAt(cats: Table, src: seq<string>, dst: seq<string>, c: Id)
    requires c in cats
    ensures c in SubtreeMoved(cats, src, dst) &&
      SubtreeMoved(cats, src, dst)[c] == cats[c].(path := Rebased(cats[c].path, src, dst))
  {
  }

  // The table after the rewrite and the move.
  function MovedTable(cats: Table, id: Id, parent: Option<Id>, slug: string, active: bool): Table
    requires id in cats && (parent.Some? ==> parent.value in cats)
  {
    SubtreeMoved(Rewritten(cats, id, parent, slug, active), cats[id].path, PathUnder(cats, parent) + [Label(slug)])
  }

  lemma MovedTableAt(cats: Table, id: Id, parent: Option<Id>, slug: string, active: bool, c: Id)
    requires id in cats && (parent.Some? ==> parent.value in cats) && c in cats
    ensures var dst := PathUnder(cats, parent) + [Label(slug)];
      && c in MovedTable(cats, id, parent, slug, active)
      && MovedTable(cats, id, parent, slug, active)[c] ==
        if c == id then Category(parent, slug, dst, active)
          else cats[c].(path := Rebased(cats[c].path, cats[id].path, dst))
  {
  }

  lemma MovedSoundAt(cats: Table, id: Id, parent: Option<Id>, slug: string, active: bool, c: Id)
    requires Tree(cats) && id in cats && SlugShape(slug) && c in cats
    requires parent.Some? ==> parent.value in cats && !(cats[id].path <= cats[parent.value].path)
    ensures c in MovedTable(cats, id, parent, slug, active) && SoundAt(MovedTable(cats, id, parent, slug, active), c)
  {
    var dst := PathUnder(cats, parent) + [Label(slug)];
    MovedTableAt(cats, id, parent, slug, active, c);
    var up := if c == id then parent else cats[c].parent;
    assert SoundAt(cats, c);
    if up.Some? {
      MovedTableAt(cats, id, parent, slug, active, up.value);
    }
    if c != id {
      MovedDescendant(cats, id, c, dst);
      MovedTableAt(cats, id, parent, slug, active, id);
      assert Rebased(cats[id].path, cats[id].path, dst) == dst;
    } else if parent.Some? {
      assert parent.value != id;
    }
  }

  // Rewriting one category and re-rooting its subtree gives a sound tree again.
  lemma MoveKeepsTree(cats: Table, id: Id, parent: Option<Id>, slug: string, active: bool)
    requires Tree(cats) && id in cats && SlugShape(slug)
    requires forall c :: c in cats && c != id ==> cats[c].slug != slug
    requires parent.Some? ==> parent.value in cats && !(cats[id].path <= cats[parent.value].path)
    ensures Tree(MovedTable(cats, id, parent, slug, active))
  {
    var after := MovedTable(cats, id, parent, slug, active);
    assert after.Keys == cats.Keys;
    forall c | c in after
      ensures SoundAt(after, c)
    {
      MovedSoundAt(cats, id, parent, slug, active, c);
    }
    forall a, b | a in after && b in after && after[a].slug == after[b].slug
      ensures a == b
    {
      MovedTableAt(cats, id, parent, slug, active, a);
      MovedTableAt(cats, id, parent, slug, active, b);
    }
  }

  // Descendants keep everything but the part of the path they share with the moved
  // category; every other category is untouched.
  ghost predicate Carried(cats: Table, id: Id, dst: seq<string>, c: Id, after: Category)
    requires Tree(cats) && id in cats && c in cats
  {
    after == if Under(cats, id, c) && |cats[id].path| <= |cats[c].path|
             then cats[c].(path := dst + cats[c].path[|cats[id].path|..]) else cats[c]
  }

  lemma MovedIsCarried(cats: Table, id: Id, parent: Option<Id>, slug: string, active: bool, c: Id)
    requires Tree(cats) && id in cats && (parent.Some? ==> parent.value in cats) && c in cats && c != id
    ensures c in MovedTable(cats, id, parent, slug, active)
    ensures Carried(cats, id, PathUnder(cats, parent) + [Label(slug)], c, MovedTable(cats, id, parent, slug, active)[c])
  {
    MovedTableAt(cats, id, parent, slug, active, c);
    PrefixIffAncestor(cats, id, c);
  }

  lemma MoveMeaning(cats: Table, id: Id, parent: Option<Id>, slug: string, active: bool)
    requires Tree(cats) && id in cats && (parent.Some? ==> parent.value in cats)
    ensures var dst := PathUnder(cats, parent) + [Label(slug)];
      var after := MovedTable(cats, id, parent, slug, active);
      && after.Keys == cats.Keys && after[id] == Category(parent, slug, dst, active)
      && forall c :: c in cats && c != id ==> Carried(cats, id, dst, c, after[c])
  {
    MovedTableAt(cats, id, parent, slug, active, id);
    forall c | c in cats && c != id
      ensures Carried(cats, id, PathUnder(cats, parent) + [Label(slug)], c,
        MovedTable(cats, id, parent, slug, active)[c])
    {
      MovedIsCarried(cats, id, parent, slug, active, c);
    }
  }

  lemma NothingMoves(cats: Table, path: seq<string>)
    ensures SubtreeMoved(cats, path, path) == cats
  {
    forall c | c in cats
      ensures SubtreeMoved(cats, path, path)[c] == cats[c]
    {
      SubtreeMovedAt(cats, path, path, c);
      assert path <= cats[c].path ==> path + cats[c].path[|path|..] == cats[c].path;
    }
  }

  ghost function SlugsOf(cats: Table): set<string> {
    set c | c in cats :: cats[c].slug
  }

  // slug is the base itself unless that is taken, else the base and the first number from 2
  // on with which it is free; without a base it is "item-1" or such a number alone.
  ghost predicate FirstFree(slugs: set<string>, base: string, slug: string) {
    var first, stem := if base == "" then "item-1" else base, if base == "" then "" else base + "-";
    && slug !in slugs
    && (slug == first ||
        (first in slugs && exists n: nat :: n >= 2 && slug == stem + Decimal(n) && NumbersTaken(slugs, stem, n)))
  }

  ghost predicate NumbersTaken(slugs: set<string>, stem: string, n: nat) {
    forall m: nat :: 2 <= m < n ==> stem + Decimal(m) in slugs
  }

  lemma FirstCandidateFree(slugs: set<string>, base: string, n: nat)
    requires n >= 1 && Candidate(base, n) !in slugs && TakenBelow(slugs, base, n)
    ensures FirstFree(slugs, base, Candidate(base, n))
  {
    if n > 1 {
      var stem := if base == "" then "" else base + "-";
      assert Candidate(base, 1) in slugs;
      forall m: nat | 2 <= m <= n
        ensures stem + Decimal(m) == Candidate(base, m)
      {
      }
    }
  }

  ghost predicate TakenBelow(slugs: set<string>, base: string, n: nat) {
    forall m: nat :: 1 <= m < n ==> Candidate(base, m) in slugs
  }

  // The update asks for nothing impossible.
  ghost predicate Updatable(cats: Table, id: Id, parent: Option<Id>, slug: string)
    requires Tree(cats)
  {
    && (slug == "" || ValidSlug(slug)) && id in cats
    && (parent.Some? ==> parent.value in cats && !Under(cats, id, parent.value))
    && forall c :: c in cats && cats[c].slug == (if slug == "" then cats[id].slug else slug) ==> c == id
  }

  lemma NewCategoryKeepsTree(cats: Table, id: Id, c: Category)
    requires Tree(cats) && id !in cats && SlugShape(c.slug)
    requires (c.parent.Some? ==> c.parent.value in cats) && c.path == PathUnder(cats, c.parent) + [Label(c.slug)]
    requires forall k :: k in cats ==> cats[k].slug != c.slug
    ensures Tree(cats[id := c])
  {
    var after := cats[id := c];
    forall k | k in after
      ensures SoundAt(after, k)
    {
      assert k != id ==> SoundAt(cats, k);
    }
  }

  class CategoryTable {
    var cats: Table

    ghost predicate Valid()
      reads this
    {
      Tree(cats)
    }

    constructor ()
      ensures Valid() && cats == map[]
    {
      cats := map[];
    }

    predicate SlugExists(slug: string)
      reads this
    {
      exists c :: c in cats && cats[c].slug == slug
    }

    // The first slug derived from a name that no category has.
    method UniqueSlug(base: string) returns (slug: string)
      requires base == "" || SlugShape(base)
      ensures SlugShape(slug) && !SlugExists(slug)
      ensures FirstFree(SlugsOf(cats), base, slug)
    {
      ghost var slugs := SlugsOf(cats);
      var n := 1;
      while SlugExists(Candidate(base, n))
        invariant n >= 1 && TakenBelow(slugs, base, n)
        decreases |slugs| - n
      {
        TakenAreFew(base, slugs, n);
        n := n + 1;
      }
      CandidateShape(base, n);
      FirstCandidateFree(slugs, base, n);
      slug := Candidate(base, n);
    }

    // base is what the name folds to; it serves when no slug is given.
    method Create(id: Id, parent: Option<Id>, slug: string, base: string, active: bool)
      returns (r: Result<Category, Failure>)
      requires Valid() && id !in cats && (base == "" || SlugShape(base))
      modifies this
      ensures Valid()
      ensures r.Err? ==> cats == old(cats)
      ensures r.Ok? <==>
        && (parent.Some? ==> parent.value in old(cats))
        && (Trim(slug) == "" || (ValidSlug(Trim(slug)) && !old(SlugExists(Trim(slug)))))
      ensures r.Ok? ==> cats == old(cats)[id := r.value] && !old(SlugExists(r.value.slug))
      ensures r.Ok? ==>
        if Trim(slug) == "" then FirstFree(SlugsOf(old(cats)), base, r.value.slug) else r.value.slug == Trim(slug)
      ensures r.Ok? ==>
        r.value == Category(parent, r.value.slug, PathUnder(old(cats), parent) + [Label(r.value.slug)], active)
    {
      var own := Trim(slug);
      if own != "" && (|own| > MAX_SLUG || !SlugShape(own)) {
        return Err(InvalidSlug);
      }
      if parent.Some? && parent.value !in cats {
        return Err(InvalidParent);
      }
      if own == "" {
        own := UniqueSlug(base);
      }
      if SlugExists(own) {
        return Err(SlugTaken);
      }
      var c := Category(parent, own, PathUnder(cats, parent) + [Label(own)], active);
      NewCategoryKeepsTree(cats, id, c);
      cats := cats[id := c];
      r := Ok(c);
    }

    // A new slug or parent moves the whole subtree; without a slug the category keeps its
    // own. Refused when the client's tag is not the row's version, and for a parent exactly
    // when it is missing, the category itself or one of its descendants.
    method Update(id: Id, parent: Option<Id>, slug: string, active: bool, ifMatch: string, version: int)
      returns (r: Result<Category, Failure>)
      requires Valid()
      modifies this
      ensures Valid()
      ensures r.Err? ==> cats == old(cats)
      ensures r.Ok? <==> Updatable(old(cats), id, parent, Trim(slug)) && ETags.Accepts(ifMatch, version)
      ensures r == Err(VersionMismatch) <==>
        (Trim(slug) == "" || ValidSlug(Trim(slug))) && id in old(cats) && !ETags.Accepts(ifMatch, version)
      ensures r.Ok? ==>
        && cats.Keys == old(cats).Keys && r.value == cats[id]
        && r.value.slug == (if Trim(slug) == "" then old(cats)[id].slug else Trim(slug))
        && r.value == Category(parent, r.value.slug, PathUnder(old(cats), parent) + [Label(r.value.slug)], active)
        && forall c :: c in cats && c != id ==> Carried(old(cats), id, r.value.path, c, cats[c])
    {
      var own := Trim(slug);
      if own != "" && (|own| > MAX_SLUG || !SlugShape(own)) {
        return Err(InvalidSlug);
      }
      if id !in cats {
        return Err(NotFound);
      }
      var current := ETags.CheckIfMatch(ifMatch, version);
      if !current {
        return Err(VersionMismatch);
      }
      var before := cats[id];
      assert SoundAt(cats, id);
      if own == "" {
        own := before.slug;
      }
      if parent.Some? && parent.value !in cats {
        return Err(InvalidParent);
      }
      var prefix := PathUnder(cats, parent);
      var newPath := prefix + [Label(own)];
      if parent.Some? {
        GuardMeaning(cats, id, parent.value);
      }
      if parent.Some? && (parent.value == id || Dotted(before.path) <= Dotted(prefix)) {
        return Err(InvalidParent);
      }
      if exists c :: c in cats && c != id && cats[c].slug == own {
        return Err(SlugTaken);
      }
      Move(id, parent, own, active);
      r := Ok(cats[id]);
    }

    // Rewrites the row and, if its path changed, re-roots its subtree.
    method Move(id: Id, parent: Option<Id>, slug: string, active: bool)
      requires Valid() && id in cats && SlugShape(slug)
      requires parent.Some? ==> parent.value in cats && !Under(cats, id, parent.value)
      requires forall c :: c in cats && cats[c].slug == slug ==> c == id
      modifies this
      ensures Valid() && cats.Keys == old(cats).Keys
      ensures cats[id] == Category(parent, slug, PathUnder(old(cats), parent) + [Label(slug)], active)
      ensures forall c :: c in cats && c != id ==> Carried(old(cats), id, cats[id].path, c, cats[c])
    {
      var oldPath, newPath := cats[id].path, PathUnder(cats, parent) + [Label(slug)];
      if parent.Some? {
        PrefixIffAncestor(cats, id, parent.value);
      }
      MoveKeepsTree(cats, id, parent, slug, active);
      MoveMeaning(cats, id, parent, slug, active);
      cats := Rewritten(cats, id, parent, slug, active);
      if newPath != oldPath {
        cats := SubtreeMoved(cats, oldPath, newPath);
      } else {
        NothingMoves(cats, newPath);
      }
    }

    // Refused while products or subcategories refer to the category.
    method Delete(id: Id, hasProducts: bool) returns (r: Result<(), Failure>)
      requires Valid()
      modifies this
      ensures Valid()
      ensures r.Ok? <==> id in old(cats) && !hasProducts && forall c :: c in old(cats) ==>
        old(cats)[c].parent != Some(id)
      ensures cats == if r.Ok? then old(cats) - {id} else old(cats)
    {
      if id !in cats {
        return Err(NotFound);
      }
      if hasProducts || exists c :: c in cats && cats[c].parent == Some(id) {
        return Err(InUse);
      }
      ghost var before := cats;
      cats := cats - {id};
      forall k | k in cats
        ensures SoundAt(cats, k)
      {
        assert SoundAt(before, k);
      }
      r := Ok(());
    }
  }
}
