// Matching a spreadsheet cell to an attribute option: the two-row edit distance, what it
// measures, and the suggestion made from it.
module EditDistance {
  import opened Prelude

  function Min(a: nat, b: nat): nat {
    if a <= b then a else b
  }

  function Min3(a: nat, b: nat, c: nat): nat {
    Min(Min(a, b), c)
  }

  function Cost(x: char, y: char): nat {
    if x == y then 0 else 1
  }

  function Front(s: string): string
    requires s != ""
  {
    s[..|s| - 1]
  }

  // The recursive edit distance, on prefixes.
  function Distance(a: string, b: string): nat
    decreases |a| + |b|
  {
    if a == "" then |b|
    else if b == "" then |a|
    else Min3(Distance(Front(a), b) + 1, Distance(a, Front(b)) + 1,
      Distance(Front(a), Front(b)) + Cost(Last(a), Last(b)))
  }

  // ---- the two-row loop ----------------------------------------------------------------

  // The first n + 1 cells of row i, from the row before it.
  function Cells(prev: seq<nat>, i: nat, x: char, b: string, n: nat): (row: seq<nat>)
    requires n <= |b| < |prev|
    ensures |row| == n + 1
  {
    if n == 0 then [i]
    else
      var row := Cells(prev, i, x, b, n - 1);
      row + [Min3(prev[n] + 1, row[n - 1] + 1, prev[n - 1] + Cost(x, b[n - 1]))]
  }

  lemma {:induction false} CellsNext(prev: seq<nat>, i: nat, x: char, b: string, n: nat, row: seq<nat>)
    requires 1 <= n <= |b| < |prev| && row == Cells(prev, i, x, b, n - 1)
    ensures Cells(prev, i, x, b, n) == row + [Min3(prev[n] + 1, row[n - 1] + 1, prev[n - 1] + Cost(x, b[n - 1]))]
  {
  }

  // Row i of the table the loop goes through.
  function Row(a: string, b: string, i: nat): (row: seq<nat>)
    requires i <= |a|
    ensures |row| == |b| + 1
  {
    if i == 0 then seq(|b| + 1, j => j) else Cells(Row(a, b, i - 1), i, a[i - 1], b, |b|)
  }

  lemma {:induction false} DistanceStep(s: string, t: string)
    requires s != "" && t != ""
    ensures Distance(s, t) ==
      Min3(Distance(Front(s), t) + 1, Distance(s, Front(t)) + 1, Distance(Front(s), Front(t)) + Cost(Last(s), Last(t)))
  {
  }

  lemma PrefixFront(s: string, i: nat)
    requires 1 <= i <= |s|
    ensures s[..i] != "" && Front(s[..i]) == s[..i - 1] && Last(s[..i]) == s[i - 1]
  {
  }

  // The cell written from the three beside it.
  lemma {:induction false} CellSnoc(a: string, b: string, i: nat, j: nat, up: nat, left: nat, diagonal: nat)
    requires 1 <= i <= |a| && 1 <= j <= |b|
    requires up == Distance(a[..i - 1], b[..j]) && left == Distance(a[..i], b[..j - 1])
    requires diagonal == Distance(a[..i - 1], b[..j - 1])
    ensures Min3(up + 1, left + 1, diagonal + Cost(a[i - 1], b[j - 1])) == Distance(a[..i], b[..j])
  {
    PrefixFront(a, i);
    PrefixFront(b, j);
    DistanceStep(a[..i], b[..j]);
  }

  lemma {:induction false} CellIsDistance(a: string, b: string, i: nat, prev: seq<nat>, n: nat, j: nat)
    requires 1 <= i <= |a| && j <= n <= |b| < |prev|
    requires forall k {:trigger prev[k]} :: 0 <= k <= |b| ==> prev[k] == Distance(a[..i - 1], b[..k])
    ensures Cells(prev, i, a[i - 1], b, n)[j] == Distance(a[..i], b[..j])
  {
    if n > 0 {
      var row := Cells(prev, i, a[i - 1], b, n - 1);
      CellsNext(prev, i, a[i - 1], b, n, row);
      if j < n {
        CellIsDistance(a, b, i, prev, n - 1, j);
      } else {
        CellIsDistance(a, b, i, prev, n - 1, n - 1);
        CellSnoc(a, b, i, n, prev[n], row[n - 1], prev[n - 1]);
      }
    }
  }

  lemma {:induction false} RowIsDistance(a: string, b: string, i: nat, j: nat)
    requires i <= |a| && j <= |b|
    ensures Row(a, b, i)[j] == Distance(a[..i], b[..j])
  {
    if i > 0 {
      forall k | 0 <= k <= |b|
        ensures Row(a, b, i - 1)[k] == Distance(a[..i - 1], b[..k])
      {
        RowIsDistance(a, b, i - 1, k);
      }
      CellIsDistance(a, b, i, Row(a, b, i - 1), |b|, j);
    }
  }

  // Overwrites cur with row i, reading the row before it.
  method NextRow(prev: array<nat>, cur: array<nat>, i: nat, x: char, b: string)
    requires prev != cur && prev.Length == cur.Length == |b| + 1
    modifies cur
    ensures cur[..] == Cells(prev[..], i, x, b, |b|)
  {
    ghost var above := prev[..];
    cur[0] := i;
    for j := 1 to |b| + 1
      invariant prev[..] == above
      invariant cur[..j] == Cells(above, i, x, b, j - 1)
    {
      CellsNext(above, i, x, b, j, cur[..j]);
      cur[j] := Min3(prev[j] + 1, cur[j - 1] + 1, prev[j - 1] + Cost(x, b[j - 1]));
      assert cur[..j + 1] == cur[..j] + [cur[j]];
    }
    assert cur[..] == cur[..|b| + 1];
  }

  method Levenshtein(a: string, b: string) returns (d: nat)
    ensures d == Distance(a, b)
  {
    var prev := new nat[|b| + 1](j => j);
    var cur := new nat[|b| + 1](j => 0);
    for i := 1 to |a| + 1
      invariant prev != cur && prev.Length == cur.Length == |b| + 1
      invariant fresh(prev) && fresh(cur)
      invariant prev[..] == Row(a, b, i - 1)
    {
      NextRow(prev, cur, i, a[i - 1], b);
      prev, cur := cur, prev;
    }
    RowIsDistance(a, b, |a|, |b|);
    assert a[..|a|] == a && b[..|b|] == b;
    d := prev[|b|];
  }

  // ---- the distance is a metric -----------------------------------------------------------

  lemma {:induction false} Bounds(a: string, b: string)
    ensures Distance(a, b) <= |a| + |b|
    ensures |a| <= Distance(a, b) + |b| && |b| <= Distance(a, b) + |a|
    decreases |a| + |b|
  {
    if a != "" && b != "" {
      Bounds(Front(a), b);
      Bounds(a, Front(b));
      Bounds(Front(a), Front(b));
    }
  }

  lemma {:induction false} ZeroIffEqual(a: string, b: string)
    ensures Distance(a, b) == 0 <==> a == b
    decreases |a| + |b|
  {
    if a != "" && b != "" {
      ZeroIffEqual(Front(a), Front(b));
      assert a == Front(a) + [Last(a)] && b == Front(b) + [Last(b)];
    }
  }

  lemma {:induction false} Symmetric(a: string, b: string)
    ensures Distance(a, b) == Distance(b, a)
    decreases |a| + |b|
  {
    if a != "" && b != "" {
      Symmetric(Front(a), b);
      Symmetric(a, Front(b));
      Symmetric(Front(a), Front(b));
    }
  }

  // The distance is the least of the three ways to end.
  lemma {:induction false} LastEdit(a: string, b: string)
    requires a != "" && b != ""
    ensures var (cut, grow, swap) :=
      (Distance(Front(a), b) + 1, Distance(a, Front(b)) + 1, Distance(Front(a), Front(b)) + Cost(Last(a), Last(b)));
      Distance(a, b) <= cut && Distance(a, b) <= grow && Distance(a, b) <= swap && Distance(a, b) in {cut, grow, swap}
  {
  }

  lemma {:induction false} Triangle(a: string, b: string, c: string)
    ensures Distance(a, c) <= Distance(a, b) + Distance(b, c)
    decreases |a| + |b| + |c|, 1
  {
    if a == "" || b == "" || c == "" {
      Bounds(a, b);
      Bounds(b, c);
      Bounds(a, c);
    } else {
      TriangleStep(a, b, c);
    }
  }

  lemma {:induction false} TriangleStep(a: string, b: string, c: string)
    requires a != "" && b != "" && c != ""
    ensures Distance(a, c) <= Distance(a, b) + Distance(b, c)
    decreases |a| + |b| + |c|, 0
  {
    LastEdit(a, b);
    LastEdit(b, c);
    LastEdit(a, c);
    if Distance(a, b) == Distance(Front(a), b) + 1 {
      Triangle(Front(a), b, c);
    } else if Distance(b, c) == Distance(b, Front(c)) + 1 {
      Triangle(a, b, Front(c));
    } else if Distance(a, b) == Distance(a, Front(b)) + 1 {
      Triangle(a, Front(b), c);
      Triangle(a, Front(b), Front(c));
    } else {
      Triangle(Front(a), Front(b), c);
      Triangle(Front(a), Front(b), Front(c));
    }
  }

  // ---- the distance counts edits ------------------------------------------------------------

  predicate Inserts(s: string, t: string, i: nat) {
    i < |t| && s == t[..i] + t[i + 1..]
  }

  predicate Replaces(s: string, t: string, i: nat) {
    i < |s| == |t| && s[..i] == t[..i] && s[i + 1..] == t[i + 1..]
  }

  // One character inserted, deleted or replaced.
  ghost predicate OneEdit(s: string, t: string) {
    exists i: nat :: Inserts(s, t, i) || Inserts(t, s, i) || Replaces(s, t, i)
  }

  ghost predicate Script(a: string, b: string, steps: seq<string>) {
    && steps != [] && steps[0] == a && steps[|steps| - 1] == b
    && forall i :: 0 <= i < |steps| - 1 ==> OneEdit(steps[i], steps[i + 1])
  }

  lemma {:induction false} SameSuffix(a: string, b: string, s: string)
    ensures Distance(a + s, b + s) <= Distance(a, b)
  {
    if s == "" {
      assert a + s == a && b + s == b;
    } else {
      assert Front(a + s) == a + Front(s) && Front(b + s) == b + Front(s);
      SameSuffix(a, b, Front(s));
    }
  }

  lemma {:induction false} OneEditIsNear(s: string, t: string)
    requires OneEdit(s, t)
    ensures Distance(s, t) <= 1
  {
    var i: nat :| Inserts(s, t, i) || Inserts(t, s, i) || Replaces(s, t, i);
    if Inserts(s, t, i) {
      InsertIsNear(s, t, i);
    } else if Inserts(t, s, i) {
      InsertIsNear(t, s, i);
      Symmetric(s, t);
    } else {
      ReplaceIsNear(s, t, i);
    }
  }

  lemma {:induction false} ReplaceIsNear(s: string, t: string, i: nat)
    requires Replaces(s, t, i)
    ensures Distance(s, t) <= 1
  {
    assert s == s[..i + 1] + s[i + 1..] && t == t[..i + 1] + t[i + 1..];
    SameSuffix(s[..i + 1], t[..i + 1], s[i + 1..]);
    PrefixFront(s, i + 1);
    PrefixFront(t, i + 1);
    ZeroIffEqual(s[..i], t[..i]);
    LastEdit(s[..i + 1], t[..i + 1]);
  }

  lemma {:induction false} InsertIsNear(s: string, t: string, i: nat)
    requires Inserts(s, t, i)
    ensures Distance(s, t) <= 1
  {
    assert t == t[..i + 1] + t[i + 1..];
    SameSuffix(t[..i], t[..i + 1], t[i + 1..]);
    assert Front(t[..i + 1]) == t[..i];
    ZeroIffEqual(t[..i], t[..i]);
  }

  // No script of edits is shorter than the distance.
  lemma {:induction false} ScriptIsLongEnough(a: string, b: string, steps: seq<string>)
    requires Script(a, b, steps)
    ensures Distance(a, b) <= |steps| - 1
    decreases |steps|
  {
    var n := |steps| - 1;
    if n == 0 {
      ZeroIffEqual(a, b);
    } else {
      ScriptIsLongEnough(a, steps[n - 1], steps[..n]);
      assert OneEdit(steps[n - 1], steps[n]);
      OneEditIsNear(steps[n - 1], b);
      Triangle(a, steps[n - 1], b);
    }
  }

  lemma InsertUnderSuffix(s: string, t: string, i: nat, x: char)
    requires Inserts(s, t, i)
    ensures Inserts(s + [x], t + [x], i)
  {
  }

  lemma ReplaceUnderSuffix(s: string, t: string, i: nat, x: char)
    requires Replaces(s, t, i)
    ensures Replaces(s + [x], t + [x], i)
  {
  }

  lemma EditUnderSuffix(s: string, t: string, x: char)
    requires OneEdit(s, t)
    ensures OneEdit(s + [x], t + [x])
  {
    var i: nat :| Inserts(s, t, i) || Inserts(t, s, i) || Replaces(s, t, i);
    if Inserts(s, t, i) {
      InsertUnderSuffix(s, t, i, x);
    } else if Inserts(t, s, i) {
      InsertUnderSuffix(t, s, i, x);
    } else {
      ReplaceUnderSuffix(s, t, i, x);
    }
  }

  function WithSuffix(steps: seq<string>, x: char): (out: seq<string>)
    ensures |out| == |steps| && forall i :: 0 <= i < |steps| ==> out[i] == steps[i] + [x]
  {
    seq(|steps|, i requires 0 <= i < |steps| => steps[i] + [x])
  }

  lemma ScriptUnderSuffix(a: string, b: string, steps: seq<string>, x: char)
    requires Script(a, b, steps)
    ensures Script(a + [x], b + [x], WithSuffix(steps, x))
  {
    forall i | 0 <= i < |steps| - 1
      ensures OneEdit(WithSuffix(steps, x)[i], WithSuffix(steps, x)[i + 1])
    {
      EditUnderSuffix(steps[i], steps[i + 1], x);
    }
  }

  lemma ScriptSnoc(a: string, b: string, steps: seq<string>, c: string)
    requires Script(a, b, steps) && OneEdit(b, c)
    ensures Script(a, c, steps + [c])
  {
  }

  lemma ScriptCons(a: string, b: string, steps: seq<string>, c: string)
    requires Script(b, c, steps) && OneEdit(a, b)
    ensures Script(a, c, [a] + steps)
  {
  }

  // Some script takes exactly that many edits.
  lemma {:induction false} ShortestScript(a: string, b: string) returns (steps: seq<string>)
    ensures Script(a, b, steps) && |steps| - 1 == Distance(a, b)
    decreases |a| + |b|
  {
    if a == "" && b == "" {
      steps := [""];
    } else if a == "" || (b != "" && Distance(a, b) == Distance(a, Front(b)) + 1) {
      steps := ShortestScript(a, Front(b));
      LastInserted(b);
      ScriptSnoc(a, Front(b), steps, b);
      steps := steps + [b];
    } else if b == "" || Distance(a, b) == Distance(Front(a), b) + 1 {
      steps := ShortestScript(Front(a), b);
      LastInserted(a);
      ScriptCons(a, Front(a), steps, b);
      steps := [a] + steps;
    } else {
      var short := ShortestScript(Front(a), Front(b));
      steps := SubstituteLast(a, b, short);
    }
  }

  lemma LastInserted(s: string)
    requires s != ""
    ensures OneEdit(Front(s), s) && OneEdit(s, Front(s))
  {
    assert Inserts(Front(s), s, |s| - 1);
  }

  lemma SubstituteLast(a: string, b: string, short: seq<string>) returns (steps: seq<string>)
    requires a != "" && b != "" && Script(Front(a), Front(b), short)
    ensures Script(a, b, steps) && |steps| == |short| + Cost(Last(a), Last(b))
  {
    var x := Last(a);
    ScriptUnderSuffix(Front(a), Front(b), short, x);
    steps := WithSuffix(short, x);
    assert Front(a) + [x] == a && Front(b) + [Last(b)] == b;
    if x != Last(b) {
      assert Replaces(Front(b) + [x], b, |b| - 1);
      ScriptSnoc(a, Front(b) + [x], steps, b);
      steps := steps + [b];
    }
  }

  // ---- matching an option -------------------------------------------------------------------

  datatype SheetOption = SheetOption(value: string, name: string)

  // Found(i) is the option's index; Suggestion carries its name.
  datatype Match = Found(index: nat) | Suggestion(name: string) | NoMatch

  // Slug and Compact fold away case and punctuation; how they do it does not matter here.
  type Fold = string -> string

  // The cell is the option's value, or folds to the slug of its value or its name.
  ghost predicate Names(o: SheetOption, cell: string, slug: Fold) {
    o.value == cell || slug(cell) in {slug(o.value), slug(o.name)}
  }

  ghost predicate LooselyNames(o: SheetOption, cell: string, compact: Fold) {
    compact(cell) in {compact(o.value), compact(o.name)}
  }

  const INCH := "-inch"

  // strings.TrimSuffix(s, "-inch").
  function TrimInch(s: string): string {
    if |s| >= |INCH| && s[|s| - |INCH|..] == INCH then s[..|s| - |INCH|] else s
  }

  // The cell is the option's value with "inch" after it.
  ghost predicate NamesInches(o: SheetOption, cell: string, slug: Fold) {
    slug(cell) == slug(o.value) + "-inch"
  }

  lemma TrimInchMeans(s: string, stem: string)
    ensures TrimInch(s) != s && TrimInch(s) == stem <==> s == stem + "-inch"
  {
    if s == stem + "-inch" {
      assert s[|s| - |INCH|..] == INCH && s[..|s| - |INCH|] == stem;
    }
  }

  function Candidate(o: SheetOption, byName: bool): string {
    if byName then o.name else o.value
  }

  function DistanceTo(o: SheetOption, byName: bool, want: string, slug: Fold): nat {
    Distance(want, slug(Candidate(o, byName)))
  }

  function Threshold(want: string): nat {
    if |want| / 3 > 2 then |want| / 3 else 2
  }

  // Near enough to suggest: two edits, or one for every three characters.
  ghost predicate Near(want: string, d: nat) {
    d <= 2 || 3 * d <= |want|
  }

  ghost predicate NearestIs(options: seq<SheetOption>, want: string, slug: Fold, d: nat, name: string) {
    && (exists i, byName ::
      0 <= i < |options| && options[i].name == name && DistanceTo(options[i], byName, want, slug) == d)
    && (forall i, byName :: 0 <= i < |options| ==> d <= DistanceTo(options[i], byName, want, slug))
  }

  ghost predicate NoneNames(options: seq<SheetOption>, cell: string, slug: Fold) {
    forall i :: 0 <= i < |options| ==> !Names(options[i], cell, slug)
  }

  ghost predicate NoneNamesInches(options: seq<SheetOption>, cell: string, slug: Fold) {
    forall i :: 0 <= i < |options| ==> !NamesInches(options[i], cell, slug)
  }

  ghost predicate OnlyLoose(options: seq<SheetOption>, cell: string, compact: Fold, i: nat) {
    i < |options| && forall j :: 0 <= j < |options| ==> (LooselyNames(options[j], cell, compact) <==> j == i)
  }

  ghost predicate FirstWhere(options: seq<SheetOption>, p: SheetOption -> bool, i: nat) {
    i < |options| && p(options[i]) && forall j :: 0 <= j < i ==> !p(options[j])
  }

  // Which option the cell names: the first that names it outright, else the first by its
  // size in inches, else the only one that does loosely.
  ghost predicate IsFound(options: seq<SheetOption>, cell: string, slug: Fold, compact: Fold, i: nat) {
    if !NoneNames(options, cell, slug) then FirstWhere(options, o => Names(o, cell, slug), i)
    else if !NoneNamesInches(options, cell, slug) then FirstWhere(options, o => NamesInches(o, cell, slug), i)
    else OnlyLoose(options, cell, compact, i)
  }

  lemma TwoLoose(options: seq<SheetOption>, cell: string, compact: Fold, i: nat, j: nat)
    requires i < j < |options| && LooselyNames(options[i], cell, compact) && LooselyNames(options[j], cell, compact)
    ensures forall k: nat :: !OnlyLoose(options, cell, compact, k)
  {
  }

  method LooseMatch(options: seq<SheetOption>, cell: string, compact: Fold) returns (loose: Option<nat>)
    ensures loose.Some? ==> OnlyLoose(options, cell, compact, loose.value)
    ensures loose.None? ==> forall i: nat :: !OnlyLoose(options, cell, compact, i)
  {
    loose := None;
    for i := 0 to |options|
      invariant loose.Some? ==> loose.value < i && LooselyNames(options[loose.value], cell, compact)
      invariant forall j :: 0 <= j < i ==> (LooselyNames(options[j], cell, compact) <==> loose == Some(j))
    {
      if compact(options[i].value) == compact(cell) || compact(options[i].name) == compact(cell) {
        if loose.Some? {
          TwoLoose(options, cell, compact, loose.value, i);
          return None;
        }
        loose := Some(i);
      }
    }
    forall k: nat | loose.None? && k < |options|
      ensures !OnlyLoose(options, cell, compact, k)
    {
      assert !LooselyNames(options[k], cell, compact);
    }
  }

  method MatchOption(options: seq<SheetOption>, cell: string, slug: Fold, compact: Fold) returns (m: Match)
    ensures m.Found? ==> IsFound(options, cell, slug, compact, m.index)
    ensures !m.Found? ==> forall i: nat :: !IsFound(options, cell, slug, compact, i)
    ensures m.Suggestion? ==>
      m.name != "" && exists d: nat :: Near(slug(cell), d) && NearestIs(options, slug(cell), slug, d, m.name)
    ensures m.NoMatch? ==> forall i, byName :: 0 <= i < |options| ==>
      !Near(slug(cell), DistanceTo(options[i], byName, slug(cell), slug)) ||
      exists d: nat :: NearestIs(options, slug(cell), slug, d, "")
  {
    var want := slug(cell);
    for i := 0 to |options|
      invariant forall j :: 0 <= j < i ==> !Names(options[j], cell, slug)
    {
      var o := options[i];
      if o.value == cell || slug(o.value) == want || slug(o.name) == want {
        return Found(i);
      }
    }
    var s := TrimInch(want);
    if s != want {
      for i := 0 to |options|
        invariant forall j :: 0 <= j < i ==> !NamesInches(options[j], cell, slug)
      {
        TrimInchMeans(want, slug(options[i].value));
        if slug(options[i].value) == s {
          return Found(i);
        }
      }
    }
    forall j | 0 <= j < |options|
      ensures !NamesInches(options[j], cell, slug)
    {
      TrimInchMeans(want, slug(options[j].value));
    }
    var loose := LooseMatch(options, cell, compact);
    if loose.Some? {
      return Found(loose.value);
    }
    var nearest, best := Nearest(options, want, slug);
    if best != "" && nearest.Some? && nearest.value <= Threshold(want) {
      return Suggestion(best);
    }
    m := NoMatch;
  }

  method Nearest(options: seq<SheetOption>, want: string, slug: Fold) returns (nearest: Option<nat>, best: string)
    ensures nearest.None? <==> options == []
    ensures nearest.Some? ==> NearestIs(options, want, slug, nearest.value, best)
  {
    nearest, best := None, "";
    for i := 0 to |options|
      invariant nearest.None? <==> i == 0
      invariant nearest.Some? ==> NearestIs(options[..i], want, slug, nearest.value, best)
    {
      var d := Levenshtein(want, slug(options[i].value));
      var e := Levenshtein(want, slug(options[i].name));
      ghost var was, wasBest := nearest, best;
      if nearest.None? || d < nearest.value {
        nearest, best := Some(d), options[i].name;
      }
      if e < nearest.value {
        nearest, best := Some(e), options[i].name;
      }
      OneMoreOption(options, i, want, slug, was, wasBest, nearest.value, best);
    }
    assert options[..|options|] == options;
  }

  lemma OneMoreOption(options: seq<SheetOption>, n: nat, want: string, slug: Fold, was: Option<nat>, wasBest: string,
                      d: nat, best: string)
    requires n < |options| && (was.None? <==> n == 0) &&
      (was.Some? ==> NearestIs(options[..n], want, slug, was.value, wasBest))
    requires var v, e := DistanceTo(options[n], false, want, slug), DistanceTo(options[n], true, want, slug);
      && d <= v && d <= e && (was.Some? ==> d <= was.value)
      && if was.Some? && d == was.value then best == wasBest else best == options[n].name && (d == v || d == e)
    ensures NearestIs(options[..n + 1], want, slug, d, best)
  {
  }
}
