// Editors of one product, photo changes, imports and unbinds interleaving with page loads
// that read one table at a time: what a conditional save can overwrite unseen.
module EditSessions {
  import opened Prelude
  import opened ETags

  // A brand or a supplier.
  type RefId = nat

  // What one table holds of the product: its own fields, and the brand or the suppliers its
  // rows refer to.
  datatype Part = Part(fields: string, refs: seq<Option<RefId>>)

  // The tables a product page shows, the versioned row first.
  type Parts = seq<Part>

  datatype Product = Product(version: int, parts: Parts)

  // A load under way: the version came with the first part; the others may be read later.
  // readAt holds the moment each part was read.
  datatype Load = Load(version: int, read: Parts, readAt: seq<nat>)

  datatype Session =
    | Idle
    | Loading(load: Load)
    // The fields the form started from, and the load whose version is sent back with a save.
    | Editing(form: Parts, base: Load, refetch: Option<Load>)

  // A successful conditional save: what its form started from, the load whose version it
  // sent, the moment it was made, and what it wrote.
  datatype Save = Save(form: Parts, base: Load, moment: nat, saved: Parts)

  // past holds the product before each step so far; known the brands and suppliers there
  // are, used those there ever were.
  datatype World = World(product: Product, past: seq<Product>, known: set<RefId>, used: set<RefId>,
                         sessions: map<nat, Session>, saves: seq<Save>)

  datatype Action =
    | StartLoad(s: nat)
    | ReadPart(s: nat)
    | StartRefetch(s: nat)
    | ReadRefetchPart(s: nat)
    | SaveIfMatch(s: nat, parts: Parts, now: int)
    // Another editor's unchecked save, a merged import row, an unbind: any change that
    // comes with a new version.
    | Change(parts: Parts, now: int)
    // A photo change bumps the version only.
    | PhotoChange(now: int)
    | ReferenceCreated(id: RefId)
    // Deleting a brand or a supplier clears it from products, without a new version.
    | ReferenceDeleted(id: RefId)

  // ---- references ---------------------------------------------------------------------------

  predicate Names(p: Part, id: RefId) {
    Some(id) in p.refs
  }

  predicate NamesOnly(parts: Parts, known: set<RefId>) {
    forall k :: 0 <= k < |parts| ==> forall r :: r in parts[k].refs && r.Some? ==> r.value in known
  }

  // The two differ in references at most.
  predicate SameFields(before: Parts, after: Parts) {
    |before| == |after| && forall k :: 0 <= k < |before| ==> before[k].fields == after[k].fields
  }

  predicate SomeNames(parts: Parts, id: RefId) {
    exists k :: 0 <= k < |parts| && Names(parts[k], id)
  }

  // The part with every reference to id set to null.
  function Cleared(p: Part, id: RefId): (q: Part)
    ensures q.fields == p.fields && |q.refs| == |p.refs|
    ensures forall x :: Names(q, x) <==> Names(p, x) && x != id
    ensures q == p <==> !Names(p, id)
  {
    var refs := seq(|p.refs|, i requires 0 <= i < |p.refs| => if p.refs[i] == Some(id) then None else p.refs[i]);
    assert forall i :: 0 <= i < |refs| ==> refs[i] == if p.refs[i] == Some(id) then None else p.refs[i];
    assert !Names(p, id) ==> refs == p.refs;
    assert forall x :: Names(p, x) && x != id ==> Some(x) in refs by {
      forall x | Names(p, x) && x != id
        ensures Some(x) in refs
      {
        var i :| 0 <= i < |p.refs| && p.refs[i] == Some(x);
        assert refs[i] == Some(x);
      }
    }
    p.(refs := refs)
  }

  function AllCleared(parts: Parts, id: RefId): (cleared: Parts)
    ensures |cleared| == |parts| && forall k :: 0 <= k < |parts| ==> cleared[k] == Cleared(parts[k], id)
  {
    seq(|parts|, k requires 0 <= k < |parts| => Cleared(parts[k], id))
  }

  // ---- steps ----------------------------------------------------------------------------------

  // The product at each moment, the current one last.
  function History(w: World): (h: seq<Product>)
    ensures |h| == |w.past| + 1 && h[|w.past|] == w.product
    ensures forall t :: 0 <= t < |w.past| ==> h[t] == w.past[t]
  {
    w.past + [w.product]
  }

  function SessionOf(w: World, s: nat): Session {
    if s in w.sessions then w.sessions[s] else Idle
  }

  // A full read of the product as it is at one moment.
  function WholeRead(p: Product, moment: nat): Load {
    Load(p.version, p.parts, seq(|p.parts|, _ => moment))
  }

  function FirstRead(p: Product, moment: nat): Load {
    if p.parts == [] then WholeRead(p, moment) else Load(p.version, [p.parts[0]], [moment])
  }

  // Reads the next part, whatever has changed since the ones before.
  function NextRead(p: Product, l: Load, moment: nat): Load {
    if |l.read| < |p.parts| then l.(read := l.read + [p.parts[|l.read|]], readAt := l.readAt + [moment]) else l
  }

  function Progress(p: Product, l: Load): Session {
    if |l.read| == |p.parts| then Editing(l.read, l, None) else Loading(l)
  }

  // After a photo change the new tag is adopted only if the fields are still the baseline's.
  function Refetched(p: Product, form: Parts, base: Load, l: Load): Session {
    if |l.read| < |p.parts| then Editing(form, base, Some(l))
    else Editing(form, if l.read == form then l else base, None)
  }

  // The session after a step it takes on a product as it is at a moment.
  ghost function Taken(p: Product, known: set<RefId>, moment: nat, session: Session, a: Action): Session {
    match a
    case StartLoad(_) => Progress(p, FirstRead(p, moment))
    case ReadPart(_) => if session.Loading? then Progress(p, NextRead(p, session.load, moment)) else session
    case StartRefetch(_) => if session.Editing? then session.(refetch := Some(FirstRead(p, moment))) else session
    case ReadRefetchPart(_) =>
      if session.Editing? && session.refetch.Some? then
        Refetched(p, session.form, session.base, NextRead(p, session.refetch.value, moment))
      else session
    case SaveIfMatch(_, parts, now) =>
      if Saves(p, known, session, parts) then
        session.(form := parts, base := WholeRead(Product(now, parts), moment + 1))
      else session
    case _ => session
  }

  // The save is accepted: the tag sent back is the current version's, and every brand and
  // supplier it names exists.
  ghost predicate Saves(p: Product, known: set<RefId>, session: Session, parts: Parts) {
    session.Editing? && Accepts(ETag(session.base.version), p.version) && NamesOnly(parts, known)
  }

  ghost function Changed(w: World, a: Action): Product {
    match a
    case SaveIfMatch(s, parts, now) =>
      if Saves(w.product, w.known, SessionOf(w, s), parts) then Product(now, parts) else w.product
    case Change(parts, now) => Product(now, parts)
    case PhotoChange(now) => w.product.(version := now)
    case ReferenceDeleted(id) => w.product.(parts := AllCleared(w.product.parts, id))
    case _ => w.product
  }

  predicate BySession(a: Action) {
    a.StartLoad? || a.ReadPart? || a.StartRefetch? || a.ReadRefetchPart? || a.SaveIfMatch?
  }

  ghost function Step(w: World, a: Action): World {
    var moment := |w.past|;
    World(
      Changed(w, a),
      w.past + [w.product],
      if a.ReferenceCreated? then w.known + {a.id} else if a.ReferenceDeleted? then w.known - {a.id} else w.known,
      if a.ReferenceCreated? then w.used + {a.id} else w.used,
      if BySession(a) then w.sessions[a.s := Taken(w.product, w.known, moment, SessionOf(w, a.s), a)] else w.sessions,
      if a.SaveIfMatch? && Saves(w.product, w.known, SessionOf(w, a.s), a.parts)
        then w.saves + [Save(SessionOf(w, a.s).form, SessionOf(w, a.s).base, moment, a.parts)] else w.saves)
  }

  // A new version was never used before, nor was a new reference's id; a change keeps the
  // page's tables and names what exists.
  ghost predicate Enabled(w: World, a: Action) {
    && (a.SaveIfMatch? || a.Change? || a.PhotoChange? ==>
      forall t :: 0 <= t < |History(w)| ==> History(w)[t].version != a.now)
    && (a.SaveIfMatch? || a.Change? ==> |a.parts| == |w.product.parts|)
    && (a.Change? ==> NamesOnly(a.parts, w.known))
    && (a.ReferenceCreated? ==> a.id !in w.used)
    && (a.ReferenceDeleted? ==> a.id in w.known)
  }

  ghost function Run(w: World, actions: seq<Action>): World {
    if actions == [] then w else Step(Run(w, actions[..|actions| - 1]), actions[|actions| - 1])
  }

  ghost predicate Possible(w: World, actions: seq<Action>) {
    actions == [] ||
    (Possible(w, actions[..|actions| - 1]) && Enabled(Run(w, actions[..|actions| - 1]), actions[|actions| - 1]))
  }

  ghost predicate Fresh(w: World) {
    && w.sessions == map[] && w.saves == [] && w.past == [] && w.product.parts != []
    && w.known <= w.used && NamesOnly(w.product.parts, w.known)
  }

  // ---- what is kept -----------------------------------------------------------------------

  // What was read is what the product was at each moment of reading, the version that of
  // the first moment. This is about the past, so nothing that happens later can break it.
  ghost predicate LoadOk(h: seq<Product>, l: Load) {
    && |l.readAt| == |l.read| > 0
    && (forall k :: 0 <= k < |l.read| ==> l.readAt[0] <= l.readAt[k] < |h|)
    && (forall k :: 0 <= k < |l.read| ==> k < |h[l.readAt[k]].parts| && h[l.readAt[k]].parts[k] == l.read[k])
    && h[l.readAt[0]].version == l.version
  }

  ghost predicate SessionOk(h: seq<Product>, n: nat, s: Session) {
    match s
    case Idle => true
    case Loading(l) => LoadOk(h, l) && |l.read| <= n
    case Editing(form, base, refetch) =>
      LoadOk(h, base) && |base.read| == n && form == base.read &&
      (refetch.Some? ==> LoadOk(h, refetch.value) && |refetch.value.read| <= n)
  }

  // Accepted at its moment: the version read first was still current, and nothing deleted
  // before is named.
  ghost predicate SaveOk(h: seq<Product>, n: nat, actions: seq<Action>, save: Save) {
    && LoadOk(h, save.base) && |save.base.read| == n && save.form == save.base.read
    && save.moment < |h| && save.base.version == h[save.moment].version
    && (forall k :: 0 <= k < n ==> save.base.readAt[k] <= save.moment)
    && (forall t: nat :: t < save.moment && DeletedAt(actions, t) ==> !SomeNames(save.saved, actions[t].id))
  }

  predicate DeletedAt(actions: seq<Action>, t: nat) {
    t < |actions| && actions[t].ReferenceDeleted?
  }

  ghost predicate SameVersionStep(h: seq<Product>, actions: seq<Action>, t: nat)
    requires t < |actions| < |h|
  {
    h[t].version == h[t + 1].version ==>
      h[t + 1].parts == if DeletedAt(actions, t) then AllCleared(h[t].parts, actions[t].id) else h[t].parts
  }

  ghost predicate OneStretch(h: seq<Product>, t: nat, u: nat, v: nat)
    requires t <= u <= v < |h|
  {
    h[t].version == h[v].version ==> h[u].version == h[t].version
  }

  // A version is current for one stretch of time, and while it is, nothing happens to the
  // product but that deleted brands and suppliers are cleared from it.
  ghost predicate VersionsOk(h: seq<Product>, actions: seq<Action>) {
    && |h| == |actions| + 1
    && (forall t :: 0 <= t < |h| ==> |h[t].parts| == |h[0].parts|)
    && (forall t: nat, u: nat, v: nat :: t <= u <= v < |h| ==> OneStretch(h, t, u, v))
    && (forall t: nat :: t < |actions| ==> SameVersionStep(h, actions, t))
  }

  // What was deleted does not come back, and no product row refers to it.
  ghost predicate ReferencesOk(w: World, actions: seq<Action>) {
    && w.known <= w.used && NamesOnly(w.product.parts, w.known)
    && forall t: nat :: DeletedAt(actions, t) ==> actions[t].id in w.used && actions[t].id !in w.known
  }

  ghost predicate Inv(w: World, actions: seq<Action>) {
    var h, n := History(w), |w.product.parts|;
    && n > 0
    && VersionsOk(h, actions)
    && ReferencesOk(w, actions)
    && (forall s :: s in w.sessions ==> SessionOk(h, n, w.sessions[s]))
    && (forall i :: 0 <= i < |w.saves| ==> SaveOk(h, n, actions, w.saves[i]))
  }

  lemma TagPassesItsVersion(etag: int, version: int)
    ensures Accepts(ETag(etag), version) <==> etag == version
  {
    HeaderPassesItsVersions([Tag(etag, false)], version);
    assert Header([Tag(etag, false)]) == ETag(etag);
    assert [Tag(etag, false)][0].version == etag;
  }

  // ---- knowledge is about the past ----------------------------------------------------------

  lemma LoadStays(h: seq<Product>, p: Product, l: Load)
    requires LoadOk(h, l)
    ensures LoadOk(h + [p], l)
  {
  }

  lemma SessionStays(h: seq<Product>, n: nat, p: Product, s: Session)
    requires SessionOk(h, n, s)
    ensures SessionOk(h + [p], n, s)
  {
  }

  lemma ReadsOk(h: seq<Product>, p: Product, l: Load)
    requires h != [] && h[|h| - 1] == p && p.parts != []
    ensures LoadOk(h, FirstRead(p, |h| - 1))
    ensures LoadOk(h, l) ==> LoadOk(h, NextRead(p, l, |h| - 1))
  {
  }

  lemma LoadsTaken(h: seq<Product>, p: Product, known: set<RefId>, s: Session, a: Action)
    requires h != [] && h[|h| - 1] == p && p.parts != [] && SessionOk(h, |p.parts|, s)
    requires a.StartLoad? || a.ReadPart? || a.StartRefetch? || a.ReadRefetchPart?
    ensures SessionOk(h, |p.parts|, Taken(p, known, |h| - 1, s, a))
  {
    match a
    case StartLoad(_) => ReadsOk(h, p, FirstRead(p, |h| - 1));
    case StartRefetch(_) => ReadsOk(h, p, FirstRead(p, |h| - 1));
    case ReadPart(_) =>
      if s.Loading? {
        ReadsOk(h, p, s.load);
      }
    case ReadRefetchPart(_) =>
      if s.Editing? && s.refetch.Some? {
        ReadsOk(h, p, s.refetch.value);
      }
  }

  // Only opening the page and the session's own saves change what its form started from.
  lemma FormStays(p: Product, known: set<RefId>, moment: nat, s: Session, a: Action)
    requires s.Editing? && Taken(p, known, moment, s, a).Editing? && !a.StartLoad?
    ensures Taken(p, known, moment, s, a).form ==
      if a.SaveIfMatch? && Saves(p, known, s, a.parts) then a.parts else s.form
  {
  }

  // When a refetch is complete its version is taken over exactly if its fields are those the
  // form started from; otherwise the old version is kept, and the next save is refused if
  // the product has a new one.
  lemma RefetchDecides(p: Product, known: set<RefId>, moment: nat, s: Session, a: Action)
    requires s.Editing? && s.refetch.Some? && a.ReadRefetchPart?
    requires |NextRead(p, s.refetch.value, moment).read| >= |p.parts|
    ensures var after, fetched := Taken(p, known, moment, s, a), NextRead(p, s.refetch.value, moment);
      && after.Editing? && after.refetch.None?
      && after.base.version == (if fetched.read == s.form then s.refetch.value.version else s.base.version)
      && forall parts :: Saves(p, known, after, parts) <==> after.base.version == p.version && NamesOnly(parts, known)
  {
    var after := Taken(p, known, moment, s, a);
    TagPassesItsVersion(after.base.version, p.version);
  }

  // The session after n more such steps on a product that does not change meanwhile.
  ghost function Repeated(p: Product, known: set<RefId>, moment: nat, s: Session, a: Action, n: nat): Session {
    if n == 0 then s else Taken(p, known, moment + n - 1, Repeated(p, known, moment, s, a, n - 1), a)
  }

  // Undisturbed, a page load shows the product as it is, under its version.
  lemma {:induction false} QuietLoad(p: Product, known: set<RefId>, moment: nat, s: Session, id: nat, n: nat)
    requires 1 <= n <= |p.parts|
    ensures var first := Taken(p, known, moment, s, StartLoad(id));
      var after := Repeated(p, known, moment + 1, first, ReadPart(id), n - 1);
      && (n < |p.parts| ==> after.Loading? && after.load.version == p.version && after.load.read == p.parts[..n])
      && (n == |p.parts| ==> after.Editing? && after.form == after.base.read == p.parts &&
                             after.base.version == p.version && after.refetch.None?)
  {
    if n > 1 {
      QuietLoad(p, known, moment, s, id, n - 1);
    }
  }

  // Undisturbed, a refetch reads the product as it is.
  lemma {:induction false} QuietRefetch(p: Product, known: set<RefId>, moment: nat, s: Session, id: nat, n: nat)
    requires s.Editing? && 1 <= n < |p.parts|
    ensures var first := Taken(p, known, moment, s, StartRefetch(id));
      var after := Repeated(p, known, moment + 1, first, ReadRefetchPart(id), n - 1);
      && after.Editing? && after.form == s.form && after.base == s.base && after.refetch.Some?
      && after.refetch.value.version == p.version && after.refetch.value.read == p.parts[..n]
  {
    if n > 1 {
      QuietRefetch(p, known, moment, s, id, n - 1);
    }
  }

  lemma SavedTaken(h: seq<Product>, p: Product, known: set<RefId>, s: Session, a: Action)
    requires h != [] && h[|h| - 1] == p && p.parts != [] && SessionOk(h, |p.parts|, s)
    requires a.SaveIfMatch? && |a.parts| == |p.parts|
    ensures var q := if Saves(p, known, s, a.parts) then Product(a.now, a.parts) else p;
      SessionOk(h + [q], |p.parts|, Taken(p, known, |h| - 1, s, a))
  {
    var q := if Saves(p, known, s, a.parts) then Product(a.now, a.parts) else p;
    SessionStays(h, |p.parts|, q, s);
    assert (h + [q])[|h|] == q;
  }

  // One step of any kind keeps every session's knowledge.
  lemma SessionsStep(w: World, actions: seq<Action>, a: Action, s: nat)
    requires Inv(w, actions) && Enabled(w, a) && s in Step(w, a).sessions
    ensures SessionOk(History(Step(w, a)), |w.product.parts|, Step(w, a).sessions[s])
  {
    var h, q, n := History(w), Changed(w, a), |w.product.parts|;
    assert History(Step(w, a)) == h + [q];
    var before := SessionOf(w, s);
    assert SessionOk(h, n, before);
    if BySession(a) && s == a.s {
      if a.SaveIfMatch? {
        SavedTaken(h, w.product, w.known, before, a);
      } else {
        LoadsTaken(h, w.product, w.known, before, a);
        SessionStays(h, n, q, Taken(w.product, w.known, |w.past|, before, a));
      }
    } else {
      SessionStays(h, n, q, before);
    }
  }

  lemma VersionsStep(w: World, actions: seq<Action>, a: Action)
    requires Inv(w, actions) && Enabled(w, a)
    ensures VersionsOk(History(Step(w, a)), actions + [a])
  {
    var h, q := History(w), Changed(w, a);
    var after := History(Step(w, a));
    assert after == h + [q];
    assert q.version != w.product.version ==> forall t :: 0 <= t < |h| ==> h[t].version != q.version;
    assert (actions + [a])[|actions|] == a;
    forall t: nat, u: nat, v: nat | t <= u <= v < |after|
      ensures OneStretch(after, t, u, v)
    {
      if v < |h| {
        assert OneStretch(h, t, u, v);
      } else if u < v {
        assert OneStretch(h, t, u, |h| - 1);
      }
    }
    forall t: nat | t < |actions + [a]|
      ensures SameVersionStep(after, actions + [a], t)
    {
      if t < |actions| {
        assert SameVersionStep(h, actions, t);
      }
    }
  }

  lemma ReferencesStep(w: World, actions: seq<Action>, a: Action)
    requires ReferencesOk(w, actions) && Enabled(w, a)
    ensures ReferencesOk(Step(w, a), actions + [a])
  {
    var w' := Step(w, a);
    assert forall t: nat :: DeletedAt(actions + [a], t) ==>
      (DeletedAt(actions, t) && (actions + [a])[t] == actions[t]) || (t == |actions| && (actions + [a])[t] == a);
    if a.ReferenceDeleted? {
      ClearedNamesOnly(w.product.parts, w.known, a.id);
    }
  }

  lemma ClearedNamesOnly(parts: Parts, known: set<RefId>, id: RefId)
    requires NamesOnly(parts, known)
    ensures NamesOnly(AllCleared(parts, id), known - {id})
  {
    forall k, r | 0 <= k < |parts| && r in AllCleared(parts, id)[k].refs && r.Some?
      ensures r.value in known - {id}
    {
      assert Names(Cleared(parts[k], id), r.value);
    }
  }

  lemma SaveMade(w: World, actions: seq<Action>, a: Action)
    requires Inv(w, actions) && Enabled(w, a)
    requires a.SaveIfMatch? && Saves(w.product, w.known, SessionOf(w, a.s), a.parts)
    ensures SaveOk(History(w), |w.product.parts|, actions,
      Save(SessionOf(w, a.s).form, SessionOf(w, a.s).base, |w.past|, a.parts))
  {
    assert SessionOk(History(w), |w.product.parts|, w.sessions[a.s]);
    TagPassesItsVersion(SessionOf(w, a.s).base.version, w.product.version);
    forall t: nat | DeletedAt(actions, t)
      ensures !SomeNames(a.parts, actions[t].id)
    {
      assert actions[t].id !in w.known;
    }
  }

  lemma SaveStays(h: seq<Product>, n: nat, actions: seq<Action>, save: Save, q: Product, a: Action)
    requires SaveOk(h, n, actions, save) && |h| == |actions| + 1
    ensures SaveOk(h + [q], n, actions + [a], save)
  {
    LoadStays(h, q, save.base);
    forall t: nat | t < save.moment && DeletedAt(actions + [a], t)
      ensures !SomeNames(save.saved, (actions + [a])[t].id)
    {
      assert DeletedAt(actions, t) && (actions + [a])[t] == actions[t];
    }
  }

  lemma SavesStep(w: World, actions: seq<Action>, a: Action, i: nat)
    requires Inv(w, actions) && Enabled(w, a) && i < |Step(w, a).saves|
    ensures SaveOk(History(Step(w, a)), |w.product.parts|, actions + [a], Step(w, a).saves[i])
  {
    var h, save := History(w), Step(w, a).saves[i];
    assert History(Step(w, a)) == h + [Changed(w, a)];
    if i < |w.saves| {
      assert SaveOk(h, |w.product.parts|, actions, save);
    } else {
      SaveMade(w, actions, a);
    }
    SaveStays(h, |w.product.parts|, actions, save, Changed(w, a), a);
  }

  lemma InvStep(w: World, actions: seq<Action>, a: Action)
    requires Inv(w, actions) && Enabled(w, a)
    ensures Inv(Step(w, a), actions + [a])
  {
    VersionsStep(w, actions, a);
    ReferencesStep(w, actions, a);
    forall s | s in Step(w, a).sessions
      ensures SessionOk(History(Step(w, a)), |w.product.parts|, Step(w, a).sessions[s])
    {
      SessionsStep(w, actions, a, s);
    }
    forall i | 0 <= i < |Step(w, a).saves|
      ensures SaveOk(History(Step(w, a)), |w.product.parts|, actions + [a], Step(w, a).saves[i])
    {
      SavesStep(w, actions, a, i);
    }
  }

  // In every run, whatever happens, each session knows what it read, when, and under which
  // version; adopting a new tag after a photo change keeps this.
  lemma {:induction false} InvAlways(w: World, actions: seq<Action>)
    requires Fresh(w) && Possible(w, actions)
    ensures Inv(Run(w, actions), actions)
  {
    if actions == [] {
      InvFresh(w);
    } else {
      var before, a := actions[..|actions| - 1], actions[|actions| - 1];
      InvAlways(w, before);
      InvNext(Run(w, before), before, a, Run(w, actions), actions);
    }
  }

  lemma InvFresh(w: World)
    requires Fresh(w)
    ensures Inv(w, [])
  {
  }

  lemma InvNext(w: World, before: seq<Action>, a: Action, after: World, actions: seq<Action>)
    requires Inv(w, before) && Enabled(w, a) && after == Step(w, a) && actions == before + [a]
    ensures Inv(after, actions)
  {
    InvStep(w, before, a);
  }

  // A brand or supplier is there when it was from the start or was created, and was not
  // deleted: a deleted one never returns.
  lemma {:induction false} KnownMeans(w: World, actions: seq<Action>, id: RefId)
    requires Fresh(w) && Possible(w, actions)
    ensures id in Run(w, actions).known <==>
      (id in w.known || ReferenceCreated(id) in actions) && ReferenceDeleted(id) !in actions
    ensures (id in w.used || ReferenceCreated(id) in actions) <==> id in Run(w, actions).used
    ensures ReferenceDeleted(id) in actions ==> id in Run(w, actions).used
  {
    if actions != [] {
      var before, a := actions[..|actions| - 1], actions[|actions| - 1];
      assert actions == before + [a];
      KnownMeans(w, before, id);
    }
  }

  // ---- no lost update -------------------------------------------------------------------------

  // Since part k was read, and before the save, a brand or supplier was deleted that the
  // part named as it was read.
  ghost predicate Missed(actions: seq<Action>, save: Save, k: nat, t: nat) {
    && k < |save.form| && k < |save.base.readAt|
    && save.base.readAt[k] <= t < save.moment && DeletedAt(actions, t)
    && Names(save.form[k], actions[t].id)
  }

  // The fields a save replaced.
  function Replaced(w: World, save: Save): Parts {
    if save.moment < |w.past| then w.past[save.moment].parts else w.product.parts
  }

  // What a part becomes while one version is current: its fields stay, what is deleted is
  // gone from it for good, and nothing else is.
  lemma {:induction false} PartInStretch(h: seq<Product>, actions: seq<Action>, from: nat, to: nat, k: nat)
    requires VersionsOk(h, actions) && from <= to < |h| && h[from].version == h[to].version && k < |h[0].parts|
    ensures h[to].parts[k].fields == h[from].parts[k].fields
    ensures forall id :: Names(h[to].parts[k], id) ==> Names(h[from].parts[k], id)
    ensures forall t: nat :: from <= t < to && DeletedAt(actions, t) ==> !Names(h[to].parts[k], actions[t].id)
    ensures (forall t: nat :: from <= t < to && DeletedAt(actions, t) ==> !Names(h[from].parts[k], actions[t].id)) ==>
      h[to].parts[k] == h[from].parts[k]
  {
    if from < to {
      var t := to - 1;
      assert OneStretch(h, from, t, to);
      PartInStretch(h, actions, from, t, k);
      assert SameVersionStep(h, actions, t);
    }
  }

  // The part was replaced as it was read exactly when nothing it named was deleted since.
  lemma {:induction false} PartReplaced(h: seq<Product>, actions: seq<Action>, save: Save, k: nat)
    requires VersionsOk(h, actions) && SaveOk(h, |h[0].parts|, actions, save) && k < |h[0].parts|
    ensures save.form[k].fields == h[save.moment].parts[k].fields
    ensures save.form[k] == h[save.moment].parts[k] <==> forall t: nat :: !Missed(actions, save, k, t)
  {
    var first, from := save.base.readAt[0], save.base.readAt[k];
    assert OneStretch(h, first, from, save.moment);
    assert h[from].parts[k] == save.form[k];
    PartInStretch(h, actions, from, save.moment, k);
    if t: nat :| Missed(actions, save, k, t) {
      assert !Names(h[save.moment].parts[k], actions[t].id);
    } else {
      forall t: nat | from <= t < save.moment && DeletedAt(actions, t)
        ensures !Names(h[from].parts[k], actions[t].id)
      {
        assert !Missed(actions, save, k, t);
      }
    }
  }

  lemma {:induction false} AllReplaced(h: seq<Product>, actions: seq<Action>, save: Save)
    requires VersionsOk(h, actions) && SaveOk(h, |h[0].parts|, actions, save)
    ensures SameFields(save.form, h[save.moment].parts)
    ensures save.form == h[save.moment].parts <==> forall k: nat, t: nat :: !Missed(actions, save, k, t)
  {
    forall k: nat | k < |h[0].parts|
      ensures save.form[k].fields == h[save.moment].parts[k].fields
      ensures save.form[k] == h[save.moment].parts[k] <==> forall t: nat :: !Missed(actions, save, k, t)
    {
      PartReplaced(h, actions, save, k);
    }
    if save.form != h[save.moment].parts {
      var k :| 0 <= k < |save.form| && save.form[k] != h[save.moment].parts[k];
    }
  }

  // A successful conditional save, in every interleaving and with torn loads, replaces the
  // very fields its editor started from, and exactly its whole baseline if and only if no
  // brand or supplier the editor had read was deleted between the reading and the save.
  lemma {:induction false} NoLostUpdate(w: World, actions: seq<Action>, i: nat)
    requires Fresh(w) && Possible(w, actions) && i < |Run(w, actions).saves|
    ensures var save := Run(w, actions).saves[i];
      && SameFields(save.form, Replaced(Run(w, actions), save))
      && (save.form == Replaced(Run(w, actions), save) <==> forall k: nat, t: nat :: !Missed(actions, save, k, t))
  {
    InvAlways(w, actions);
    AllReplaced(History(Run(w, actions)), actions, Run(w, actions).saves[i]);
  }

  function FirstReadAt(l: Load): nat {
    if l.readAt == [] then 0 else l.readAt[0]
  }

  // With no such deletion while the editor works, a save replaces exactly its baseline.
  lemma {:induction false} NothingLostWithoutDeletion(w: World, actions: seq<Action>, i: nat)
    requires Fresh(w) && Possible(w, actions) && i < |Run(w, actions).saves|
    requires var save := Run(w, actions).saves[i];
      forall t: nat :: FirstReadAt(save.base) <= t < save.moment && DeletedAt(actions, t) ==>
        !SomeNames(save.form, actions[t].id)
    ensures Run(w, actions).saves[i].form == Replaced(Run(w, actions), Run(w, actions).saves[i])
  {
    NoLostUpdate(w, actions, i);
    InvAlways(w, actions);
    var h, save := History(Run(w, actions)), Run(w, actions).saves[i];
    assert SaveOk(h, |Run(w, actions).product.parts|, actions, save);
  }

  // A save that still names every brand and supplier its editor had read loses nothing: had
  // one been deleted since, the save would have been refused.
  lemma {:induction false} KeepingReferencesLosesNothing(w: World, actions: seq<Action>, i: nat)
    requires Fresh(w) && Possible(w, actions) && i < |Run(w, actions).saves|
    requires var save := Run(w, actions).saves[i];
      forall id :: SomeNames(save.form, id) ==> SomeNames(save.saved, id)
    ensures Run(w, actions).saves[i].form == Replaced(Run(w, actions), Run(w, actions).saves[i])
  {
    NoLostUpdate(w, actions, i);
    InvAlways(w, actions);
    var h, save := History(Run(w, actions)), Run(w, actions).saves[i];
    assert SaveOk(h, |Run(w, actions).product.parts|, actions, save);
  }

  lemma {:induction false} OneMore(w: World, actions: seq<Action>, a: Action)
    requires Possible(w, actions) && Enabled(Run(w, actions), a)
    ensures Possible(w, actions + [a]) && Run(w, actions + [a]) == Step(Run(w, actions), a)
  {
  }

  // A deleted brand or supplier does go unnoticed: an editor that read it, and saves without
  // naming it, replaces a product from which it had been cleared.
  lemma ReferenceDeletionIsMissed(w: World, id: RefId, saved: Parts, now: int) returns (actions: seq<Action>)
    requires Fresh(w) && |w.product.parts| == |saved| == 1 && now != w.product.version
    requires Names(w.product.parts[0], id) && id in w.known && NamesOnly(saved, w.known - {id})
    ensures Possible(w, actions) && |Run(w, actions).saves| == 1
    ensures var save := Run(w, actions).saves[0];
      && save.form == w.product.parts && save.saved == saved
      && Replaced(Run(w, actions), save) == AllCleared(w.product.parts, id) != save.form
  {
    var base := Load(w.product.version, w.product.parts, [0]);
    var editing := w.(past := [w.product], sessions := map[0 := Editing(w.product.parts, base, None)]);
    var deleted := editing.(product := Product(w.product.version, AllCleared(w.product.parts, id)),
      past := [w.product, w.product], known := w.known - {id});
    assert Possible(w, []) && Run(w, []) == w;
    EditorOpens(w, editing);
    OneMore(w, [], StartLoad(0));
    ReferenceGoes(editing, deleted, id);
    OneMore(w, [] + [StartLoad(0)], ReferenceDeleted(id));
    actions := [] + [StartLoad(0)] + [ReferenceDeleted(id)];
    SaveMisses(deleted, base, saved, now);
    OneMore(w, actions, SaveIfMatch(0, saved, now));
    actions := actions + [SaveIfMatch(0, saved, now)];
    assert AllCleared(w.product.parts, id)[0] != w.product.parts[0];
  }

  lemma EditorOpens(w: World, editing: World)
    requires Fresh(w) && |w.product.parts| == 1
    requires editing ==
      w.(past := [w.product], sessions :=
        map[0 := Editing(w.product.parts, Load(w.product.version, w.product.parts, [0]), None)])
    ensures Enabled(w, StartLoad(0)) && Step(w, StartLoad(0)) == editing
  {
    assert [w.product.parts[0]] == w.product.parts;
  }

  lemma ReferenceGoes(editing: World, deleted: World, id: RefId)
    requires |editing.past| == 1 && editing.past[0] == editing.product && id in editing.known
    requires deleted == editing.(
      product := Product(editing.product.version, AllCleared(editing.product.parts, id)),
      past := [editing.product, editing.product], known := editing.known - {id})
    ensures Enabled(editing, ReferenceDeleted(id)) && Step(editing, ReferenceDeleted(id)) == deleted
  {
    assert editing.past + [editing.product] == [editing.product, editing.product];
  }

  lemma SaveMisses(deleted: World, base: Load, saved: Parts, now: int)
    requires SessionOf(deleted, 0) == Editing(base.read, base, None) && base.version == deleted.product.version &&
      deleted.saves == []
    requires now != base.version && |saved| == |deleted.product.parts| && NamesOnly(saved, deleted.known)
    requires forall t :: 0 <= t < |deleted.past| ==> deleted.past[t].version == base.version
    ensures Enabled(deleted, SaveIfMatch(0, saved, now))
    ensures Step(deleted, SaveIfMatch(0, saved, now)).saves == [Save(base.read, base, |deleted.past|, saved)]
    ensures Step(deleted, SaveIfMatch(0, saved, now)).past == deleted.past + [deleted.product]
  {
    TagPassesItsVersion(base.version, deleted.product.version);
  }
}
