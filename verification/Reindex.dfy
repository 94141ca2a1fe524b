// Coalesced search reindexing: edits, workers, crashes, the reaper and the
// coalescing delete interleave statement by statement. No stale search vector is
// forgotten while workers are timely; late ones can lose one.
module Reindex {
  import opened Prelude
  import opened JobQueue

  // uuid.Nil is 0; every product id is greater.
  type ProductId = nat

  const NIL: ProductId := 0
  const REINDEX := "reindex_search"
  const BATCH: nat := 200

  // How far one run of a handler has come. Only reindex handlers sweep.
  datatype Phase =
    | OtherWork
    | Starting
    | Sweeping(after: ProductId)
    | Selected(after: ProductId, batch: seq<ProductId>)
    | SweptAll

  datatype Life = Live | Crashed | Ended

  // One claim of one job. Claims are never forgotten, so they can be counted.
  datatype RunKey = RunKey(job: JobId, attempt: nat)
  datatype Run = Run(kind: string, life: Life, phase: Phase, startedAt: Time)

  datatype World = World(
    now: Time,
    jobs: Table,
    issued: map<JobId, nat>,     // every job id ever inserted, with its attempt limit
    products: set<ProductId>,
    stale: set<ProductId>,       // products whose vector predates their data
    abandoned: set<ProductId>,   // stale when some reindex job failed or died, and not refreshed since
    runs: map<RunKey, Run>)

  datatype Action =
    | Tick(to: Time)
    | Enqueue(id: JobId, kind: string, maxAttempts: nat, notBefore: Option<Time>)
    | Edit(id: JobId, touched: set<ProductId>, products: set<ProductId>)
    | TriggerRefresh(refreshed: set<ProductId>)
    | Claim(id: JobId, worker: string)
    | Discard(run: RunKey)
    | Select(run: RunKey, batch: seq<ProductId>)
    | Refresh(run: RunKey)
    | Complete(run: RunKey)
    | Fail(run: RunKey)
    | Retry(run: RunKey, runAfter: Time)
    | Crash(run: RunKey)
    | Reap
    | Retention

  const EMPTY := World(0, map[], map[], {}, {}, {}, map[])

  // ---- the batch query ---------------------------------------------------------

  ghost predicate Ascending(ids: seq<ProductId>) {
    forall i, j :: 0 <= i < j < |ids| ==> ids[i] < ids[j]
  }

  // The products after a given id, in order of their ids, as many as the limit allows.
  ghost predicate IsBatch(products: set<ProductId>, after: ProductId, limit: nat, ids: seq<ProductId>) {
    && Ascending(ids)
    && |ids| <= limit
    && (forall i :: 0 <= i < |ids| ==> ids[i] in products && ids[i] > after)
    && (forall p :: p in products && p > after && p !in ids ==> |ids| == limit && |ids| > 0 && p > ids[|ids| - 1])
  }

  // ---- transitions ---------------------------------------------------------------

  predicate LiveRun(w: World, k: RunKey) {
    k in w.runs && w.runs[k].life == Live
  }

  ghost predicate Enabled(w: World, a: Action) {
    match a
    case Tick(to) => to >= w.now
    case Enqueue(id, _, maxAttempts, _) => id !in w.issued && maxAttempts >= 1
    case Edit(id, touched, products) =>
      id !in w.issued && touched <= products && NIL !in products && products - w.products <= touched
    case TriggerRefresh(_) => true
    case Claim(id, _) => id in w.jobs && Runnable(w.jobs[id], w.now)
    case Discard(k) => LiveRun(w, k) && w.runs[k].phase == Starting
    case Select(k, batch) =>
      LiveRun(w, k) && w.runs[k].phase.Sweeping? && IsBatch(w.products, w.runs[k].phase.after, BATCH, batch)
    case Refresh(k) => LiveRun(w, k) && w.runs[k].phase.Selected?
    case Complete(k) => LiveRun(w, k) && w.runs[k].phase in {SweptAll, OtherWork}
    case Fail(k) => LiveRun(w, k)
    case Retry(k, _) => LiveRun(w, k)
    case Crash(k) => LiveRun(w, k)
    case Reap => true
    case Retention => true
  }

  // Some reindex job ends failed or dead between two tables.
  ghost predicate SomeReindexLost(before: Table, after: Table) {
    exists id :: id in before && id in after && before[id].kind == REINDEX
      && before[id].state !in {Failed, Dead} && after[id].state in {Failed, Dead}
  }

  ghost function WithJobs(w: World, jobs: Table): World {
    w.(jobs := jobs, abandoned := w.abandoned + if SomeReindexLost(w.jobs, jobs) then w.stale else {})
  }

  function SetRun(w: World, k: RunKey, r: Run): World {
    w.(runs := w.runs[k := r])
  }

  function SelectedPhase(after: ProductId, batch: seq<ProductId>): Phase {
    if batch == [] then SweptAll else Selected(after, batch)
  }

  // The table once a run has recorded how it ended.
  function Reported(w: World, a: Action): Table
    requires a.Complete? || a.Fail? || a.Retry?
  {
    match a
    case Complete(k) => Completed(w.jobs, k.job, w.now)
    case Fail(k) => FailedRow(w.jobs, k.job, w.now)
    case Retry(k, runAfter) => Retried(w.jobs, k.job, runAfter, w.now)
  }

  ghost function After(w: World, a: Action): World
    requires Enabled(w, a)
  {
    match a
    case Tick(to) => w.(now := to)
    case Enqueue(id, kind, maxAttempts, runAfter) =>
      w.(jobs := w.jobs[id := NewJob(kind, maxAttempts, runAfter, w.now)], issued := w.issued[id := maxAttempts])
    case Edit(id, touched, products) =>
      w.(jobs := w.jobs[id := NewJob(REINDEX, 5, None, w.now)], issued := w.issued[id := 5],
         products := products, stale := (w.stale + touched) * products, abandoned := w.abandoned * products)
    case TriggerRefresh(refreshed) =>
      w.(stale := w.stale - refreshed, abandoned := w.abandoned - refreshed)
    case Claim(id, worker) =>
      var j := ClaimedRow(w.jobs[id], worker, w.now);
      w.(jobs := w.jobs[id := j],
         runs := w.runs[RunKey(id, j.attempts) :=
           Run(j.kind, Live, if j.kind == REINDEX then Starting else OtherWork, w.now)])
    case Discard(k) =>
      SetRun(w.(jobs := Discarded(w.jobs, REINDEX)), k, w.runs[k].(phase := Sweeping(NIL)))
    case Select(k, batch) =>
      SetRun(w, k, w.runs[k].(phase := SelectedPhase(w.runs[k].phase.after, batch)))
    case Refresh(k) =>
      var batch := w.runs[k].phase.batch;
      var next := if batch == [] then SweptAll else Sweeping(Last(batch));
      SetRun(w.(stale := w.stale - SetOf(batch), abandoned := w.abandoned - SetOf(batch)), k, w.runs[k].(phase := next))
    case Complete(k) => SetRun(WithJobs(w, Reported(w, a)), k, w.runs[k].(life := Ended))
    case Fail(k) => SetRun(WithJobs(w, Reported(w, a)), k, w.runs[k].(life := Ended))
    case Retry(k, _) => SetRun(WithJobs(w, Reported(w, a)), k, w.runs[k].(life := Ended))
    case Crash(k) => SetRun(w, k, w.runs[k].(life := Crashed))
    case Reap => WithJobs(w, Reaped(w.jobs, w.now))
    case Retention => w.(jobs := Swept(w.jobs, w.now))
  }

  // ws is what the world goes through while acts happen, starting from nothing.
  ghost predicate Behaviour(ws: seq<World>, acts: seq<Action>) {
    && |ws| == |acts| + 1
    && ws[0] == EMPTY
    && forall i :: 0 <= i < |acts| ==> Enabled(ws[i], acts[i]) && ws[i + 1] == After(ws[i], acts[i])
  }

  // ---- what holds in every behaviour, late writes included -------------------------

  ghost predicate RunSound(w: World, k: RunKey)
    requires k in w.runs
  {
    && k.job in w.issued
    && 1 <= k.attempt <= w.issued[k.job]
    && (k.job in w.jobs ==> k.attempt <= w.jobs[k.job].attempts && w.runs[k].kind == w.jobs[k.job].kind)
    && (w.runs[k].kind == REINDEX <==> w.runs[k].phase != OtherWork)
    && (w.runs[k].phase.Selected? ==> w.runs[k].phase.batch != [])
  }

  ghost predicate Inv(w: World) {
    && Sound(w.jobs)
    && (forall id :: id in w.jobs ==> id in w.issued && w.jobs[id].maxAttempts == w.issued[id])
    && (forall k :: k in w.runs ==> RunSound(w, k))
    && (forall id :: id in w.jobs && w.jobs[id].state == Running ==> RunKey(id, w.jobs[id].attempts) in w.runs)
    && NIL !in w.products
    && w.stale <= w.products
  }

  // Rows may disappear, or change anything but kind, attempts and limit, as long as none starts running.
  ghost predicate MildChange(before: Table, after: Table) {
    forall id :: id in after ==>
      && id in before && RowSound(after[id])
      && after[id].kind == before[id].kind
      && after[id].attempts == before[id].attempts
      && after[id].maxAttempts == before[id].maxAttempts
      && (after[id].state == Running ==> before[id].state == Running)
  }

  lemma MildChangeKeepsInv(w: World, w': World)
    requires Inv(w) && MildChange(w.jobs, w'.jobs)
    requires w'.issued == w.issued && w'.products == w.products && w'.runs == w.runs && w'.stale <= w.stale
    ensures Inv(w')
  {
  }

  lemma SetRunKeepsInv(w: World, k: RunKey, r: Run)
    requires Inv(w) && k in w.runs && r.kind == w.runs[k].kind
    requires r.phase == w.runs[k].phase ||
      (w.runs[k].phase != OtherWork && r.phase != OtherWork && (r.phase.Selected? ==> r.phase.batch != []))
    ensures Inv(SetRun(w, k, r))
  {
  }

  lemma NewRowKeepsInv(w: World, w': World, id: JobId, kind: string, maxAttempts: nat, runAfter: Option<Time>)
    requires Inv(w) && id !in w.issued && maxAttempts >= 1
    requires w'.jobs == w.jobs[id := NewJob(kind, maxAttempts, runAfter, w.now)] &&
      w'.issued == w.issued[id := maxAttempts]
    requires w'.runs == w.runs && NIL !in w'.products && w'.stale <= w'.products
    ensures Inv(w')
  {
    forall k | k in w'.runs
      ensures RunSound(w', k)
    {
      assert RunSound(w, k);
    }
  }

  lemma ClaimKeepsInv(w: World, a: Action)
    requires Inv(w) && Enabled(w, a) && a.Claim?
    ensures Inv(After(w, a))
    ensures RunKey(a.id, w.jobs[a.id].attempts + 1) !in w.runs
  {
    var key := RunKey(a.id, w.jobs[a.id].attempts + 1);
    assert key in w.runs ==> RunSound(w, key);
    var w' := After(w, a);
    forall k | k in w'.runs
      ensures RunSound(w', k)
    {
      if k != key {
        assert RunSound(w, k);
      }
    }
  }

  lemma EndingKeepsInv(w: World, k: RunKey, jobs: Table, life: Life)
    requires Inv(w) && k in w.runs && MildChange(w.jobs, jobs)
    ensures Inv(SetRun(WithJobs(w, jobs), k, w.runs[k].(life := life)))
  {
    MildChangeKeepsInv(w, WithJobs(w, jobs));
    SetRunKeepsInv(WithJobs(w, jobs), k, w.runs[k].(life := life));
  }

  lemma SweepKeepsInv(w: World, a: Action)
    requires Inv(w) && Enabled(w, a) && (a.Discard? || a.Select? || a.Refresh?)
    ensures Inv(After(w, a))
  {
    assert RunSound(w, a.run);
    var w' := After(w, a);
    var mid := w'.(runs := w.runs);
    MildChangeKeepsInv(w, mid);
    SetRunKeepsInv(mid, a.run, w'.runs[a.run]);
  }

  lemma RestKeepsInv(w: World, a: Action)
    requires Inv(w) && Enabled(w, a) && (a.Tick? || a.TriggerRefresh?)
    ensures Inv(After(w, a))
  {
    MildChangeKeepsInv(w, After(w, a));
  }

  lemma NewJobKeepsInv(w: World, a: Action)
    requires Inv(w) && Enabled(w, a) && (a.Enqueue? || a.Edit?)
    ensures Inv(After(w, a))
  {
    if a.Enqueue? {
      NewRowKeepsInv(w, After(w, a), a.id, a.kind, a.maxAttempts, a.notBefore);
    } else {
      NewRowKeepsInv(w, After(w, a), a.id, REINDEX, 5, None);
    }
  }

  lemma ReportIsMild(w: World, a: Action)
    requires Sound(w.jobs) && (a.Complete? || a.Fail? || a.Retry?)
    ensures MildChange(w.jobs, Reported(w, a))
  {
  }

  lemma ReportKeepsInv(w: World, a: Action)
    requires Inv(w) && Enabled(w, a) && (a.Complete? || a.Fail? || a.Retry?)
    ensures Inv(After(w, a))
  {
    ReportIsMild(w, a);
    EndingKeepsInv(w, a.run, Reported(w, a), Ended);
  }

  lemma MaintenanceKeepsInv(w: World, a: Action)
    requires Inv(w) && Enabled(w, a) && (a.Reap? || a.Retention?)
    ensures Inv(After(w, a))
  {
    MildChangeKeepsInv(w, After(w, a));
  }

  lemma InvStep(w: World, a: Action)
    requires Inv(w) && Enabled(w, a)
    ensures Inv(After(w, a))
  {
    match a
    case Tick(_) => RestKeepsInv(w, a);
    case Enqueue(_, _, _, _) => NewJobKeepsInv(w, a);
    case Edit(_, _, _) => NewJobKeepsInv(w, a);
    case TriggerRefresh(_) => RestKeepsInv(w, a);
    case Claim(_, _) => ClaimKeepsInv(w, a);
    case Discard(_) => SweepKeepsInv(w, a);
    case Select(_, _) => SweepKeepsInv(w, a);
    case Refresh(_) => SweepKeepsInv(w, a);
    case Complete(_) => ReportKeepsInv(w, a);
    case Fail(_) => ReportKeepsInv(w, a);
    case Retry(_, _) => ReportKeepsInv(w, a);
    case Crash(k) => SetRunKeepsInv(w, k, w.runs[k].(life := Crashed));
    case Reap => MaintenanceKeepsInv(w, a);
    case Retention => MaintenanceKeepsInv(w, a);
  }

  lemma {:induction false} InvAlways(ws: seq<World>, acts: seq<Action>, i: nat)
    requires Behaviour(ws, acts) && i < |ws|
    ensures Inv(ws[i])
  {
    if i > 0 {
      InvAlways(ws, acts, i - 1);
      InvStep(ws[i - 1], acts[i - 1]);
    }
  }

  // ---- what it means to be stale, and to be abandoned ---------------------------------

  // The action brings the product's vector up to date.
  ghost predicate Refreshes(w: World, a: Action, p: ProductId) {
    match a
    case TriggerRefresh(refreshed) => p in refreshed
    case Refresh(k) => k in w.runs && w.runs[k].phase.Selected? && p in w.runs[k].phase.batch
    case _ => false
  }

  lemma StaleStep(w: World, a: Action, p: ProductId)
    requires Inv(w) && Enabled(w, a)
    ensures p in After(w, a).stale <==>
      p in After(w, a).products && ((a.Edit? && p in a.touched) || (p in w.stale && !Refreshes(w, a, p)))
    ensures p in After(w, a).products && p !in w.products ==> a.Edit? && p in a.touched
  {
  }

  // The product was touched then, and not refreshed between then and moment i.
  ghost predicate TouchedSince(ws: seq<World>, acts: seq<Action>, i: nat, j: nat, p: ProductId)
    requires i <= |acts| < |ws|
  {
    j < i && acts[j].Edit? && p in acts[j].touched && forall k :: j < k < i ==> !Refreshes(ws[k], acts[k], p)
  }

  lemma TouchedSinceStep(ws: seq<World>, acts: seq<Action>, i: nat, after: nat, p: ProductId)
    requires after == i + 1 <= |acts| < |ws|
    ensures (exists j: nat :: TouchedSince(ws, acts, after, j, p)) <==>
      (acts[i].Edit? && p in acts[i].touched) ||
      (!Refreshes(ws[i], acts[i], p) && exists j: nat :: TouchedSince(ws, acts, i, j, p))
  {
    if j: nat :| TouchedSince(ws, acts, after, j, p) {
      assert j < i ==> TouchedSince(ws, acts, i, j, p);
    }
    if acts[i].Edit? && p in acts[i].touched {
      assert TouchedSince(ws, acts, after, i, p);
    }
    if j: nat :| TouchedSince(ws, acts, i, j, p) && !Refreshes(ws[i], acts[i], p) {
      assert TouchedSince(ws, acts, after, j, p);
    }
  }

  // A product is stale exactly when it exists and some edit touched it that no refresh of it
  // has followed.
  lemma {:induction false} StaleMeans(ws: seq<World>, acts: seq<Action>, i: nat, p: ProductId)
    requires Behaviour(ws, acts) && i < |ws|
    ensures p in ws[i].stale <==> p in ws[i].products && exists j: nat :: TouchedSince(ws, acts, i, j, p)
  {
    if i > 0 {
      StaleMeans(ws, acts, i - 1, p);
      InvAlways(ws, acts, i - 1);
      StaleStep(ws[i - 1], acts[i - 1], p);
      TouchedSinceStep(ws, acts, i - 1, i, p);
    }
  }

  // The k-th action neither refreshes nor deletes the product.
  ghost predicate Remains(ws: seq<World>, acts: seq<Action>, k: nat, p: ProductId)
    requires k < |acts| < |ws|
  {
    !Refreshes(ws[k], acts[k], p) && p in ws[k + 1].products
  }

  // A reindex job failed or died then, with the product stale, and until moment i it was
  // neither refreshed nor deleted.
  ghost predicate LostSince(ws: seq<World>, acts: seq<Action>, i: nat, j: nat, p: ProductId)
    requires i <= |acts| < |ws|
  {
    && j < i && SomeReindexLost(ws[j].jobs, ws[j + 1].jobs) && p in ws[j].stale
    && forall k :: j < k < i ==> Remains(ws, acts, k, p)
  }

  lemma LostSinceStep(ws: seq<World>, acts: seq<Action>, i: nat, after: nat, p: ProductId)
    requires after == i + 1 <= |acts| < |ws|
    ensures (exists j: nat :: LostSince(ws, acts, after, j, p)) <==>
      (SomeReindexLost(ws[i].jobs, ws[after].jobs) && p in ws[i].stale) ||
      (Remains(ws, acts, i, p) && exists j: nat :: LostSince(ws, acts, i, j, p))
  {
    if j: nat :| LostSince(ws, acts, after, j, p) {
      assert j < i ==> LostSince(ws, acts, i, j, p);
    }
    if SomeReindexLost(ws[i].jobs, ws[after].jobs) && p in ws[i].stale {
      assert LostSince(ws, acts, after, i, p);
    }
    if j: nat :| LostSince(ws, acts, i, j, p) && Remains(ws, acts, i, p) {
      assert LostSince(ws, acts, after, j, p);
    }
  }

  lemma AbandonedStep(w: World, a: Action, p: ProductId)
    requires Inv(w) && Enabled(w, a) && w.abandoned <= w.products
    ensures After(w, a).abandoned <= After(w, a).products
    ensures p in After(w, a).abandoned <==>
      (SomeReindexLost(w.jobs, After(w, a).jobs) && p in w.stale) ||
      (p in w.abandoned && !Refreshes(w, a, p) && p in After(w, a).products)
  {
  }

  // A product is abandoned exactly when a reindex job failed or died while it was stale, and
  // it has been neither refreshed nor deleted since.
  lemma {:induction false} AbandonedMeans(ws: seq<World>, acts: seq<Action>, i: nat, p: ProductId)
    requires Behaviour(ws, acts) && i < |ws|
    ensures ws[i].abandoned <= ws[i].products
    ensures p in ws[i].abandoned <==> exists j: nat :: LostSince(ws, acts, i, j, p)
  {
    if i > 0 {
      AbandonedMeans(ws, acts, i - 1, p);
      InvAlways(ws, acts, i - 1);
      AbandonedStep(ws[i - 1], acts[i - 1], p);
      LostSinceStep(ws, acts, i - 1, i, p);
    }
  }

  function StartsOf(w: World, job: JobId): set<RunKey> {
    set k | k in w.runs && k.job == job
  }

  function KeysUpTo(job: JobId, n: nat): (ks: set<RunKey>)
    ensures forall k :: k in ks <==> k.job == job && 1 <= k.attempt <= n
    ensures |ks| == n
  {
    if n == 0 then {} else KeysUpTo(job, n - 1) + {RunKey(job, n)}
  }

  lemma SubsetSize<T>(a: set<T>, b: set<T>)
    requires a <= b
    ensures |a| <= |b|
  {
    assert b == a + (b - a);
  }

  lemma StartsWithinLimit(w: World, job: JobId)
    requires Inv(w) && job in w.issued
    ensures |StartsOf(w, job)| <= w.issued[job]
  {
    forall k | k in StartsOf(w, job)
      ensures k in KeysUpTo(job, w.issued[job])
    {
      assert RunSound(w, k);
    }
    SubsetSize(StartsOf(w, job), KeysUpTo(job, w.issued[job]));
  }

  lemma ClaimIsOneStart(w: World, a: Action)
    requires Inv(w) && Enabled(w, a) && a.Claim?
    ensures |StartsOf(After(w, a), a.id)| == |StartsOf(w, a.id)| + 1
  {
    ClaimKeepsInv(w, a);
    var key := RunKey(a.id, w.jobs[a.id].attempts + 1);
    assert StartsOf(After(w, a), a.id) == StartsOf(w, a.id) + {key};
  }

  // No job is started more often than its attempt limit allows, and a queued job
  // always has an attempt left, whatever late writes happen.
  lemma StartsAreBounded(ws: seq<World>, acts: seq<Action>, i: nat, job: JobId)
    requires Behaviour(ws, acts) && i < |ws| && job in ws[i].issued
    ensures |StartsOf(ws[i], job)| <= ws[i].issued[job]
    ensures job in ws[i].jobs && ws[i].jobs[job].state == Queued ==> ws[i].jobs[job].attempts < ws[i].issued[job]
    ensures i < |acts| && acts[i].Claim? && acts[i].id == job ==>
      |StartsOf(ws[i + 1], job)| == |StartsOf(ws[i], job)| + 1
  {
    InvAlways(ws, acts, i);
    StartsWithinLimit(ws[i], job);
    if i < |acts| && acts[i].Claim? {
      ClaimIsOneStart(ws[i], acts[i]);
    }
  }

  // ---- coverage -----------------------------------------------------------------------

  // What a run still has to refresh before it may report success.
  predicate Owes(r: Run, p: ProductId) {
    match r.phase
    case OtherWork => false
    case Starting => true
    case Sweeping(after) => p > after
    case Selected(_, batch) => p in batch || (batch != [] && p > Last(batch))
    case SweptAll => false
  }

  // The run whose claim the row still records.
  predicate Holder(w: World, k: RunKey) {
    k.job in w.jobs && w.jobs[k.job].state == Running && w.jobs[k.job].attempts == k.attempt
  }

  // A live run covers what it owes; a crashed one does while its row waits for the reaper.
  predicate Covers(w: World, k: RunKey, p: ProductId) {
    && k in w.runs
    && Owes(w.runs[k], p)
    && (w.runs[k].life == Live || (w.runs[k].life == Crashed && Holder(w, k)))
  }

  ghost predicate QueuedIn(t: Table) {
    exists id :: id in t && t[id].kind == REINDEX && t[id].state == Queued
  }

  ghost predicate QueuedReindex(w: World) {
    QueuedIn(w.jobs)
  }

  ghost predicate Covered(w: World, p: ProductId) {
    p in w.abandoned || QueuedReindex(w) || exists k :: Covers(w, k, p)
  }

  ghost predicate AllCovered(w: World) {
    forall p :: p in w.stale ==> Covered(w, p)
  }

  lemma CoveredByQueue(w: World, id: JobId)
    requires id in w.jobs && w.jobs[id].kind == REINDEX && w.jobs[id].state == Queued
    ensures AllCovered(w)
  {
  }

  lemma CoveredByAbandonment(w: World)
    requires w.stale <= w.abandoned
    ensures AllCovered(w)
  {
  }

  lemma CoveredByRun(w: World, k: RunKey)
    requires forall p :: p in w.stale ==> Covers(w, k, p)
    ensures AllCovered(w)
  {
  }

  // ---- steps that end no run never uncover a product ------------------------------------

  // A run that reports, or dies.
  predicate Ending(a: Action) {
    a.Complete? || a.Fail? || a.Retry? || a.Crash?
  }

  // A reaped reindex row covers everything: it waits again, or its job is lost.
  lemma ReapedCovers(w: World, id: JobId)
    requires Inv(w) && id in w.jobs && w.jobs[id].kind == REINDEX && Stuck(w.jobs[id], w.now)
    ensures AllCovered(After(w, Reap))
  {
    var w' := After(w, Reap);
    if w'.jobs[id].state == Queued {
      CoveredByQueue(w', id);
    } else {
      assert SomeReindexLost(w.jobs, w'.jobs);
      CoveredByAbandonment(w');
    }
  }

  // A run still owes what it owed before it selects or refreshes, as far as it is stale.
  lemma SweepKeepsCover(w: World, a: Action, k: RunKey, p: ProductId)
    requires Inv(w) && Enabled(w, a) && (a.Discard? || a.Select? || a.Refresh?)
    requires Covers(w, k, p) && p in w.stale && p in After(w, a).stale
    ensures Covers(After(w, a), k, p)
  {
    if a.Select? && a.run == k && a.batch != [] {
      assert p in w.products && p > w.runs[k].phase.after;
    }
  }

  lemma RowsKeepCover(w: World, a: Action, k: RunKey, p: ProductId)
    requires Inv(w) && Enabled(w, a) && (a.Claim? || a.Reap? || a.Retention?)
    requires Covers(w, k, p)
    ensures AllCovered(After(w, a)) || Covers(After(w, a), k, p)
  {
    if a.Reap? && w.runs[k].life == Crashed && Stuck(w.jobs[k.job], w.now) {
      ReapedCovers(w, k.job);
    }
  }

  lemma CoverKept(w: World, a: Action, k: RunKey, p: ProductId)
    requires Inv(w) && Enabled(w, a) && !Ending(a)
    requires Covers(w, k, p) && p in w.stale && p in After(w, a).stale
    ensures AllCovered(After(w, a)) || Covers(After(w, a), k, p)
  {
    if a.Edit? {
      CoveredByQueue(After(w, a), a.id);
    } else if a.Claim? || a.Reap? || a.Retention? {
      RowsKeepCover(w, a, k, p);
    } else if a.Discard? || a.Select? || a.Refresh? {
      SweepKeepsCover(w, a, k, p);
    }
  }

  // A queued row is claimed, discarded by a run that then sweeps everything, or still there.
  lemma QueueKept(w: World, a: Action, id: JobId)
    requires Inv(w) && Enabled(w, a) && !Ending(a)
    requires id in w.jobs && w.jobs[id].kind == REINDEX && w.jobs[id].state == Queued
    ensures AllCovered(After(w, a))
  {
    if a.Claim? && a.id == id {
      CoveredByRun(After(w, a), RunKey(id, w.jobs[id].attempts + 1));
    } else if a.Discard? {
      CoveredByRun(After(w, a), a.run);
    } else {
      CoveredByQueue(After(w, a), id);
    }
  }

  lemma WorkKeepsCoverage(w: World, a: Action)
    requires Inv(w) && Enabled(w, a) && AllCovered(w) && !Ending(a)
    ensures AllCovered(After(w, a))
  {
    var w' := After(w, a);
    if QueuedReindex(w) {
      var id :| id in w.jobs && w.jobs[id].kind == REINDEX && w.jobs[id].state == Queued;
      QueueKept(w, a, id);
    } else if a.Edit? {
      CoveredByQueue(w', a.id);
    } else {
      forall p | p in w'.stale
        ensures AllCovered(w') || Covered(w', p)
      {
        assert Covered(w, p);
        if p !in w.abandoned {
          var k :| Covers(w, k, p);
          CoverKept(w, a, k, p);
        }
      }
    }
  }

  // ---- endings: exactly when one uncovers a product ---------------------------------------

  // The ending puts a reindex row back into the queue, or loses it now.
  predicate HandsBack(w: World, a: Action)
    requires Ending(a)
  {
    var id := a.run.job;
    && id in w.jobs && w.jobs[id].kind == REINDEX
    && match a
       case Fail(_) => w.jobs[id].state !in {Failed, Dead}
       case Retry(_, _) => w.jobs[id].attempts < w.jobs[id].maxAttempts || w.jobs[id].state !in {Failed, Dead}
       case _ => false
  }

  // A reindex row waits that the ending does not write.
  ghost predicate QueuedElsewhere(w: World, a: Action)
    requires Ending(a)
  {
    exists id :: id in w.jobs && w.jobs[id].kind == REINDEX && w.jobs[id].state == Queued &&
      (a.Crash? || id != a.run.job)
  }

  // The run is another one, or crashes while the row is still its own; and the ending does
  // not overwrite a row that still remembers a crashed run.
  predicate Outlives(w: World, a: Action, k: RunKey)
    requires Ending(a) && k in w.runs
  {
    if k == a.run then a.Crash? && Holder(w, k)
    else w.runs[k].life == Crashed && k.job == a.run.job ==> a.Crash?
  }

  // Some stale product is left to nobody, judged by the state before the ending.
  ghost predicate Orphans(w: World, a: Action) {
    && Ending(a)
    && !HandsBack(w, a)
    && !QueuedElsewhere(w, a)
    && exists p :: p in w.stale && p !in w.abandoned && forall k :: Covers(w, k, p) ==> !Outlives(w, a, k)
  }

  lemma CoversAfterCrash(w: World, a: Action, k: RunKey, p: ProductId)
    requires Inv(w) && Enabled(w, a) && a.Crash?
    ensures Covers(After(w, a), k, p) <==> Covers(w, k, p) && Outlives(w, a, k)
  {
  }

  lemma CoversAfterReport(w: World, a: Action, k: RunKey, p: ProductId)
    requires Inv(w) && Enabled(w, a) && Ending(a) && !a.Crash?
    ensures Covers(After(w, a), k, p) <==> Covers(w, k, p) && Outlives(w, a, k)
  {
    var w' := After(w, a);
    assert w'.jobs == Reported(w, a);
    assert k.job != a.run.job ==> (Holder(w', k) <==> Holder(w, k));
    assert !Holder(w', a.run) && (k.job == a.run.job ==> !Holder(w', k));
  }

  lemma CoversAfterEnding(w: World, a: Action, k: RunKey, p: ProductId)
    requires Inv(w) && Enabled(w, a) && Ending(a)
    ensures Covers(After(w, a), k, p) <==> Covers(w, k, p) && Outlives(w, a, k)
  {
    if a.Crash? {
      CoversAfterCrash(w, a, k, p);
    } else {
      CoversAfterReport(w, a, k, p);
    }
  }

  lemma HandedBackCovers(w: World, a: Action)
    requires Inv(w) && Enabled(w, a) && Ending(a) && HandsBack(w, a)
    ensures AllCovered(After(w, a))
  {
    var id, w' := a.run.job, After(w, a);
    if w'.jobs[id].state == Queued {
      CoveredByQueue(w', id);
    } else {
      assert SomeReindexLost(w.jobs, w'.jobs);
      CoveredByAbandonment(w');
    }
  }

  lemma NothingLostNow(w: World, a: Action)
    requires Ending(a) && Enabled(w, a) && !HandsBack(w, a)
    ensures After(w, a).stale == w.stale && After(w, a).abandoned == w.abandoned
  {
    if !a.Crash? {
      assert !SomeReindexLost(w.jobs, Reported(w, a));
    }
  }

  // The table once a run has ended.
  function JobsAfter(w: World, a: Action): Table
    requires Ending(a)
  {
    if a.Crash? then w.jobs else Reported(w, a)
  }

  lemma QueueAfterEnding(w: World, a: Action, id: JobId)
    requires Sound(w.jobs) && Ending(a) && !HandsBack(w, a) && id in w.jobs && w.jobs[id].kind == REINDEX
    ensures id in JobsAfter(w, a) && JobsAfter(w, a)[id].kind == REINDEX
    ensures JobsAfter(w, a)[id].state == Queued <==> w.jobs[id].state == Queued && (a.Crash? || id != a.run.job)
  {
  }

  lemma NotHandedBack(w: World, a: Action)
    requires Sound(w.jobs) && Ending(a) && !HandsBack(w, a)
    ensures QueuedIn(JobsAfter(w, a)) <==> QueuedElsewhere(w, a)
  {
    if QueuedElsewhere(w, a) {
      var id :| id in w.jobs && w.jobs[id].kind == REINDEX && w.jobs[id].state == Queued &&
        (a.Crash? || id != a.run.job);
      QueueAfterEnding(w, a, id);
    }
    if QueuedIn(JobsAfter(w, a)) {
      var id :| id in JobsAfter(w, a) && JobsAfter(w, a)[id].kind == REINDEX && JobsAfter(w, a)[id].state == Queued;
      QueueAfterEnding(w, a, id);
    }
  }

  // After an ending that hands nothing back, what is covered is what was covered by others.
  lemma CoveredByOthers(w: World, w': World, a: Action)
    requires Ending(a) && !HandsBack(w, a) && w'.stale == w.stale && w'.abandoned == w.abandoned
    requires QueuedReindex(w') <==> QueuedElsewhere(w, a)
    requires forall k, p :: Covers(w', k, p) <==> Covers(w, k, p) && Outlives(w, a, k)
    ensures AllCovered(w') <==> !Orphans(w, a)
  {
  }

  lemma EndingCoverage(w: World, a: Action)
    requires Inv(w) && Enabled(w, a) && Ending(a)
    ensures AllCovered(After(w, a)) <==> !Orphans(w, a)
  {
    if HandsBack(w, a) {
      HandedBackCovers(w, a);
    } else {
      NothingLostNow(w, a);
      NotHandedBack(w, a);
      assert After(w, a).jobs == JobsAfter(w, a);
      forall k, p
        ensures Covers(After(w, a), k, p) <==> Covers(w, k, p) && Outlives(w, a, k)
      {
        CoversAfterEnding(w, a, k, p);
      }
      CoveredByOthers(w, After(w, a), a);
    }
  }

  // One step keeps every stale product covered exactly when it does not orphan one.
  lemma CoverageStep(w: World, a: Action)
    requires Inv(w) && Enabled(w, a) && AllCovered(w)
    ensures AllCovered(After(w, a)) <==> !Orphans(w, a)
  {
    if Ending(a) {
      EndingCoverage(w, a);
    } else {
      WorkKeepsCoverage(w, a);
    }
  }

  ghost predicate AlwaysCovered(ws: seq<World>, i: nat)
    requires i < |ws|
  {
    forall j :: 0 <= j <= i ==> AllCovered(ws[j])
  }

  ghost predicate NeverOrphans(ws: seq<World>, acts: seq<Action>, i: nat)
    requires i <= |acts| <= |ws|
  {
    forall j :: 0 <= j < i ==> !Orphans(ws[j], acts[j])
  }

  // Each stale product is covered at all times exactly when no step so far orphaned one.
  lemma {:induction false} StaleIsAlwaysCovered(ws: seq<World>, acts: seq<Action>, i: nat)
    requires Behaviour(ws, acts) && i < |ws|
    ensures AlwaysCovered(ws, i) <==> NeverOrphans(ws, acts, i)
  {
    if i > 0 {
      StaleIsAlwaysCovered(ws, acts, i - 1);
      assert AlwaysCovered(ws, i) <==> AlwaysCovered(ws, i - 1) && AllCovered(ws[i]);
      assert NeverOrphans(ws, acts, i) <==> NeverOrphans(ws, acts, i - 1) && !Orphans(ws[i - 1], acts[i - 1]);
      if AllCovered(ws[i - 1]) {
        InvAlways(ws, acts, i - 1);
        CoverageStep(ws[i - 1], acts[i - 1]);
      }
    }
  }

  predicate CrashedHolder(w: World, id: JobId)
    requires id in w.jobs
  {
    var k := RunKey(id, w.jobs[id].attempts);
    w.jobs[id].state == Running && k in w.runs && w.runs[k].life == Crashed
  }

  // Only a reindex run whose row was taken away can orphan a product: by completing a row
  // that waits again or remembers a crashed run, by failing on one that is lost or gone
  // already, or by dying while it owes a stale product.
  lemma OrphansAreLate(w: World, a: Action)
    requires Inv(w) && Enabled(w, a) && AllCovered(w) && Orphans(w, a)
    ensures w.runs[a.run].kind == REINDEX && !Holder(w, a.run)
    ensures a.Complete? ==> a.run.job in w.jobs && (w.jobs[a.run.job].state == Queued || CrashedHolder(w, a.run.job))
    ensures a.Fail? || a.Retry? ==> a.run.job in w.jobs ==> w.jobs[a.run.job].state in {Failed, Dead}
    ensures a.Crash? ==> exists p :: p in w.stale && Owes(w.runs[a.run], p)
  {
  }

  // ---- timely workers ------------------------------------------------------------------

  // Every live run is still within its lease. The runner's five-minute handler
  // timeout is there to make this true.
  ghost predicate Timely(w: World) {
    forall k :: k in w.runs && w.runs[k].life == Live ==> w.now <= w.runs[k].startedAt + LEASE
  }

  // A live run is the one its row is locked by.
  ghost predicate LiveHold(w: World) {
    forall k :: LiveRun(w, k) ==> Holder(w, k) && w.jobs[k.job].lockedAt == Some(w.runs[k].startedAt)
  }

  lemma LiveHoldStep(w: World, a: Action)
    requires Inv(w) && Enabled(w, a) && LiveHold(w) && Timely(w)
    ensures LiveHold(After(w, a))
  {
    var w' := After(w, a);
    forall k | LiveRun(w', k)
      ensures Holder(w', k) && w'.jobs[k.job].lockedAt == Some(w'.runs[k].startedAt)
    {
      if k in w.runs {
        assert LiveRun(w, k);
      }
    }
  }

  lemma {:induction false} LiveHoldAlways(ws: seq<World>, acts: seq<Action>, i: nat)
    requires Behaviour(ws, acts) && i < |ws|
    requires forall j :: 0 <= j < i ==> Timely(ws[j])
    ensures LiveHold(ws[i])
  {
    if i > 0 {
      LiveHoldAlways(ws, acts, i - 1);
      InvAlways(ws, acts, i - 1);
      LiveHoldStep(ws[i - 1], acts[i - 1]);
    }
  }

  lemma {:induction false} TimelyNeverOrphans(ws: seq<World>, acts: seq<Action>, i: nat)
    requires Behaviour(ws, acts) && i < |ws|
    requires forall j :: 0 <= j < i ==> Timely(ws[j])
    ensures NeverOrphans(ws, acts, i)
  {
    if i > 0 {
      TimelyNeverOrphans(ws, acts, i - 1);
      StaleIsAlwaysCovered(ws, acts, i - 1);
      InvAlways(ws, acts, i - 1);
      LiveHoldAlways(ws, acts, i - 1);
      if Orphans(ws[i - 1], acts[i - 1]) {
        OrphansAreLate(ws[i - 1], acts[i - 1]);
      }
    }
  }

  lemma ReportsLeaveOthers(w: World, a: Action, id: JobId)
    requires (a.Complete? || a.Fail? || a.Retry?) && id in w.jobs && id != a.run.job
    ensures id in Reported(w, a) && Reported(w, a)[id] == w.jobs[id]
  {
  }

  lemma FinishedRowsStay(w: World, a: Action, id: JobId)
    requires Inv(w) && Enabled(w, a) && LiveHold(w)
    requires id in w.jobs && w.jobs[id].state in {Done, Failed, Dead} && id in After(w, a).jobs
    ensures After(w, a).jobs[id] == w.jobs[id]
  {
    if a.Complete? || a.Fail? || a.Retry? {
      assert LiveRun(w, a.run);
      ReportsLeaveOthers(w, a, id);
    }
  }

  // With timely workers: nothing stale is uncovered, no job is held by two live
  // workers, and a finished row never changes again (retention may delete it).
  lemma TimelyWorkersAreSafe(ws: seq<World>, acts: seq<Action>, i: nat)
    requires Behaviour(ws, acts) && i < |ws|
    requires forall j :: 0 <= j < i ==> Timely(ws[j])
    ensures NeverOrphans(ws, acts, i) && AllCovered(ws[i])
    ensures forall k1, k2 :: LiveRun(ws[i], k1) && LiveRun(ws[i], k2) && k1.job == k2.job ==> k1 == k2
    ensures i < |acts| ==> forall id ::
      id in ws[i].jobs && ws[i].jobs[id].state in {Done, Failed, Dead} && id in ws[i + 1].jobs ==>
        ws[i + 1].jobs[id] == ws[i].jobs[id]
  {
    TimelyNeverOrphans(ws, acts, i);
    StaleIsAlwaysCovered(ws, acts, i);
    LiveHoldAlways(ws, acts, i);
    InvAlways(ws, acts, i);
    assert forall k :: LiveRun(ws[i], k) ==> Holder(ws[i], k);
    if i < |acts| {
      forall id | id in ws[i].jobs && ws[i].jobs[id].state in {Done, Failed, Dead} && id in ws[i + 1].jobs
        ensures ws[i + 1].jobs[id] == ws[i].jobs[id]
      {
        FinishedRowsStay(ws[i], acts[i], id);
      }
    }
  }

  // No reindex job waits, none is recorded as running and no reindex handler is at work.
  ghost predicate Quiet(w: World) {
    && !QueuedReindex(w)
    && (forall id :: id in w.jobs && w.jobs[id].kind == REINDEX ==> w.jobs[id].state != Running)
    && (forall k :: LiveRun(w, k) ==> w.runs[k].kind != REINDEX)
  }

  lemma NothingLostStep(w: World, a: Action)
    requires Enabled(w, a) && !SomeReindexLost(w.jobs, After(w, a).jobs)
    ensures After(w, a).abandoned <= w.abandoned
  {
  }

  lemma {:induction false} NothingLostNothingAbandoned(ws: seq<World>, acts: seq<Action>, i: nat)
    requires Behaviour(ws, acts) && i < |ws|
    requires forall j :: 0 <= j < i ==> !SomeReindexLost(ws[j].jobs, ws[j + 1].jobs)
    ensures ws[i].abandoned == {}
  {
    if i > 0 {
      NothingLostNothingAbandoned(ws, acts, i - 1);
      assert !SomeReindexLost(ws[i - 1].jobs, ws[i - 1 + 1].jobs);
      NothingLostStep(ws[i - 1], acts[i - 1]);
    }
  }

  // When the queue has gone quiet and no ending orphaned a product (timely workers never
  // do), only abandoned products are stale, and nothing is stale unless some reindex job has failed or died.
  lemma QuietMeansFresh(ws: seq<World>, acts: seq<Action>, i: nat)
    requires Behaviour(ws, acts) && i < |ws|
    requires NeverOrphans(ws, acts, i) && Quiet(ws[i])
    ensures ws[i].stale <= ws[i].abandoned
    ensures (forall j :: 0 <= j < i ==> !SomeReindexLost(ws[j].jobs, ws[j + 1].jobs)) ==> ws[i].stale == {}
  {
    StaleIsAlwaysCovered(ws, acts, i);
    InvAlways(ws, acts, i);
    forall p | p in ws[i].stale
      ensures p in ws[i].abandoned
    {
      assert Covered(ws[i], p);
      assert forall k :: k in ws[i].runs ==> RunSound(ws[i], k);
    }
    if forall j :: 0 <= j < i ==> !SomeReindexLost(ws[j].jobs, ws[j + 1].jobs) {
      NothingLostNothingAbandoned(ws, acts, i);
    }
  }

  // ---- why timeliness is needed -----------------------------------------------------------

  // A job row with the fields a five-attempt reindex job has.
  function Row(state: State, attempts: nat, worker: Option<string>, at: Option<Time>, updatedAt: Time): Job {
    Job(REINDEX, state, attempts, 5, 0, worker, at, updatedAt)
  }

  ghost predicate Moves(w: World, a: Action, w': World) {
    Enabled(w, a) && After(w, a) == w'
  }

  lemma Continue(ws: seq<World>, acts: seq<Action>, a: Action, w: World)
    requires Behaviour(ws, acts) && Moves(ws[|acts|], a, w)
    ensures Behaviour(ws + [w], acts + [a]) && (ws + [w])[|acts + [a]|] == w
  {
  }

  const K1 := RunKey(1, 1)
  const K2 := RunKey(1, 2)
  const LATE: Time := LEASE + 1

  function OneRun(life: Life, phase: Phase): map<RunKey, Run> {
    map[K1 := Run(REINDEX, life, phase, 0)]
  }

  function TwoRuns(first: Life, second: Life, phase: Phase): map<RunKey, Run> {
    map[K1 := Run(REINDEX, first, SweptAll, 0), K2 := Run(REINDEX, second, phase, LATE)]
  }

  const SWEEPING1 :=
    World(0, map[1 := Row(Running, 1, Some("a"), Some(0), 0)], map[1 := 5], {7}, {7}, {}, OneRun(Live, Sweeping(NIL)))
  const SWEPT1 := SWEEPING1.(stale := {}, runs := OneRun(Live, SweptAll))
  const REAPED := SWEPT1.(now := LATE, jobs := map[1 := Row(Queued, 1, None, None, LATE)])
  const EDITED :=
    REAPED.(jobs := REAPED.jobs[2 := Job(REINDEX, Queued, 0, 5, LATE, None, None, LATE)], issued :=
    map[1 := 5, 2 := 5], stale := {7})
  const CLAIMED2 :=
    EDITED.(jobs := EDITED.jobs[1 := Row(Running, 2, Some("b"), Some(LATE), LATE)], runs :=
    TwoRuns(Live, Live, Starting))
  const SWEEPING2 :=
    EDITED.(jobs := map[1 := Row(Running, 2, Some("b"), Some(LATE), LATE)], runs := TwoRuns(Live, Live, Sweeping(NIL)))
  const FORGOTTEN :=
    EDITED.(jobs := map[1 := Row(Done, 2, None, None, LATE)], runs := TwoRuns(Ended, Crashed, Sweeping(NIL)))

  // A worker claims the job of an edit and starts sweeping.
  lemma FirstWorkerStarts() returns (ws: seq<World>, acts: seq<Action>)
    ensures Behaviour(ws, acts) && ws[|acts|] == SWEEPING1
  {
    acts := [Edit(1, {7}, {7}), Claim(1, "a"), Discard(K1)];
    var w1 := World(0, map[1 := Row(Queued, 0, None, None, 0)], map[1 := 5], {7}, {7}, {}, map[]);
    assert Moves(EMPTY, acts[0], w1);
    var w2 := SWEEPING1.(runs := OneRun(Live, Starting));
    assert Moves(w1, acts[1], w2);
    assert Discarded(w2.jobs, REINDEX) == w2.jobs;
    assert Moves(w2, acts[2], SWEEPING1);
    ws := [EMPTY, w1, w2, SWEEPING1];
  }

  lemma FirstSweepMoves(selected: World, refreshed: World)
    requires selected == SWEEPING1.(runs := OneRun(Live, Selected(NIL, [7])))
    requires refreshed == SWEEPING1.(stale := {}, runs := OneRun(Live, Sweeping(7)))
    ensures Moves(SWEEPING1, Select(K1, [7]), selected)
    ensures Moves(selected, Refresh(K1), refreshed)
  {
    assert IsBatch(SWEEPING1.products, NIL, BATCH, [7]);
    assert SetOf([7]) == {7};
  }

  lemma FirstSweepEnds(refreshed: World)
    requires refreshed == SWEEPING1.(stale := {}, runs := OneRun(Live, Sweeping(7)))
    ensures Moves(refreshed, Select(K1, []), SWEPT1)
  {
    assert IsBatch(refreshed.products, 7, BATCH, []);
  }

  // It refreshes product 7, finds nothing more, and hangs.
  lemma FirstWorkerSweeps(ws0: seq<World>, acts0: seq<Action>) returns (ws: seq<World>, acts: seq<Action>)
    requires Behaviour(ws0, acts0) && ws0[|acts0|] == SWEEPING1
    ensures Behaviour(ws, acts) && ws[|acts|] == SWEPT1
  {
    var w1 := SWEEPING1.(runs := OneRun(Live, Selected(NIL, [7])));
    var w2 := SWEEPING1.(stale := {}, runs := OneRun(Live, Sweeping(7)));
    FirstSweepMoves(w1, w2);
    Continue(ws0, acts0, Select(K1, [7]), w1);
    Continue(ws0 + [w1], acts0 + [Select(K1, [7])], Refresh(K1), w2);
    ws, acts := ws0 + [w1] + [w2], acts0 + [Select(K1, [7])] + [Refresh(K1)];
    FirstSweepEnds(w2);
    Continue(ws, acts, Select(K1, []), SWEPT1);
    ws, acts := ws + [SWEPT1], acts + [Select(K1, [])];
  }

  lemma ReapMoves(late: World)
    requires late == SWEPT1.(now := LATE)
    ensures Moves(SWEPT1, Tick(LATE), late) && Moves(late, Reap, REAPED)
  {
    assert Reaped(late.jobs, LATE) == REAPED.jobs;
  }

  // Its row goes back to the queue; another edit queues a second job.
  lemma RowIsReaped(ws0: seq<World>, acts0: seq<Action>) returns (ws: seq<World>, acts: seq<Action>)
    requires Behaviour(ws0, acts0) && ws0[|acts0|] == SWEPT1
    ensures Behaviour(ws, acts) && ws[|acts|] == EDITED
  {
    var w1 := SWEPT1.(now := LATE);
    ReapMoves(w1);
    Continue(ws0, acts0, Tick(LATE), w1);
    Continue(ws0 + [w1], acts0 + [Tick(LATE)], Reap, REAPED);
    ws, acts := ws0 + [w1] + [REAPED], acts0 + [Tick(LATE)] + [Reap];
    assert Moves(REAPED, Edit(2, {7}, {7}), EDITED);
    Continue(ws, acts, Edit(2, {7}, {7}), EDITED);
    ws, acts := ws + [EDITED], acts + [Edit(2, {7}, {7})];
  }

  lemma SecondClaimMoves()
    ensures Moves(EDITED, Claim(1, "b"), CLAIMED2)
  {
  }

  lemma SecondDiscards(t: Table, j: Job)
    requires t.Keys == {1, 2} && t[1] == j && j.state == Running && t[2].kind == REINDEX && t[2].state == Queued
    ensures Discarded(t, REINDEX) == map[1 := j]
  {
  }

  lemma SecondDiscardMoves()
    ensures Moves(CLAIMED2, Discard(K2), SWEEPING2)
  {
    SecondDiscards(CLAIMED2.jobs, Row(Running, 2, Some("b"), Some(LATE), LATE));
    assert TwoRuns(Live, Live, Starting)[K2 := Run(REINDEX, Live, Sweeping(NIL), LATE)] ==
      TwoRuns(Live, Live, Sweeping(NIL));
  }

  // A second worker claims the old job and absorbs the new one.
  lemma SecondWorkerStarts(ws0: seq<World>, acts0: seq<Action>) returns (ws: seq<World>, acts: seq<Action>)
    requires Behaviour(ws0, acts0) && ws0[|acts0|] == EDITED
    ensures Behaviour(ws, acts) && ws[|acts|] == SWEEPING2
  {
    SecondClaimMoves();
    Continue(ws0, acts0, Claim(1, "b"), CLAIMED2);
    SecondDiscardMoves();
    Continue(ws0 + [CLAIMED2], acts0 + [Claim(1, "b")], Discard(K2), SWEEPING2);
    ws, acts := ws0 + [CLAIMED2] + [SWEEPING2], acts0 + [Claim(1, "b")] + [Discard(K2)];
  }

  lemma CompletingLosesNothing(t: Table, id: JobId, now: Time)
    ensures !SomeReindexLost(t, Completed(t, id, now))
  {
  }

  lemma LateCompleteRow()
    ensures Completed(SWEEPING2.jobs, 1, LATE) == FORGOTTEN.jobs
  {
  }

  lemma LateCompleteRun()
    ensures LiveRun(SWEEPING2, K1) && SWEEPING2.runs[K1].phase == SweptAll
    ensures SWEEPING2.runs[K1 := SWEEPING2.runs[K1].(life := Ended)] == TwoRuns(Ended, Live, Sweeping(NIL))
  {
  }

  lemma LateCompleteMoves(completed: World)
    requires completed == FORGOTTEN.(runs := TwoRuns(Ended, Live, Sweeping(NIL)))
    ensures Moves(SWEEPING2, Complete(K1), completed)
  {
    CompletingLosesNothing(SWEEPING2.jobs, 1, LATE);
    LateCompleteRow();
    LateCompleteRun();
  }

  lemma LateCrashMoves(completed: World)
    requires completed == FORGOTTEN.(runs := TwoRuns(Ended, Live, Sweeping(NIL)))
    ensures Moves(completed, Crash(K2), FORGOTTEN)
  {
  }

  lemma ForgottenIsUncovered()
    ensures 7 in FORGOTTEN.stale && !Covered(FORGOTTEN, 7)
  {
  }

  // The first worker now records "done" on the row the second one holds; the second
  // one crashes, and nobody will ever refresh product 7.
  lemma LateWriteForgetsAProduct() returns (ws: seq<World>, acts: seq<Action>)
    ensures Behaviour(ws, acts)
    ensures 7 in ws[|acts|].stale && !AllCovered(ws[|acts|])
    ensures ws[|acts|].jobs.Keys == {1} && ws[|acts|].jobs[1].state == Done
    ensures forall k :: !LiveRun(ws[|acts|], k)
  {
    ws, acts := FirstWorkerStarts();
    ws, acts := FirstWorkerSweeps(ws, acts);
    ws, acts := RowIsReaped(ws, acts);
    ws, acts := SecondWorkerStarts(ws, acts);
    var w1 := FORGOTTEN.(runs := TwoRuns(Ended, Live, Sweeping(NIL)));
    LateCompleteMoves(w1);
    LateCrashMoves(w1);
    Continue(ws, acts, Complete(K1), w1);
    ws, acts := ws + [w1], acts + [Complete(K1)];
    Continue(ws, acts, Crash(K2), FORGOTTEN);
    ws, acts := ws + [FORGOTTEN], acts + [Crash(K2)];
    ForgottenIsUncovered();
  }

  // ---- the handler, run without interference -------------------------------------------------

  class SearchIndex {
    var products: set<ProductId>
    var stale: set<ProductId>

    ghost predicate Valid()
      reads this
    {
      NIL !in products && stale <= products
    }

    constructor (products: set<ProductId>, stale: set<ProductId>)
      requires NIL !in products && stale <= products
      ensures Valid() && this.products == products && this.stale == stale
    {
      this.products := products;
      this.stale := stale;
    }

    method LeastAfter(after: ProductId) returns (least: Option<ProductId>)
      ensures least.None? <==> forall p :: p in products ==> p <= after
      ensures least.Some? ==> least.value in products && least.value > after
      ensures least.Some? ==> forall p :: p in products && p > after ==> least.value <= p
    {
      least := None;
      var todo := products;
      while todo != {}
        invariant todo <= products
        invariant least.None? ==> forall p :: p in products && p !in todo ==> p <= after
        invariant least.Some? ==> least.value in products && least.value > after
        invariant least.Some? ==> forall p :: p in products && p !in todo && p > after ==> least.value <= p
        decreases |todo|
      {
        var p :| p in todo;
        todo := todo - {p};
        if p > after && (least.None? || p < least.value) {
          least := Some(p);
        }
      }
    }

    // Takes the least id after the last one taken, until there is none or enough were taken.
    method SelectBatch(after: ProductId, limit: nat) returns (ids: seq<ProductId>)
      requires limit >= 1
      ensures IsBatch(products, after, limit, ids)
    {
      ids := [];
      var least := LeastAfter(after);
      while |ids| < limit && least.Some?
        invariant Ascending(ids) && |ids| <= limit
        invariant forall i :: 0 <= i < |ids| ==> ids[i] in products && ids[i] > after
        invariant forall p :: p in products && p > after && p !in ids ==> least.Some? && least.value <= p
        invariant least.Some? ==> least.value in products && least.value > after && forall i :: 0 <= i < |ids| ==>
          ids[i] < least.value
        decreases limit - |ids|
      {
        ids := ids + [least.value];
        least := LeastAfter(least.value);
      }
    }

    // The last id refreshed, or uuid.Nil when no product has a greater id.
    method RefreshSearchVectors(after: ProductId, limit: nat) returns (last: ProductId)
      requires Valid() && limit >= 1
      modifies this
      ensures Valid() && products == old(products)
      ensures last == NIL <==> forall p :: p in products ==> p <= after
      ensures last != NIL ==> last > after && last in products
      ensures stale == old(stale) - set p | p in products && after < p <= last
    {
      var ids := SelectBatch(after, limit);
      if ids == [] {
        return NIL;
      }
      stale := stale - SetOf(ids);
      last := Last(ids);
      assert forall p :: p in products && after < p <= last ==> p in ids;
      assert SetOf(ids) == set p | p in products && after < p <= last;
    }

    // Alone on the index the handler leaves nothing stale and no reindex job queued.
    method ReindexSearch(table: JobTable)
      requires Valid() && table.Valid()
      modifies this, table
      ensures Valid() && products == old(products) && stale == {}
      ensures table.Valid() && table.rows == Discarded(old(table.rows), REINDEX)
    {
      table.DiscardQueued(REINDEX);
      var after := NIL;
      while true
        modifies this
        invariant Valid() && products == old(products)
        invariant forall p :: p in stale ==> p > after
        decreases set p | p in products && p > after
      {
        ghost var before := set p | p in products && p > after;
        var last := RefreshSearchVectors(after, BATCH);
        if last == NIL {
          assert forall p :: p in stale ==> p <= after;
          return;
        }
        assert last in before;
        after := last;
      }
    }
  }
}
