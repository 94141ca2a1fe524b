// The durable job queue: every SQL statement over the jobs table as one atomic
// transition of a map of rows, and the runner's claim-run-record cycle on top.
module JobQueue {
  import opened Prelude

  type JobId = nat

  // Milliseconds on the database clock.
  type Time = int

  datatype State = Queued | Running | Done | Failed | Dead

  datatype Job = Job(
    kind: string,
    state: State,
    attempts: nat,
    maxAttempts: nat,
    runAfter: Time,
    lockedBy: Option<string>,
    lockedAt: Option<Time>,
    updatedAt: Time)

  type Table = map<JobId, Job>

  const MINUTE: Time := 60_000
  const DAY: Time := 24 * 60 * MINUTE

  // A running row older than this belongs to a worker presumed dead.
  const LEASE: Time := 10 * MINUTE

  // ---- the statements -------------------------------------------------------

  // Runnable at once unless a time is given.
  function NewJob(kind: string, maxAttempts: nat, runAfter: Option<Time>, now: Time): Job {
    Job(kind, Queued, 0, maxAttempts, if runAfter.Some? then runAfter.value else now, None, None, now)
  }

  predicate Runnable(j: Job, now: Time) {
    j.state == Queued && j.runAfter <= now
  }

  function ClaimedRow(j: Job, worker: string, now: Time): Job {
    j.(state := Running, lockedBy := Some(worker), lockedAt := Some(now), attempts := j.attempts + 1, updatedAt := now)
  }

  function Unlocked(j: Job, s: State, now: Time): Job {
    j.(state := s, lockedBy := None, lockedAt := None, updatedAt := now)
  }

  // Back to the queue, or dead-lettered once the attempts are used up.
  function RequeuedRow(j: Job, now: Time): Job {
    Unlocked(j, if j.attempts >= j.maxAttempts then Dead else Queued, now)
  }

  // UPDATE ... WHERE id = $1 changes nothing when the row is gone.
  function Completed(t: Table, id: JobId, now: Time): Table {
    if id in t then t[id := Unlocked(t[id], Done, now)] else t
  }

  function FailedRow(t: Table, id: JobId, now: Time): Table {
    if id in t then t[id := Unlocked(t[id], Failed, now)] else t
  }

  function Retried(t: Table, id: JobId, runAfter: Time, now: Time): Table {
    if id in t then t[id := RequeuedRow(t[id], now).(runAfter := runAfter)] else t
  }

  predicate Stuck(j: Job, now: Time) {
    j.state == Running && j.lockedAt.Some? && j.lockedAt.value < now - LEASE
  }

  function Reaped(t: Table, now: Time): Table {
    map id | id in t :: if Stuck(t[id], now) then RequeuedRow(t[id], now) else t[id]
  }

  function Discarded(t: Table, kind: string): Table {
    map id | id in t && !(t[id].kind == kind && t[id].state == Queued) :: t[id]
  }

  predicate Expired(j: Job, now: Time) {
    || (j.state == Done && j.updatedAt < now - 7 * DAY)
    || (j.state in {Failed, Dead} && j.updatedAt < now - 30 * DAY)
  }

  function Swept(t: Table, now: Time): Table {
    map id | id in t && !Expired(t[id], now) :: t[id]
  }

  // ---- what every statement keeps ---------------------------------------------

  // A queued job still has attempts left; a row is locked exactly while it runs.
  predicate RowSound(j: Job) {
    && j.attempts <= j.maxAttempts
    && (j.state == Queued ==> j.attempts < j.maxAttempts)
    && (j.state == Running <==> j.lockedAt.Some?)
    && (j.state == Running <==> j.lockedBy.Some?)
    && (j.state == Running ==> j.attempts >= 1)
  }

  ghost predicate Sound(t: Table) {
    forall id :: id in t ==> RowSound(t[id])
  }

  // The job the claim query picks: runnable, not locked by another transaction,
  // and no other such row has waited longer.
  ghost predicate OldestRunnable(t: Table, locked: set<JobId>, now: Time, id: JobId) {
    && id in t && id !in locked && t[id].state == Queued && t[id].runAfter <= now
    && forall other :: other in t && other !in locked && t[other].state == Queued && t[other].runAfter <= now ==>
      t[id].runAfter <= t[other].runAfter
  }

  // Row id ended in a state at a time, unlocked and otherwise as it was; no other row changed.
  ghost predicate OnlyEnded(before: Table, after: Table, id: JobId, s: State, runAfter: Time, now: Time) {
    && id in before
    && after == before[id :=
         before[id].(state := s, runAfter := runAfter, lockedBy := None, lockedAt := None, updatedAt := now)]
  }

  // Not running, or locked no earlier than then.
  ghost predicate LockedSince(j: Job, since: Time) {
    j.state == Running && j.lockedAt.Some? ==> j.lockedAt.value >= since
  }

  class JobTable {
    var rows: Table

    ghost predicate Valid()
      reads this
    {
      Sound(rows)
    }

    constructor ()
      ensures Valid() && rows == map[]
    {
      rows := map[];
    }

    method Enqueue(id: JobId, kind: string, maxAttempts: nat, runAfter: Option<Time>, now: Time)
      requires Valid() && id !in rows && maxAttempts >= 1
      modifies this
      ensures Valid() && rows == old(rows)[id := NewJob(kind, maxAttempts, runAfter, now)]
      ensures rows[id] ==
        Job(kind, Queued, 0, maxAttempts, if runAfter.Some? then runAfter.value else now, None, None, now)
    {
      rows := rows[id := NewJob(kind, maxAttempts, runAfter, now)];
    }

    // FOR UPDATE SKIP LOCKED: rows locked by a concurrent transaction are passed over.
    method Claim(worker: string, locked: set<JobId>, now: Time) returns (claimed: Option<JobId>)
      requires Valid()
      modifies this
      ensures Valid()
      ensures claimed.None? <==>
        forall id :: id in old(rows) && id !in locked ==>
          !(old(rows)[id].state == Queued && old(rows)[id].runAfter <= now)
      ensures claimed.None? ==> rows == old(rows)
      ensures claimed.Some? ==>
        && OldestRunnable(old(rows), locked, now, claimed.value)
        && rows == old(rows)[claimed.value := ClaimedRow(old(rows)[claimed.value], worker, now)]
        && rows[claimed.value] == old(rows)[claimed.value].(
             state := Running, lockedBy := Some(worker), lockedAt := Some(now),
             attempts := old(rows)[claimed.value].attempts + 1, updatedAt := now)
    {
      claimed := None;
      var todo := rows.Keys;
      while todo != {}
        invariant rows == old(rows) && todo <= rows.Keys
        invariant claimed.Some? ==>
          claimed.value in rows && claimed.value !in locked && Runnable(rows[claimed.value], now)
        invariant forall id :: id in rows && id !in todo && id !in locked && Runnable(rows[id], now) ==>
          claimed.Some? && rows[claimed.value].runAfter <= rows[id].runAfter
        decreases |todo|
      {
        var id :| id in todo;
        todo := todo - {id};
        if id !in locked && Runnable(rows[id], now) {
          if claimed.None? || rows[id].runAfter < rows[claimed.value].runAfter {
            claimed := Some(id);
          }
        }
      }
      if claimed.Some? {
        rows := rows[claimed.value := ClaimedRow(rows[claimed.value], worker, now)];
      }
    }

    method Complete(id: JobId, now: Time)
      requires Valid()
      modifies this
      ensures Valid() && rows == Completed(old(rows), id, now)
      ensures id in old(rows) ==> OnlyEnded(old(rows), rows, id, Done, old(rows)[id].runAfter, now)
      ensures id !in old(rows) ==> rows == old(rows)
    {
      if id in rows {
        rows := rows[id := Unlocked(rows[id], Done, now)];
      }
    }

    method Fail(id: JobId, now: Time)
      requires Valid()
      modifies this
      ensures Valid() && rows == FailedRow(old(rows), id, now)
      ensures id in old(rows) ==> OnlyEnded(old(rows), rows, id, Failed, old(rows)[id].runAfter, now)
      ensures id !in old(rows) ==> rows == old(rows)
    {
      if id in rows {
        rows := rows[id := Unlocked(rows[id], Failed, now)];
      }
    }

    method Retry(id: JobId, runAfter: Time, now: Time)
      requires Valid()
      modifies this
      ensures Valid() && rows == Retried(old(rows), id, runAfter, now)
      ensures id in old(rows) ==>
        var used := old(rows)[id].attempts == old(rows)[id].maxAttempts;
        OnlyEnded(old(rows), rows, id, if used then Dead else Queued, runAfter, now)
      ensures id !in old(rows) ==> rows == old(rows)
    {
      if id in rows {
        rows := rows[id := RequeuedRow(rows[id], now).(runAfter := runAfter)];
      }
    }

    method Reap(now: Time)
      requires Valid()
      modifies this
      ensures Valid() && rows == Reaped(old(rows), now) && rows.Keys == old(rows).Keys
      ensures forall id :: id in rows && LockedSince(old(rows)[id], now - 10 * 60_000) ==> rows[id] == old(rows)[id]
      ensures forall id :: id in rows && !LockedSince(old(rows)[id], now - 10 * 60_000) ==>
        rows[id] == old(rows)[id].(
          state := if old(rows)[id].attempts == old(rows)[id].maxAttempts then Dead else Queued,
          lockedBy := None, lockedAt := None, updatedAt := now)
      ensures forall id :: id in rows && rows[id].state == Running ==> rows[id].lockedAt.value >= now - 10 * 60_000
    {
      rows := map id | id in rows :: if Stuck(rows[id], now) then RequeuedRow(rows[id], now) else rows[id];
    }

    method DiscardQueued(kind: string)
      requires Valid()
      modifies this
      ensures Valid() && rows == Discarded(old(rows), kind)
      ensures forall id :: id in rows ==> !(rows[id].kind == kind && rows[id].state == Queued)
      ensures forall id :: id in old(rows) && !(old(rows)[id].kind == kind && old(rows)[id].state == Queued) ==>
        id in rows && rows[id] == old(rows)[id]
    {
      rows := map id | id in rows && !(rows[id].kind == kind && rows[id].state == Queued) :: rows[id];
    }

    method DeleteFinished(now: Time)
      requires Valid()
      modifies this
      ensures Valid() && rows == Swept(old(rows), now)
      ensures forall id :: id in rows ==> id in old(rows) && rows[id] == old(rows)[id]
      ensures forall id :: id in old(rows) ==>
        (id !in rows <==>
         || (old(rows)[id].state == Done && old(rows)[id].updatedAt < now - 7 * 24 * 3_600_000)
         || (old(rows)[id].state in {Failed, Dead} && old(rows)[id].updatedAt < now - 30 * 24 * 3_600_000))
    {
      rows := map id | id in rows && !Expired(rows[id], now) :: rows[id];
    }
  }

  // ---- the runner -----------------------------------------------------------------

  // How a handler ended: a panic and a timeout are ordinary (retryable) errors.
  datatype Verdict = Success | PermanentError | RetryableError

  // A kind nobody handles fails for good, whatever a handler would have said.
  function Judged(kind: string, handlers: set<string>, verdict: Verdict): Verdict {
    if kind in handlers then verdict else PermanentError
  }

  // One worker's cycle with nobody else writing between the claim and the record.
  method ProcessNext(table: JobTable, worker: string, handlers: set<string>, locked: set<JobId>,
                     verdict: Verdict, started: Time, finished: Time, runAfter: Time)
    returns (ran: Option<JobId>)
    requires table.Valid()
    modifies table
    ensures table.Valid()
    ensures ran.None? ==> table.rows == old(table.rows)
    ensures ran.None? <==> forall id :: id in old(table.rows) && id !in locked ==>
      !(old(table.rows)[id].state == Queued && old(table.rows)[id].runAfter <= started)
    ensures ran.Some? ==>
      var before := old(table.rows);
      && OldestRunnable(before, locked, started, ran.value)
      && ran.value in table.rows
      && table.rows[ran.value].attempts == before[ran.value].attempts + 1
      && table.rows[ran.value].lockedBy.None?
      && table.rows == before[ran.value := table.rows[ran.value]]
      && table.rows[ran.value].state ==
        (if before[ran.value].kind !in handlers || verdict == PermanentError then Failed
         else if verdict == Success then Done
         else if before[ran.value].attempts + 1 == before[ran.value].maxAttempts then Dead
         else Queued)
  {
    ran := table.Claim(worker, locked, started);
    if ran.Some? {
      match Judged(table.rows[ran.value].kind, handlers, verdict)
      case Success => table.Complete(ran.value, finished);
      case PermanentError => table.Fail(ran.value, finished);
      case RetryableError => table.Retry(ran.value, runAfter, finished);
    }
  }
}
