/** The worker job loop: src/executor.ts over the job table of src/store/db.ts and the outbox of src/store/outbox.ts. */
module JobLoop {
  import opened Text
  import opened CappedBackoff

  datatype JobId = JobId(id: string)

  datatype Status = Queued | Running | Completed | Failed

  // How a job ended, as history.
  datatype Ending = Supervised | SelfCompleted | SelfFailed | OutOfAttempts | Unclaimed

  // History: how often the job was claimed; how often the executor died holding it, or let go of it while it ran; how
  // it ended; the delays of its requeues; whether an executor died between completing it and posting its outbox row;
  // and whether an outbox row was posted for it although it had failed.
  datatype Past = Past(runs: nat, dropped: nat, endings: seq<Ending>, delays: seq<nat>, lost: bool, stray: bool)

  datatype Job = Job(status: Status, attempts: nat, lease: Option<int>, createdAt: int, updatedAt: int, past: Past)

  // The claimed row as processJob holds it, and whether it has called completeJob.
  datatype Work = Work(id: JobId, attempts: nat, completed: bool)

  datatype Config = Config(maxAttempts: int, backoffMs: nat, backoffMaxMs: nat, leaseMs: int, unclaimedTtlMs: int)

  datatype State = State(jobs: map<JobId, Job>, work: Option<Work>, outbox: set<JobId>)

  datatype Outcome = Threw | Done | SelfReported

  predicate Terminal(j: Job) {
    j.status == Completed || j.status == Failed
  }

  // ---------------------------------------------------------------- the job table

  function Enqueue(s: State, id: JobId, now: int): State {
    if id in s.jobs then s
    else s.(jobs := s.jobs[id := Job(Queued, 0, None, now, now, Past(0, 0, [], [], false, false))])
  }

  predicate Claimable(j: Job, now: int) {
    (j.status == Queued && (j.lease.None? || j.lease.value <= now)) ||
        (j.status == Running && j.lease.Some? && j.lease.value < now)
  }

  predicate Oldest(jobs: map<JobId, Job>, id: JobId, now: int) {
    && id in jobs && Claimable(jobs[id], now)
    && forall other <- jobs :: Claimable(jobs[other], now) ==> jobs[id].createdAt <= jobs[other].createdAt
  }

  function Claimed(j: Job, c: Config, now: int): Job {
    j.(status := Running, lease := Some(now + c.leaseMs), attempts := j.attempts + 1, updatedAt := now,
       past := j.past.(runs := j.past.runs + 1))
  }

  function Requeued(j: Job, delay: nat, now: int): Job {
    if j.status == Running then
      j.(status := Queued, lease := Some(now + delay), updatedAt := now,
          past := j.past.(delays := j.past.delays + [delay]))
    else j
  }

  function Ended(j: Job, status: Status, ending: Ending, now: int): Job {
    j.(status := status, lease := None, updatedAt := now, past := j.past.(endings := j.past.endings + [ending]))
  }

  function CompletedJob(j: Job, ending: Ending, now: int): Job {
    if j.status == Running then Ended(j, Completed, ending, now) else j
  }

  function FailedJob(j: Job, ending: Ending, now: int): Job {
    if Terminal(j) then j else Ended(j, Failed, ending, now)
  }

  predicate Orphaned(j: Job, c: Config, now: int) {
    j.status == Queued && j.updatedAt <= now - c.unclaimedTtlMs && (j.lease.None? || j.lease.value <= now)
  }

  function Swept(j: Job, c: Config, now: int): Job {
    if Orphaned(j, c, now) then FailedJob(j, Unclaimed, now) else j
  }

  // ---------------------------------------------------------------- the loop

  function Backoff(c: Config, attempts: nat): nat
    requires attempts >= 1
  {
    Delay(c.backoffMs, c.backoffMaxMs, attempts)
  }

  function Claim(s: State, c: Config, id: JobId, now: int): State {
    if s.work.None? && Oldest(s.jobs, id, now) then
      var j := Claimed(s.jobs[id], c, now);
      s.(jobs := s.jobs[id := j], work := Some(Work(id, j.attempts, false)))
    else s
  }

  // The lease renewal of a running job.
  function Renew(s: State, until: int, now: int): State {
    if s.work.Some? && s.work.value.id in s.jobs && s.jobs[s.work.value.id].status == Running then
      s.(jobs := s.jobs[s.work.value.id := s.jobs[s.work.value.id].(lease := Some(until), updatedAt := now)])
    else s
  }

  // The sandbox writes its own job's terminal state, with the outbox row when it completed.
  function SelfReport(s: State, ok: bool, now: int): State {
    if s.work.Some? && s.work.value.id in s.jobs && s.jobs[s.work.value.id].status == Running then
      var id := s.work.value.id;
      if ok then s.(jobs := s.jobs[id := CompletedJob(s.jobs[id], SelfCompleted, now)], outbox := s.outbox + {id})
      else s.(jobs := s.jobs[id := FailedJob(s.jobs[id], SelfFailed, now)])
    else s
  }

  // The executor lets go of a job that is still marked running.
  function Dropped(j: Job): Job {
    if j.status == Running then j.(past := j.past.(dropped := j.past.dropped + 1)) else j
  }

  // processJob after the run, up to the outbox row. A self-reported outcome is believed; and what completeJob answers
  // is not looked at.
  function Finish(s: State, c: Config, outcome: Outcome, now: int): State {
    if s.work.None? || s.work.value.completed || s.work.value.id !in s.jobs || s.work.value.attempts < 1 then s
    else
      var w, j := s.work.value, s.jobs[s.work.value.id];
      match outcome
      case Threw =>
        var j' := if w.attempts >= c.maxAttempts then FailedJob(j, OutOfAttempts, now)
                  else Requeued(j, Backoff(c, w.attempts), now);
        s.(jobs := s.jobs[w.id := j'], work := None)
      case SelfReported => s.(jobs := s.jobs[w.id := Dropped(j)], work := None)
      case Done => s.(jobs := s.jobs[w.id := CompletedJob(j, Supervised, now)], work := Some(w.(completed := true)))
  }

  function Posted(j: Job): Job {
    if j.status == Completed then j else j.(past := j.past.(stray := true))
  }

  function Post(s: State): State {
    if s.work.Some? && s.work.value.completed && s.work.value.id in s.jobs then
      var id := s.work.value.id;
      s.(jobs := s.jobs[id := Posted(s.jobs[id])], outbox := s.outbox + {id}, work := None)
    else s
  }

  // The sweep runs between jobs.
  function Sweep(s: State, c: Config, now: int): State {
    if s.work.Some? then s else s.(jobs := map id | id in s.jobs :: Swept(s.jobs[id], c, now))
  }

  // The executor dies and is started again.
  function Crash(s: State): State {
    if s.work.None? || s.work.value.id !in s.jobs then s.(work := None)
    else
      var w, j := s.work.value, s.jobs[s.work.value.id];
      var past := Dropped(j).past.(lost := j.past.lost || (w.completed && j.past.endings == [Supervised]));
      s.(work := None, jobs := s.jobs[w.id := Dropped(j).(past := past)])
  }

  datatype Event = Enqueued(id: JobId, now: int) | Claims(id: JobId, now: int) | Renews(until: int, now: int)
                 | SelfReports(ok: bool, now: int) | Finishes(outcome: Outcome, now: int) | Posts
                 | Sweeps(now: int) | Crashes

  function Step(s: State, c: Config, e: Event): State {
    match e
    case Enqueued(id, now) => Enqueue(s, id, now)
    case Claims(id, now) => Claim(s, c, id, now)
    case Renews(until, now) => Renew(s, until, now)
    case SelfReports(ok, now) => SelfReport(s, ok, now)
    case Finishes(outcome, now) => Finish(s, c, outcome, now)
    case Posts => Post(s)
    case Sweeps(now) => Sweep(s, c, now)
    case Crashes => Crash(s)
  }

  function Run(c: Config, es: seq<Event>): State {
    if es == [] then State(map[], None, {}) else Step(Run(c, es[..|es| - 1]), c, es[|es| - 1])
  }

  // ---------------------------------------------------------------- the invariant

  // An executor tries at least once, whatever the setting.
  function Tries(c: Config): nat {
    if c.maxAttempts >= 1 then c.maxAttempts else 1
  }

  predicate Holds(s: State, id: JobId) {
    s.work.Some? && s.work.value.id == id
  }

  predicate Attempted(s: State, c: Config, id: JobId)
    requires id in s.jobs
  {
    var j := s.jobs[id];
    && j.attempts == j.past.runs
    && (j.status == Queued ==> j.attempts < Tries(c) && !Holds(s, id))
    && (j.status == Running ==> j.attempts < Tries(c) + j.past.dropped + (if Holds(s, id) then 1 else 0))
    && (Terminal(j) ==> j.attempts <= Tries(c) + j.past.dropped)
    && (Holds(s, id) ==> s.work.value.attempts == j.attempts >= 1)
    && (Holds(s, id) && s.work.value.completed ==> Terminal(j))
    && (Holds(s, id) && !s.work.value.completed && Terminal(j) ==> j.past.endings != [Supervised])
  }

  predicate EndedOnce(j: Job) {
    if Terminal(j) then |j.past.endings| == 1 &&
        (j.status == Completed <==> j.past.endings[0] in {Supervised, SelfCompleted})
    else j.past.endings == []
  }

  predicate Signalled(s: State, id: JobId)
    requires id in s.jobs
  {
    var j := s.jobs[id];
    && (id in s.outbox <==> (j.status == Completed && !Posting(s, id) && !j.past.lost) || j.past.stray)
    && (j.past.lost ==> j.past.endings == [Supervised] && !Holds(s, id))
    && (j.past.stray ==> j.status == Failed)
  }

  // processJob has completed the job and not posted its row yet.
  predicate Posting(s: State, id: JobId)
    requires id in s.jobs
  {
    Holds(s, id) && s.work.value.completed && s.jobs[id].past.endings == [Supervised]
  }

  predicate Delayed(c: Config, j: Job) {
    && (forall d <- j.past.delays :: d <= c.backoffMaxMs && j.attempts >= 1 && d <= Backoff(c, j.attempts))
    && (forall a, b :: 0 <= a < b < |j.past.delays| ==> j.past.delays[a] <= j.past.delays[b])
  }

  predicate JobInv(s: State, c: Config, id: JobId) {
    if id in s.jobs then Attempted(s, c, id) && EndedOnce(s.jobs[id]) && Signalled(s, id) && Delayed(c, s.jobs[id])
    else id !in s.outbox && !Holds(s, id)
  }

  ghost predicate Inv(s: State, c: Config) {
    forall id :: JobInv(s, c, id)
  }

  lemma BackoffGrows(c: Config, attempts: nat)
    requires attempts >= 1
    ensures Backoff(c, attempts) <= Backoff(c, attempts + 1) <= c.backoffMaxMs
  {
    DelayGrows(c.backoffMs, c.backoffMaxMs, attempts);
  }

  lemma ClaimKeeps(s: State, c: Config, pick: JobId, now: int, id: JobId)
    requires JobInv(s, c, id)
    ensures JobInv(Claim(s, c, pick, now), c, id)
  {
    if id in s.jobs && s.jobs[id].attempts >= 1 { BackoffGrows(c, s.jobs[id].attempts); }
    hide Backoff;
  }

  lemma ReportKeeps(s: State, c: Config, ok: bool, now: int, id: JobId)
    requires JobInv(s, c, id)
    ensures JobInv(SelfReport(s, ok, now), c, id)
  {
    hide Backoff;
    if id in s.jobs {
      EndsAs(s.jobs[id].past.endings, SelfCompleted);
      EndsAs(s.jobs[id].past.endings, SelfFailed);
    }
  }

  lemma EndsAs(endings: seq<Ending>, ending: Ending)
    ensures ending != Supervised ==> endings + [ending] != [Supervised]
  {
    assert (endings + [ending])[|endings|] == ending;
  }

  lemma DelayOneMore(c: Config, j: Job, now: int)
    requires Delayed(c, j) && j.attempts >= 1
    ensures Delayed(c, Requeued(j, Backoff(c, j.attempts), now))
  {
    BackoffGrows(c, j.attempts);
    var d := Backoff(c, j.attempts);
    hide Backoff;
    var delays := j.past.delays + [d];
    forall e <- delays ensures e <= c.backoffMaxMs && e <= d {}
    forall a, b | 0 <= a < b < |delays| ensures delays[a] <= delays[b] {
      if b == |j.past.delays| { assert delays[a] in delays; }
    }
  }

  lemma FinishKeeps(s: State, c: Config, outcome: Outcome, now: int, id: JobId)
    requires JobInv(s, c, id)
    ensures JobInv(Finish(s, c, outcome, now), c, id)
  {
    if id in s.jobs && s.jobs[id].attempts >= 1 { DelayOneMore(c, s.jobs[id], now); }
    hide Backoff, Delayed;
    DelayedSame(c);
  }

  lemma DelayedSame(c: Config)
    ensures forall i: Job, j: Job :: Delayed(c, i) && i.past.delays == j.past.delays && i.attempts == j.attempts ==>
        Delayed(c, j)
  {
  }

  lemma SweepKeeps(s: State, c: Config, now: int, id: JobId)
    requires JobInv(s, c, id)
    ensures JobInv(Sweep(s, c, now), c, id)
  {
    hide Backoff;
  }

  lemma CrashKeeps(s: State, c: Config, id: JobId)
    requires JobInv(s, c, id)
    ensures JobInv(Crash(s), c, id)
  {
    hide Backoff;
  }

  lemma StepKeeps(s: State, c: Config, e: Event, id: JobId)
    requires JobInv(s, c, id)
    ensures JobInv(Step(s, c, e), c, id)
  {
    hide Backoff;
    match e {
      case Enqueued(_, now) =>
      case Claims(pick, now) => ClaimKeeps(s, c, pick, now, id);
      case Renews(until, now) =>
      case SelfReports(ok, now) => ReportKeeps(s, c, ok, now, id);
      case Finishes(outcome, now) => FinishKeeps(s, c, outcome, now, id);
      case Posts =>
      case Sweeps(now) => SweepKeeps(s, c, now, id);
      case Crashes => CrashKeeps(s, c, id);
    }
  }

  // ---------------------------------------------------------------- runs

  lemma {:induction false} RunKeeps(c: Config, es: seq<Event>, id: JobId)
    ensures JobInv(Run(c, es), c, id)
    decreases |es|
  {
    if es != [] {
      RunKeeps(c, es[..|es| - 1], id);
      hide JobInv;
      StepKeeps(Run(c, es[..|es| - 1]), c, es[|es| - 1], id);
    }
  }

  // The executor dies, or believes a report that the sandbox has not written.
  predicate Drops(s: State, e: Event) {
    e.Crashes? ||
    (e.Finishes? && e.outcome.SelfReported? && s.work.Some? && s.work.value.id in s.jobs &&
        s.jobs[s.work.value.id].status == Running)
  }

  predicate CrashFree(c: Config, es: seq<Event>) {
    es == [] || (CrashFree(c, es[..|es| - 1]) && !Drops(Run(c, es[..|es| - 1]), es[|es| - 1]))
  }

  // A job of a run without crashes has none in its history.
  lemma {:induction false} NoCrashes(c: Config, es: seq<Event>, id: JobId)
    requires CrashFree(c, es) && id in Run(c, es).jobs
    ensures Run(c, es).jobs[id].past.dropped == 0 && !Run(c, es).jobs[id].past.lost
    decreases |es|
  {
    hide Backoff, JobInv, Drops;
    var before := es[..|es| - 1];
    if id in Run(c, before).jobs { NoCrashes(c, before, id); }
    StepWithoutCrash(Run(c, before), c, es[|es| - 1], id);
  }

  lemma StepWithoutCrash(s: State, c: Config, e: Event, id: JobId)
    requires !Drops(s, e) && id in Step(s, c, e).jobs
    requires id in s.jobs ==> s.jobs[id].past.dropped == 0 && !s.jobs[id].past.lost
    ensures Step(s, c, e).jobs[id].past.dropped == 0 && !Step(s, c, e).jobs[id].past.lost
  {
    hide Backoff;
  }

  // However runs end, a job runs at most as often as allowed, plus once for each time an executor died holding it or
  // let go of it while it ran. It ends at most once, and is out of the loop exactly when it has.
  lemma RunsBounded(c: Config, es: seq<Event>, id: JobId)
    requires id in Run(c, es).jobs
    ensures var j := Run(c, es).jobs[id];
            && j.past.runs <= Tries(c) + j.past.dropped
            && (CrashFree(c, es) ==> j.past.runs <= Tries(c))
            && |j.past.endings| == (if Terminal(j) then 1 else 0)
  {
    RunKeeps(c, es, id);
    if CrashFree(c, es) { NoCrashes(c, es, id); }
    hide Run;
  }

  // A completed job has its outbox row from the moment processJob has posted it, and no other job has one. The
  // exceptions are exact: the executor died between completing the job and posting; or it was handed a state to record
  // for a job that had failed by then, and posted it without looking whether it could complete the job.
  lemma OutboxExact(c: Config, es: seq<Event>, id: JobId)
    requires id in Run(c, es).jobs
    ensures var s := Run(c, es);
            var j := s.jobs[id];
            && (id in s.outbox <==> (j.status == Completed && !Posting(s, id) && !j.past.lost) || j.past.stray)
            && (j.past.stray ==> j.status == Failed)
            && (CrashFree(c, es) && s.work.None? ==> (id in s.outbox <==> j.status == Completed || j.past.stray))
            && (j.status == Completed <==> j.past.endings == [Supervised] || j.past.endings == [SelfCompleted])
  {
    RunKeeps(c, es, id);
    if CrashFree(c, es) { NoCrashes(c, es, id); }
    hide Run;
  }

  // When a row is posted for a failed job: exactly when its run returns a state and the row is not running any more.
  lemma StrayExactly(s: State, c: Config, now: int)
    requires s.work.Some? && s.work.value.id in s.jobs && s.work.value.attempts >= 1 && !s.work.value.completed
    requires JobInv(s, c, s.work.value.id) && !s.jobs[s.work.value.id].past.stray
    ensures var id := s.work.value.id;
            var t := Post(Finish(s, c, Done, now));
            && id in t.outbox && (t.jobs[id].past.stray <==> s.jobs[id].status == Failed)
            && (t.jobs[id].status == Completed <==> s.jobs[id].status != Failed)
  {
  }

  // The delays of a job's requeues never shrink and never exceed the cap.
  lemma DelaysOrdered(c: Config, es: seq<Event>, id: JobId)
    requires id in Run(c, es).jobs
    ensures var delays := Run(c, es).jobs[id].past.delays;
            && (forall a, b :: 0 <= a < b < |delays| ==> delays[a] <= delays[b])
            && (forall d <- delays :: d <= c.backoffMaxMs)
  {
    RunKeeps(c, es, id);
  }

  // A job that has ended stays as it ended: it is not claimed, completed, failed or requeued again.
  lemma {:induction false} EndedStays(c: Config, es: seq<Event>, i: nat, id: JobId)
    requires i <= |es| && id in Run(c, es[..i]).jobs && Terminal(Run(c, es[..i]).jobs[id])
    ensures var was, s := Run(c, es[..i]).jobs[id], Run(c, es);
            id in s.jobs && s.jobs[id].status == was.status && s.jobs[id].past.runs == was.past.runs &&
                s.jobs[id].past.endings == was.past.endings
    decreases |es|
  {
    hide Backoff, JobInv;
    if i == |es| {
      assert es[..i] == es;
    } else {
      var before := es[..|es| - 1];
      assert before[..i] == es[..i];
      EndedStays(c, before, i, id);
      StepLeavesEnded(Run(c, before), c, es[|es| - 1], id);
    }
  }

  lemma StepLeavesEnded(s: State, c: Config, e: Event, id: JobId)
    requires id in s.jobs && Terminal(s.jobs[id])
    ensures var j := s.jobs[id]; var t := Step(s, c, e);
            id in t.jobs && t.jobs[id].status == j.status && t.jobs[id].past.runs == j.past.runs &&
                t.jobs[id].past.endings == j.past.endings
  {
    hide Backoff;
  }

  // Why the bound counts crashes: an executor that dies on a job each time it has claimed it.
  function DyingRun(c: Config, id: JobId, n: nat): seq<Event> {
    if n == 0 then [Enqueued(id, 0)] else DyingRun(c, id, n - 1) + [Claims(id, (n - 1) * (c.leaseMs + 1)), Crashes]
  }

  // The job is claimed as often as the executor dies on it, whatever the maximum.
  lemma {:induction false} DyingRunsForever(c: Config, id: JobId, n: nat)
    requires c.leaseMs >= 0
    ensures var s := Run(c, DyingRun(c, id, n));
            && s.jobs.Keys == {id} && s.work.None? && s.jobs[id].past.runs == n && s.jobs[id].past.dropped == n
            && Claimable(s.jobs[id], n * (c.leaseMs + 1))
            && (n > 0 ==> s.jobs[id].lease == Some((n - 1) * (c.leaseMs + 1) + c.leaseMs))
  {
    var es := DyingRun(c, id, n);
    if n == 0 {
      assert es[..0] == [];
    } else {
      DyingRunsForever(c, id, n - 1);
      var before, now := DyingRun(c, id, n - 1), (n - 1) * (c.leaseMs + 1);
      var claimed := before + [Claims(id, now)];
      assert es == claimed + [Crashes] && es[..|es| - 1] == claimed && claimed[..|claimed| - 1] == before;
      assert n * (c.leaseMs + 1) == now + c.leaseMs + 1;
      DyingStep(Run(c, before), c, id, now);
    }
  }

  lemma DyingStep(s: State, c: Config, id: JobId, now: int)
    requires s.jobs.Keys == {id} && s.work.None? && Claimable(s.jobs[id], now)
    ensures var t := Crash(Claim(s, c, id, now));
            && t.jobs.Keys == {id} && t.work.None? && t.jobs[id].past.runs == s.jobs[id].past.runs + 1
            && t.jobs[id].past.dropped == s.jobs[id].past.dropped + 1
            && t.jobs[id].lease == Some(now + c.leaseMs) && Claimable(t.jobs[id], now + c.leaseMs + 1)
  {
    assert id in s.jobs.Keys;
  }

  // ---------------------------------------------------------------- the executor

  class Executor {
    var jobs: map<JobId, Job>
    var work: Option<Work>
    var outbox: set<JobId>
    const c: Config

    ghost function Now(): State
      reads this
    {
      State(jobs, work, outbox)
    }

    constructor (c: Config)
      ensures Now() == State(map[], None, {}) && this.c == c
    {
      this.c, jobs, work, outbox := c, map[], None, {};
    }

    // The oldest claimable job, if any.
    method ClaimNextJob(now: int) returns (claimed: Option<JobId>)
      requires work.None?
      modifies this
      ensures claimed.None? ==> Now() == old(Now()) && forall id <- jobs :: !Claimable(jobs[id], now)
      ensures claimed.Some? ==>
          Oldest(old(jobs), claimed.value, now) && Now() == Claim(old(Now()), c, claimed.value, now)
    {
      claimed := None;
      var todo := jobs.Keys;
      while todo != {}
        invariant todo <= jobs.Keys && Now() == old(Now())
        invariant claimed.None? ==> forall id <- jobs.Keys - todo :: !Claimable(jobs[id], now)
        invariant claimed.Some? ==> claimed.value in jobs && Claimable(jobs[claimed.value], now)
                                    && forall id <- jobs.Keys - todo :: Claimable(jobs[id], now) ==>
                                        jobs[claimed.value].createdAt <= jobs[id].createdAt
      {
        var id :| id in todo;
        todo := todo - {id};
        if Claimable(jobs[id], now) && (claimed.None? || jobs[id].createdAt < jobs[claimed.value].createdAt) {
          claimed := Some(id);
        }
      }
      if claimed.Some? {
        var j := Claimed(jobs[claimed.value], c, now);
        jobs, work := jobs[claimed.value := j], Some(Work(claimed.value, j.attempts, false));
      }
    }

    // The rest of processJob once the run has an outcome.
    method ProcessOutcome(outcome: Outcome, now: int)
      requires work.Some? && work.value.id in jobs && work.value.attempts >= 1 && !work.value.completed
      modifies this
      ensures Now() == Post(Finish(old(Now()), c, outcome, now)) && work.None?
    {
      var w := work.value;
      match outcome {
        case Threw =>
          if w.attempts >= c.maxAttempts {
            jobs := jobs[w.id := FailedJob(jobs[w.id], OutOfAttempts, now)];
          } else {
            jobs := jobs[w.id := Requeued(jobs[w.id], Backoff(c, w.attempts), now)];
          }
        case SelfReported => jobs := jobs[w.id := Dropped(jobs[w.id])];
        case Done =>
          jobs := jobs[w.id := CompletedJob(jobs[w.id], Supervised, now)];
          outbox := outbox + {w.id};
          jobs := jobs[w.id := Posted(jobs[w.id])];
      }
      work := None;
    }

    method SweepUnclaimed(now: int)
      requires work.None?
      modifies `jobs
      ensures Now() == Sweep(old(Now()), c, now)
    {
      ghost var was := jobs;
      var todo := jobs.Keys;
      while todo != {}
        invariant todo <= was.Keys && jobs.Keys == was.Keys
        invariant forall id <- was :: jobs[id] == if id in todo then was[id] else Swept(was[id], c, now)
      {
        var id :| id in todo;
        todo := todo - {id};
        if Orphaned(jobs[id], c, now) { jobs := jobs[id := FailedJob(jobs[id], Unclaimed, now)]; }
      }
    }
  }
}
