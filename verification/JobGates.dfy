/** When a job of src/store/db.ts may be claimed: gates, leases and their times. */
module JobGates {
  import opened Text
  import opened CappedBackoff
  import opened JobLoop

  // The job is not claimed before a time, and may be from it on.
  ghost predicate FreeFrom(j: Job, time: int) {
    forall now: int :: Claimable(j, now) <==> now >= time
  }

  ghost predicate NeverFree(j: Job) {
    forall now: int :: !Claimable(j, now)
  }

  predicate Runs(s: State, id: JobId) {
    s.work.Some? && s.work.value.id == id && !s.work.value.completed && id in s.jobs && s.jobs[id].status == Running
  }

  // A run that throws: while attempts are left the job is queued again and kept back for the base delay times one
  // factor two for each attempt after the first, or for the cap where that is less; on its last attempt it has failed
  // for good.
  lemma ThrowGates(s: State, c: Config, id: JobId, now: int)
    requires Runs(s, id) && s.work.value.attempts >= 1
    ensures var k := s.work.value.attempts;
            var full := c.backoffMs * Product(seq(k - 1, _ => 2));
            var wait := if full <= c.backoffMaxMs then full else c.backoffMaxMs;
            var t := Step(s, c, Finishes(Threw, now));
            && t.work.None? && t.outbox == s.outbox && t.jobs.Keys == s.jobs.Keys
            && (forall other <- s.jobs :: other != id ==> t.jobs[other] == s.jobs[other])
            && t.jobs[id].attempts == s.jobs[id].attempts && t.jobs[id].updatedAt == now
            && if k < c.maxAttempts
               then t.jobs[id].status == Queued && FreeFrom(t.jobs[id], now + wait)
                    && t.jobs[id].past.delays == s.jobs[id].past.delays + [wait]
               else t.jobs[id].status == Failed && t.jobs[id].lease.None? && NeverFree(t.jobs[id])
  {
    DelayExact(c.backoffMs, c.backoffMaxMs, s.work.value.attempts);
    hide Delay, Product;
  }

  // A claim leases the job, counts the attempt, and keeps others off until the lease is over; so does a renewal.
  lemma ClaimLeases(s: State, c: Config, id: JobId, now: int, until: int, later: int)
    requires s.work.None? && Oldest(s.jobs, id, now)
    ensures var t := Step(s, c, Claims(id, now));
            var u := Step(t, c, Renews(until, later));
            && t.work == Some(Work(id, s.jobs[id].attempts + 1, false)) && u.work == t.work
            && t.jobs[id].attempts == u.jobs[id].attempts == s.jobs[id].attempts + 1
            && t.jobs[id].status == u.jobs[id].status == Running
            && t.jobs[id].updatedAt == now && u.jobs[id].updatedAt == later
            && (forall other <- s.jobs :: other != id ==> t.jobs[other] == u.jobs[other] == s.jobs[other])
            && FreeFrom(t.jobs[id], now + c.leaseMs + 1) && FreeFrom(u.jobs[id], until + 1)
  {
  }

  // A new job may be claimed at any time.
  lemma EnqueuedFree(s: State, c: Config, id: JobId, now: int, later: int)
    requires id !in s.jobs
    ensures var j := Step(s, c, Enqueued(id, now)).jobs[id];
            Claimable(j, later) && j.status == Queued && j.attempts == 0 && j.createdAt == now && j.updatedAt == now
  {
  }

  // The row that is claimed: of those that are queued with no gate or a gate that has come, or running with a lease
  // that is over, the one created first.
  lemma ClaimsTheFirst(s: State, c: Config, id: JobId, now: int)
    requires s.work.None? && id in s.jobs
    ensures Step(s, c, Claims(id, now)) != s <==>
            && Due(s.jobs[id], now)
            && forall other <- s.jobs :: Due(s.jobs[other], now) ==> s.jobs[id].createdAt <= s.jobs[other].createdAt
  {
    assert Claimable(s.jobs[id], now) <==> Due(s.jobs[id], now);
    assert forall other <- s.jobs :: Claimable(s.jobs[other], now) <==> Due(s.jobs[other], now);
  }

  predicate Due(j: Job, now: int) {
    match j.lease
    case None => j.status == Queued
    case Some(time) => (j.status == Queued && now >= time) || (j.status == Running && now > time)
  }

  // A run that returns a state, or a report of the sandbox, ends the job: nobody claims it again.
  lemma EndsGate(s: State, c: Config, id: JobId, ok: bool, now: int)
    requires Runs(s, id) && s.work.value.attempts >= 1
    ensures var t := Step(s, c, Finishes(Done, now));
            var u := Step(s, c, SelfReports(ok, now));
            var v := Step(t, c, Posts);
            && t.jobs[id].status == Completed && t.jobs[id].lease.None? && NeverFree(t.jobs[id])
            && u.jobs[id].status == (if ok then Completed else Failed)
            && u.jobs[id].lease.None? && NeverFree(u.jobs[id])
            && u.outbox == (if ok then s.outbox + {id} else s.outbox)
            && t.jobs[id].updatedAt == u.jobs[id].updatedAt == now
            && v.outbox == s.outbox + {id} && v.work.None?
  {
  }

  // An executor that dies leaves the row as it is, so it may be claimed again when its lease is over.
  lemma CrashLeaves(s: State, c: Config, id: JobId)
    requires Runs(s, id)
    ensures var t := Step(s, c, Crashes);
            && t.work.None? && t.outbox == s.outbox && t.jobs.Keys == s.jobs.Keys
            && t.jobs[id].(past := s.jobs[id].past) == s.jobs[id]
            && (forall other <- s.jobs :: other != id ==> t.jobs[other] == s.jobs[other])
            && (s.jobs[id].lease.Some? ==> FreeFrom(t.jobs[id], s.jobs[id].lease.value + 1))
  {
  }

  // The sweep fails exactly the jobs that are queued, were not touched for the time to live, and are not kept back;
  // every other job stays as it was.
  lemma SweepExact(s: State, c: Config, id: JobId, now: int)
    requires s.work.None? && id in s.jobs
    ensures var j, t := s.jobs[id], Step(s, c, Sweeps(now));
            && t.work.None? && t.outbox == s.outbox && t.jobs.Keys == s.jobs.Keys
            && if j.status == Queued && now - j.updatedAt >= c.unclaimedTtlMs && Due(j, now)
               then && t.jobs[id].status == Failed && t.jobs[id].updatedAt == now
                    && t.jobs[id].lease.None? && NeverFree(t.jobs[id])
               else t.jobs[id] == j
  {
  }

  // A running job is dropped exactly by an executor that dies on it or believes a report that was not written.
  lemma DroppedExactly(s: State, c: Config, id: JobId, e: Event)
    requires Runs(s, id) && s.work.value.attempts >= 1
    ensures var drops := e.Crashes? || (e.Finishes? && e.outcome.SelfReported?);
            && (Drops(s, e) <==> drops)
            && Step(s, c, e).jobs[id].past.dropped == s.jobs[id].past.dropped + if drops then 1 else 0
  {
    hide Backoff;
  }
}
