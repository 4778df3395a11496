/** That jobs end: the claim loop of src/executor.ts, round by round, over the job table of src/store/db.ts. */
module JobDrain {
  import opened Text
  import opened JobLoop

  // How the run of a claimed job ends: it throws, perhaps after the sandbox has written the job's terminal state; the
  // sandbox reported it; or it returns a state for the supervisor to record.
  datatype End = Throws(report: Option<bool>) | Reports(ok: bool) | Returns

  // One round of the loop: a claim, the run, and the rest of processJob.
  datatype Round = Round(id: JobId, claimedAt: int, end: End, endedAt: int)

  function Reported(s: State, end: End, now: int): State {
    match end
    case Throws(Some(ok)) => SelfReport(s, ok, now)
    case Reports(ok) => SelfReport(s, ok, now)
    case _ => s
  }

  function OutcomeOf(end: End): Outcome {
    match end
    case Throws(_) => Threw
    case Reports(_) => SelfReported
    case Returns => Done
  }

  function Process(s: State, c: Config, r: Round): State {
    Post(Finish(Reported(Claim(s, c, r.id, r.claimedAt), r.end, r.endedAt), c, OutcomeOf(r.end), r.endedAt))
  }

  function ReportEvents(end: End, now: int): seq<Event> {
    match end
    case Throws(Some(ok)) => [SelfReports(ok, now)]
    case Reports(ok) => [SelfReports(ok, now)]
    case _ => []
  }

  // A round is a run of the loop's events.
  function Events(r: Round): seq<Event> {
    [Claims(r.id, r.claimedAt)] + ReportEvents(r.end, r.endedAt) + [Finishes(OutcomeOf(r.end), r.endedAt)] + [Posts]
  }

  lemma RunOne(c: Config, es: seq<Event>, e: Event)
    ensures Run(c, es + [e]) == Step(Run(c, es), c, e)
  {
    assert (es + [e])[..|es|] == es;
  }

  lemma RunReport(c: Config, es: seq<Event>, end: End, now: int)
    ensures Run(c, es + ReportEvents(end, now)) == Reported(Run(c, es), end, now)
  {
    hide Run, SelfReport;
    match end {
      case Throws(Some(ok)) => RunOne(c, es, SelfReports(ok, now));
      case Throws(None) => assert es + [] == es;
      case Reports(ok) => RunOne(c, es, SelfReports(ok, now));
      case Returns => assert es + [] == es;
    }
  }

  lemma RoundIsRun(c: Config, es: seq<Event>, r: Round)
    ensures Run(c, es + Events(r)) == Process(Run(c, es), c, r)
  {
    hide Run, Claim, Finish, Reported, Post, ReportEvents;
    var claim, finish := Claims(r.id, r.claimedAt), Finishes(OutcomeOf(r.end), r.endedAt);
    var es1 := es + [claim];
    var es2 := es1 + ReportEvents(r.end, r.endedAt);
    RunOne(c, es, claim);
    RunReport(c, es1, r.end, r.endedAt);
    RunOne(c, es2, finish);
    RunOne(c, es2 + [finish], Posts);
    assert es + Events(r) == es2 + [finish] + [Posts];
  }

  // ---------------------------------------------------------------- what is left to do

  // How often a job may run: as often as allowed, and once more for each executor that died holding it.
  function Limit(c: Config, j: Job): nat {
    Tries(c) + j.past.dropped
  }

  // The runs that are still possible, as pairs of a job and the attempts it has had before.
  function Remaining(s: State, c: Config): set<(JobId, nat)> {
    set id, k | id in s.jobs && !Terminal(s.jobs[id]) && s.jobs[id].attempts <= k < Limit(c, s.jobs[id]) :: (id, k)
  }

  predicate AllEnded(s: State) {
    forall id <- s.jobs :: Terminal(s.jobs[id])
  }

  // With no job in hand, a job that has not ended has a run left; so after its last allowed run it has ended.
  lemma LastRunEnds(c: Config, es: seq<Event>, id: JobId)
    requires id in Run(c, es).jobs && Run(c, es).work.None?
    ensures var j := Run(c, es).jobs[id];
            && (!Terminal(j) ==> j.past.runs < Limit(c, j))
            && (CrashFree(c, es) && j.past.runs == Tries(c) ==> Terminal(j))
  {
    RunKeeps(c, es, id);
    if CrashFree(c, es) { NoCrashes(c, es, id); }
    hide Run;
  }

  // No run is left exactly when every job has ended.
  lemma NothingLeft(c: Config, es: seq<Event>)
    requires Run(c, es).work.None?
    ensures Remaining(Run(c, es), c) == {} <==> AllEnded(Run(c, es))
  {
    var s := Run(c, es);
    forall id <- s.jobs ensures Remaining(s, c) == {} ==> Terminal(s.jobs[id]) {
      LastRunEnds(c, es, id);
      RunKeeps(c, es, id);
      if !Terminal(s.jobs[id]) { HasRunLeft(s, c, id); }
    }
  }

  lemma HasRunLeft(s: State, c: Config, id: JobId)
    requires id in s.jobs && !Terminal(s.jobs[id]) && s.jobs[id].attempts < Limit(c, s.jobs[id])
    ensures Remaining(s, c) != {}
  {
    assert (id, s.jobs[id].attempts) in Remaining(s, c);
  }

  // A round that claims a job uses up one of its runs, and no run of another job.
  lemma RoundShrinks(s: State, c: Config, r: Round)
    requires s.work.None? && Oldest(s.jobs, r.id, r.claimedAt) && JobInv(s, c, r.id)
    ensures var t := Process(s, c, r);
            && t.work.None? && Remaining(t, c) < Remaining(s, c) && t.jobs.Keys == s.jobs.Keys
            && (forall id <- s.jobs :: id != r.id ==> t.jobs[id] == s.jobs[id])
  {
    hide Backoff;
    RoundOne(s, c, r);
    var t := Process(s, c, r);
    hide Process;
    var j := s.jobs[r.id];
    assert (r.id, j.attempts) in Remaining(s, c) && (r.id, j.attempts) !in Remaining(t, c);
  }

  lemma RoundOne(s: State, c: Config, r: Round)
    requires s.work.None? && Oldest(s.jobs, r.id, r.claimedAt) && JobInv(s, c, r.id)
    ensures var t := Process(s, c, r);
            && t.work.None? && t.jobs.Keys == s.jobs.Keys &&
                (forall id <- s.jobs :: id != r.id ==> t.jobs[id] == s.jobs[id])
            && t.jobs[r.id].attempts == s.jobs[r.id].attempts + 1 &&
                t.jobs[r.id].past.dropped == s.jobs[r.id].past.dropped
            && !Terminal(s.jobs[r.id]) && s.jobs[r.id].attempts < Limit(c, s.jobs[r.id])
  {
    hide Backoff;
    var s1 := Claim(s, c, r.id, r.claimedAt);
    assert s1.work == Some(Work(r.id, s.jobs[r.id].attempts + 1, false)) && s1.jobs[r.id].status == Running;
    var s2 := Reported(s1, r.end, r.endedAt);
    assert s2.work == s1.work && s2.jobs.Keys == s1.jobs.Keys;
  }

  // How a round leaves its job. What the sandbox has written stands, whatever the run comes to after it.
  lemma RoundEnds(s: State, c: Config, r: Round)
    requires s.work.None? && Oldest(s.jobs, r.id, r.claimedAt)
    ensures var t := Process(s, c, r);
            match r.end
            case Returns => t.jobs[r.id].status == Completed && t.outbox == s.outbox + {r.id}
            case Reports(ok) =>
              && t.jobs[r.id].status == (if ok then Completed else Failed)
              && t.outbox == if ok then s.outbox + {r.id} else s.outbox
            case Throws(Some(ok)) =>
              && t.jobs[r.id].status == (if ok then Completed else Failed)
              && t.outbox == if ok then s.outbox + {r.id} else s.outbox
            case Throws(None) =>
              && t.jobs[r.id].status == (if s.jobs[r.id].attempts + 1 < c.maxAttempts then Queued else Failed)
              && t.outbox == s.outbox
  {
    hide Backoff;
  }

  // Rounds that each claim the oldest job claimable at their time, until every job has ended.
  predicate ReadyRounds(s: State, c: Config, rs: seq<Round>)
    decreases |rs|
  {
    rs == [] || AllEnded(s) ||
        (Oldest(s.jobs, rs[0].id, rs[0].claimedAt) && ReadyRounds(Process(s, c, rs[0]), c, rs[1..]))
  }

  function Rounds(s: State, c: Config, rs: seq<Round>): State
    decreases |rs|
  {
    if rs == [] || AllEnded(s) then s else Rounds(Process(s, c, rs[0]), c, rs[1..])
  }

  lemma {:induction false} RoundsDrain(c: Config, es: seq<Event>, rs: seq<Round>)
    requires Run(c, es).work.None? && ReadyRounds(Run(c, es), c, rs) && |rs| >= |Remaining(Run(c, es), c)|
    ensures AllEnded(Rounds(Run(c, es), c, rs))
    decreases |rs|
  {
    var s := Run(c, es);
    if !AllEnded(s) {
      if Remaining(s, c) == {} { NothingLeft(c, es); }
      RunKeeps(c, es, rs[0].id);
      RoundShrinks(s, c, rs[0]);
      RoundIsRun(c, es, rs[0]);
      var t := Process(s, c, rs[0]);
      ProperlySmaller(Remaining(t, c), Remaining(s, c));
      hide Run, Process, Remaining;
      RoundsDrain(c, es + Events(rs[0]), rs[1..]);
    }
  }

  lemma ProperlySmaller<T>(a: set<T>, b: set<T>)
    requires a < b
    ensures |a| < |b|
  {
    var rest := b - a;
    assert b == a + rest && rest != {};
  }

  // Once nothing is enqueued and executors no longer die, every job ends: whatever has happened before, a claim for
  // each run that is left drains the table, and no job needs more of them than it has runs left.
  lemma Drains(c: Config, es: seq<Event>, rs: seq<Round>)
    requires Run(c, es).work.None? && ReadyRounds(Run(c, es), c, rs) && |rs| >= |Remaining(Run(c, es), c)|
    ensures var t := Rounds(Run(c, es), c, rs);
            AllEnded(t) && (CrashFree(c, es) ==> forall k <- Remaining(Run(c, es), c) :: k.1 < Tries(c))
  {
    RoundsDrain(c, es, rs);
    if CrashFree(c, es) {
      forall k <- Remaining(Run(c, es), c) ensures k.1 < Tries(c) { NoCrashes(c, es, k.0); }
    }
  }

  // ---------------------------------------------------------------- there is always a next claim

  // Past its gate or lease a job that has not ended can be claimed.
  lemma ClaimableLater(c: Config, es: seq<Event>, id: JobId, now: int)
    requires id in Run(c, es).jobs && !Terminal(Run(c, es).jobs[id])
    requires Run(c, es).jobs[id].lease.Some? ==> Run(c, es).jobs[id].lease.value < now
    ensures Claimable(Run(c, es).jobs[id], now)
  {
    RunLeased(c, es, id);
  }

  lemma {:induction false} RunLeased(c: Config, es: seq<Event>, id: JobId)
    ensures id in Run(c, es).jobs && Run(c, es).jobs[id].status == Running ==> Run(c, es).jobs[id].lease.Some?
    decreases |es|
  {
    if es != [] {
      RunLeased(c, es[..|es| - 1], id);
      StepLeased(Run(c, es[..|es| - 1]), c, es[|es| - 1], id);
    }
  }

  lemma StepLeased(s: State, c: Config, e: Event, id: JobId)
    requires id in s.jobs && s.jobs[id].status == Running ==> s.jobs[id].lease.Some?
    ensures var t := Step(s, c, e); id in t.jobs && t.jobs[id].status == Running ==> t.jobs[id].lease.Some?
  {
    hide Backoff;
  }

  // So while some job has not ended there is an oldest claimable one, once gates and leases are past.
  lemma SomeOldest(c: Config, es: seq<Event>, now: int) returns (oldest: JobId)
    requires !AllEnded(Run(c, es))
    requires forall id <- Run(c, es).jobs :: Run(c, es).jobs[id].lease.Some? ==> Run(c, es).jobs[id].lease.value < now
    ensures Oldest(Run(c, es).jobs, oldest, now)
  {
    var jobs := Run(c, es).jobs;
    var some :| some in jobs && !Terminal(jobs[some]);
    ClaimableLater(c, es, some, now);
    hide Run;
    oldest := OldestOf(jobs, jobs.Keys, some, now);
  }

  lemma {:induction false} OldestOf(jobs: map<JobId, Job>, ids: set<JobId>, some: JobId, now: int)
    returns (oldest: JobId)
    requires some in jobs && Claimable(jobs[some], now) && ids <= jobs.Keys
    ensures oldest in jobs && Claimable(jobs[oldest], now) && jobs[oldest].createdAt <= jobs[some].createdAt
    ensures forall id <- ids :: Claimable(jobs[id], now) ==> jobs[oldest].createdAt <= jobs[id].createdAt
    decreases ids
  {
    oldest := some;
    if ids != {} {
      var id :| id in ids;
      var older := Claimable(jobs[id], now) && jobs[id].createdAt < jobs[some].createdAt;
      oldest := OldestOf(jobs, ids - {id}, if older then id else some, now);
    }
  }

  // A time past every lease.
  lemma {:induction false} PastLeases(jobs: map<JobId, Job>, ids: set<JobId>) returns (now: int)
    requires ids <= jobs.Keys
    ensures forall id <- ids :: jobs[id].lease.Some? ==> jobs[id].lease.value < now
    decreases ids
  {
    now := 0;
    if ids != {} {
      var id :| id in ids;
      var rest := PastLeases(jobs, ids - {id});
      now := if jobs[id].lease.Some? && jobs[id].lease.value >= rest then jobs[id].lease.value + 1 else rest;
    }
  }

  // A round that can be gone on with, whatever its end: the next claim uses up a run.
  lemma NextRound(c: Config, es: seq<Event>, end: End) returns (r: Round)
    requires Run(c, es).work.None? && !AllEnded(Run(c, es))
    ensures r.end == end && Oldest(Run(c, es).jobs, r.id, r.claimedAt)
    ensures var t := Process(Run(c, es), c, r);
            && Run(c, es + Events(r)) == t && t.work.None?
            && Remaining(t, c) < Remaining(Run(c, es), c)
  {
    var s := Run(c, es);
    var now := PastLeases(s.jobs, s.jobs.Keys);
    var id := SomeOldest(c, es, now);
    r := Round(id, now, end, now);
    RunKeeps(c, es, id);
    hide Run, Process, Remaining, Oldest, AllEnded, JobInv, Events;
    RoundShrinks(s, c, r);
    RoundIsRun(c, es, r);
  }

  // And so, however the runs end, there are claims that end every job, no more of them than runs are left.
  lemma {:induction false} EveryJobEnds(c: Config, es: seq<Event>, ends: nat -> End) returns (rs: seq<Round>)
    requires Run(c, es).work.None?
    ensures var s := Run(c, es);
            && ReadyRounds(s, c, rs) && AllEnded(Rounds(s, c, rs)) && |rs| <= |Remaining(s, c)|
            && forall i :: 0 <= i < |rs| ==> rs[i].end == ends(i)
    decreases Remaining(Run(c, es), c)
  {
    hide Run, Process, Remaining, Oldest, AllEnded, Events;
    rs := [];
    if !AllEnded(Run(c, es)) {
      var r := NextRound(c, es, ends(0));
      ProperlySmaller(Remaining(Run(c, es + Events(r)), c), Remaining(Run(c, es), c));
      var more := EveryJobEnds(c, es + Events(r), (i: nat) => ends(i + 1));
      rs := [r] + more;
      assert rs[1..] == more;
    }
  }
}
