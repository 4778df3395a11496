/** Webhook replay protection: the bounded guard of src/ingest/replay-guard.ts and its caller, the webhook route. */
module ReplayGuard {
  import opened Text

  const MAX_TRACKED: nat := 4096

  // One delivery recorded as fresh.
  datatype Fresh = Fresh(key: string, time: int)

  // A tracked key. `at` is its place in the log (a history field, never read).
  datatype Entry = Entry(key: string, expiry: int, at: nat)

  // `entries` in insertion order. History: `log`, every delivery ever recorded as fresh, and `floor`, the place in it
  // up to which entries may have been evicted.
  datatype Guard = Guard(entries: seq<Entry>, log: seq<Fresh>, floor: nat)

  const EMPTY: Guard := Guard([], [], 0)

  // `${provider}:${deliveryId}`
  function DeliveryKey(provider: string, deliveryId: string): string {
    provider + ":" + deliveryId
  }

  lemma KeyInjective(p: string, d: string, q: string, e: string)
    requires ':' !in p && ':' !in q && DeliveryKey(p, d) == DeliveryKey(q, e)
    ensures p == q && d == e
  {
    SplitHead(p, d, ':');
    SplitHead(q, e, ':');
    assert DeliveryKey(p, d)[..|p|] == p && DeliveryKey(p, d)[|p| + 1..] == d;
    assert DeliveryKey(q, e)[..|q|] == q && DeliveryKey(q, e)[|q| + 1..] == e;
  }

  function Expiry(entries: seq<Entry>, key: string): Option<int> {
    if entries == [] then None
    else if entries[0].key == key then Some(entries[0].expiry)
    else Expiry(entries[1..], key)
  }

  function Remove(entries: seq<Entry>, key: string): seq<Entry> {
    if entries == [] then []
    else if entries[0].key == key then Remove(entries[1..], key)
    else [entries[0]] + Remove(entries[1..], key)
  }

  function Evict(g: Guard): Guard {
    if |g.entries| < MAX_TRACKED then g
    else g.(entries := g.entries[1..], floor := g.entries[0].at + 1)
  }

  function IsReplayed(g: Guard, ttl: nat, key: string, now: int): (bool, Guard) {
    var expiry := Expiry(g.entries, key);
    if expiry.Some? && expiry.value > now then (true, g)
    else
      var g1 := Evict(g);
      (false, g1.(entries := Remove(g1.entries, key) + [Entry(key, now + ttl, |g.log|)],
          log := g.log + [Fresh(key, now)]))
  }

  // ---------------------------------------------------------------- the invariant

  // The log place i is the last one of its key.
  predicate Last(log: seq<Fresh>, i: nat)
    requires i < |log|
  {
    forall j :: i < j < |log| ==> log[j].key != log[i].key
  }

  predicate Tracks(e: Entry, log: seq<Fresh>, ttl: nat) {
    e.at < |log| && log[e.at] == Fresh(e.key, e.expiry - ttl) && Last(log, e.at)
  }

  predicate InOrder(entries: seq<Entry>) {
    forall k, m :: 0 <= k < m < |entries| ==> entries[k].at < entries[m].at
  }

  predicate AllTracked(entries: seq<Entry>, log: seq<Fresh>, ttl: nat, floor: nat) {
    forall k :: 0 <= k < |entries| ==> Tracks(entries[k], log, ttl) && entries[k].at >= floor
  }

  ghost predicate NoneMissing(entries: seq<Entry>, log: seq<Fresh>, floor: nat) {
    forall i :: floor <= i < |log| && Last(log, i) ==> exists k :: 0 <= k < |entries| && entries[k].at == i
  }

  predicate UpTo(log: seq<Fresh>, now: int) {
    forall f <- log :: f.time <= now
  }

  predicate TimesGrow(log: seq<Fresh>) {
    forall i, j :: 0 <= i <= j < |log| ==> log[i].time <= log[j].time
  }

  // Fresh twice only once expired, or after more than MAX_TRACKED other recordings.
  predicate Spaced(log: seq<Fresh>, ttl: nat) {
    forall i, j :: 0 <= i < j < |log| && log[i].key == log[j].key ==>
        log[j].time >= log[i].time + ttl || j - i > MAX_TRACKED
  }

  // The entries are the last recordings of each key from `floor` on, oldest first.
  ghost predicate Inv(g: Guard, ttl: nat) {
    && |g.entries| <= MAX_TRACKED
    && InOrder(g.entries)
    && AllTracked(g.entries, g.log, ttl, g.floor) && NoneMissing(g.entries, g.log, g.floor)
    && (g.floor == 0 || g.floor + MAX_TRACKED <= |g.log|)
    && TimesGrow(g.log) && Spaced(g.log, ttl)
  }

  lemma {:induction false} ExpiryFound(entries: seq<Entry>, key: string) returns (k: nat)
    requires Expiry(entries, key).Some?
    ensures k < |entries| && entries[k].key == key && Expiry(entries, key) == Some(entries[k].expiry)
  {
    if entries[0].key == key {
      k := 0;
    } else {
      var j := ExpiryFound(entries[1..], key);
      k := j + 1;
    }
  }

  lemma {:induction false} ExpiryMissing(entries: seq<Entry>, key: string)
    requires Expiry(entries, key).None?
    ensures forall k :: 0 <= k < |entries| ==> entries[k].key != key
  {
    if entries != [] {
      ExpiryMissing(entries[1..], key);
      assert forall k :: 1 <= k < |entries| ==> entries[k] == entries[1..][k - 1];
    }
  }

  // The latest recording of a key, or -1.
  function LastOf(log: seq<Fresh>, key: string): (i: int)
    ensures -1 <= i < |log|
    ensures i >= 0 ==> log[i].key == key && Last(log, i)
    ensures forall j :: i < j < |log| ==> log[j].key != key
  {
    if log == [] then -1
    else if log[|log| - 1].key == key then |log| - 1
    else LastOf(log[..|log| - 1], key)
  }

  // Every key's last recording from `floor` on has its entry.
  lemma TrackedAt(g: Guard, ttl: nat, i: nat) returns (k: nat)
    requires Inv(g, ttl) && g.floor <= i < |g.log| && Last(g.log, i)
    ensures k < |g.entries| && g.entries[k].at == i && g.entries[k].key == g.log[i].key
  {
    k :| 0 <= k < |g.entries| && g.entries[k].at == i;
    assert Tracks(g.entries[k], g.log, ttl);
  }

  // The guard answers "replayed" exactly for a key recorded from `floor` on whose time to live is not over.
  lemma Answers(g: Guard, ttl: nat, key: string, now: int)
    requires Inv(g, ttl)
    ensures var i := LastOf(g.log, key);
            IsReplayed(g, ttl, key, now).0 <==> i >= 0 && i >= g.floor && g.log[i].time + ttl > now
  {
    var i := LastOf(g.log, key);
    var expiry := Expiry(g.entries, key);
    if expiry.Some? {
      var k := ExpiryFound(g.entries, key);
      assert Tracks(g.entries[k], g.log, ttl);
      assert g.entries[k].at == i;
    } else {
      ExpiryMissing(g.entries, key);
      if i >= 0 && i >= g.floor { var k := TrackedAt(g, ttl, i); }
    }
  }

  // The unbounded guard: a set of recordings that only time removes.
  predicate SeenWithin(log: seq<Fresh>, ttl: nat, key: string, now: int) {
    exists i :: 0 <= i < |log| && log[i].key == key && log[i].time + ttl > now
  }

  // The bounded guard never reports a replay the unbounded one would not, and agrees with it on every key recorded
  // with fewer than MAX_TRACKED recordings since.
  lemma AgreesWithUnbounded(g: Guard, ttl: nat, key: string, now: int)
    requires Inv(g, ttl)
    ensures IsReplayed(g, ttl, key, now).0 ==> SeenWithin(g.log, ttl, key, now)
    ensures var i := LastOf(g.log, key);
            i >= 0 && |g.log| - 1 - i < MAX_TRACKED ==>
              (IsReplayed(g, ttl, key, now).0 <==> SeenWithin(g.log, ttl, key, now))
  {
    Answers(g, ttl, key, now);
    var i := LastOf(g.log, key);
    if SeenWithin(g.log, ttl, key, now) {
      var j :| 0 <= j < |g.log| && g.log[j].key == key && g.log[j].time + ttl > now;
      assert j <= i;
    }
  }

  // ---------------------------------------------------------------- preservation

  lemma OldestPlace(g: Guard, ttl: nat)
    requires Inv(g, ttl) && |g.entries| == MAX_TRACKED
    ensures g.entries[0].at + MAX_TRACKED <= |g.log|
  {
    PlacesSpread(g.entries, |g.entries| - 1);
    assert Tracks(g.entries[|g.entries| - 1], g.log, ttl);
  }

  lemma {:induction false} PlacesSpread(entries: seq<Entry>, k: nat)
    requires InOrder(entries) && k < |entries|
    ensures entries[k].at >= entries[0].at + k
    decreases k
  {
    if k > 0 { PlacesSpread(entries, k - 1); }
  }

  // Eviction keeps everything but, until the new recording is logged, the floor's distance.
  lemma EvictKeeps(g: Guard, ttl: nat)
    requires Inv(g, ttl)
    ensures var g1 := Evict(g);
            && |g1.entries| < MAX_TRACKED && InOrder(g1.entries) && g1.log == g.log
            && AllTracked(g1.entries, g.log, ttl, g1.floor) && NoneMissing(g1.entries, g.log, g1.floor)
            && (g1.floor == 0 || g1.floor + MAX_TRACKED <= |g.log| + 1) && g1.floor >= g.floor
  {
    var g1 := Evict(g);
    if |g.entries| == MAX_TRACKED {
      OldestPlace(g, ttl);
      assert forall k :: 0 <= k < |g1.entries| ==>
          g1.entries[k] == g.entries[k + 1] && g.entries[0].at < g.entries[k + 1].at;
      forall i | g1.floor <= i < |g.log| && Last(g.log, i)
        ensures exists k :: 0 <= k < |g1.entries| && g1.entries[k].at == i
      {
        var k :| 0 <= k < |g.entries| && g.entries[k].at == i;
        assert k > 0 && g1.entries[k - 1].at == i;
      }
    }
  }

  lemma {:induction false} RemoveMembers(entries: seq<Entry>, key: string)
    ensures var r := Remove(entries, key); |r| <= |entries| && forall e :: e in r <==> e in entries && e.key != key
    decreases |entries|
  {
    if entries != [] {
      RemoveMembers(entries[1..], key);
      assert entries == [entries[0]] + entries[1..];
    }
  }

  lemma {:induction false} RemoveKeeps(entries: seq<Entry>, key: string)
    requires InOrder(entries)
    ensures InOrder(Remove(entries, key))
    decreases |entries|
  {
    if entries != [] {
      var rest := entries[1..];
      RemoveKeeps(rest, key);
      RemoveMembers(rest, key);
      var q := Remove(rest, key);
      forall m | 0 <= m < |q| ensures entries[0].at < q[m].at {
        assert q[m] in rest;
        var k :| 0 <= k < |rest| && rest[k] == q[m];
        assert entries[k + 1] == q[m];
      }
    }
  }

  lemma Record(g: Guard, ttl: nat, key: string, now: int)
    requires Inv(g, ttl) && !IsReplayed(g, ttl, key, now).0 && UpTo(g.log, now)
    ensures Inv(IsReplayed(g, ttl, key, now).1, ttl)
  {
    Answers(g, ttl, key, now);
    EvictKeeps(g, ttl);
    var g1 := Evict(g);
    RemoveMembers(g1.entries, key);
    RecordSpaced(g, ttl, key, now);
    RecordTracked(g1.entries, g.log, g1.floor, ttl, key, now);
    RecordMissing(g1.entries, g.log, g1.floor, ttl, key, now);
  }

  lemma RecordSpaced(g: Guard, ttl: nat, key: string, now: int)
    requires Inv(g, ttl) && UpTo(g.log, now)
    requires var i := LastOf(g.log, key); !(i >= 0 && i >= g.floor && g.log[i].time + ttl > now)
    ensures TimesGrow(g.log + [Fresh(key, now)]) && Spaced(g.log + [Fresh(key, now)], ttl)
  {
    var log := g.log + [Fresh(key, now)];
    var last := LastOf(g.log, key);
    forall i, j | 0 <= i < j < |log| && log[i].key == log[j].key
      ensures log[j].time >= log[i].time + ttl || j - i > MAX_TRACKED
    {
      if j == |g.log| {
        assert i <= last;
      } else {
        assert g.log[i] == log[i] && g.log[j] == log[j];
      }
    }
    forall i, j | 0 <= i <= j < |log| ensures log[i].time <= log[j].time {
      if j == |g.log| && i < j { assert g.log[i] in g.log; }
    }
  }

  lemma LastGrows(log: seq<Fresh>, f: Fresh, i: nat)
    requires i < |log|
    ensures Last(log + [f], i) <==> Last(log, i) && log[i].key != f.key
  {
    var grown := log + [f];
    assert grown[|log|] == f && forall j :: 0 <= j < |log| ==> grown[j] == log[j];
    if Last(log, i) && log[i].key != f.key {
      assert Last(grown, i);
    }
    if Last(grown, i) {
      assert grown[|log|].key != grown[i].key;
      forall j | i < j < |log| ensures log[j].key != log[i].key { assert grown[j].key != grown[i].key; }
    }
  }

  lemma RecordTracked(entries: seq<Entry>, log: seq<Fresh>, floor: nat, ttl: nat, key: string, now: int)
    requires InOrder(entries) && floor <= |log| && AllTracked(entries, log, ttl, floor)
    ensures var entries' := Remove(entries, key) + [Entry(key, now + ttl, |log|)];
            InOrder(entries') && AllTracked(entries', log + [Fresh(key, now)], ttl, floor)
  {
    var f := Fresh(key, now);
    var kept := Remove(entries, key);
    RemoveKeeps(entries, key);
    RemoveMembers(entries, key);
    hide Last;
    forall k | 0 <= k < |kept| ensures Tracks(kept[k], log + [f], ttl) && floor <= kept[k].at < |log| {
      assert kept[k] in kept;
      var m :| 0 <= m < |entries| && entries[m] == kept[k];
      assert Tracks(entries[m], log, ttl);
      LastGrows(log, f, kept[k].at);
    }
    assert Last(log + [f], |log|) by { LastIsLast(log, f); }
  }

  lemma LastIsLast(log: seq<Fresh>, f: Fresh)
    ensures Last(log + [f], |log|)
  {
  }

  lemma RecordMissing(entries: seq<Entry>, log: seq<Fresh>, floor: nat, ttl: nat, key: string, now: int)
    requires InOrder(entries) && AllTracked(entries, log, ttl, floor) && NoneMissing(entries, log, floor)
    ensures NoneMissing(Remove(entries, key) + [Entry(key, now + ttl, |log|)], log + [Fresh(key, now)], floor)
  {
    var f := Fresh(key, now);
    var kept := Remove(entries, key);
    var entries' := kept + [Entry(key, now + ttl, |log|)];
    RemoveMembers(entries, key);
    hide Last;
    forall i | floor <= i < |log| + 1 && Last(log + [f], i)
      ensures exists k :: 0 <= k < |entries'| && entries'[k].at == i
    {
      if i == |log| {
        assert entries'[|kept|].at == i;
      } else {
        LastGrows(log, f, i);
        var m :| 0 <= m < |entries| && entries[m].at == i;
        assert Tracks(entries[m], log, ttl);
        assert entries[m] in kept;
        var k :| 0 <= k < |kept| && kept[k] == entries[m];
        assert entries'[k].at == i;
      }
    }
  }

  // ---------------------------------------------------------------- runs of the route

  // What happens to a delivery after the guard: it is malformed, invalid or stale; it is valid and asks for nothing;
  // the dispatcher's own validation drops it; dispatching fails and the provider is told to retry; or it is dispatched.
  datatype After = Rejected | NotActionable | Dropped | DispatchThrew | Dispatched

  // A verified delivery; the id is the provider's header, if any.
  datatype Delivery = Delivery(provider: string, id: Option<string>, now: int, after: After)

  // Deliveries without an id, or with a blank one, bypass the guard.
  predicate Guarded(d: Delivery) {
    d.id.Some? && Trim(d.id.value) != ""
  }

  // Whether the delivery passes the guard, and the guard after it. The guard records it here, before anything else.
  function Deliver(g: Guard, ttl: nat, d: Delivery): (bool, Guard) {
    if !Guarded(d) then (true, g)
    else
      var (replayed, g') := IsReplayed(g, ttl, DeliveryKey(d.provider, d.id.value), d.now);
      (!replayed, g')
  }

  // A delivery with no id, or one of white space only, passes and is not recorded; any other is asked for by its key.
  lemma DeliverExact(g: Guard, ttl: nat, d: Delivery)
    ensures var blank := d.id.None? || forall c <- d.id.value :: IsSpace(c);
            && (blank ==> Deliver(g, ttl, d) == (true, g))
            && (!blank ==>
                  var (replayed, g') := IsReplayed(g, ttl, DeliveryKey(d.provider, d.id.value), d.now);
                  Deliver(g, ttl, d) == (!replayed, g'))
  {
    hide IsReplayed, DeliveryKey;
    if d.id.Some? { TrimNothing(d.id.value); }
  }

  // The route's answer: 200, a client error, or the 500 that asks the provider to send the delivery again.
  datatype Answer = Acknowledged | BadRequest | SendAgain

  function Answered(passes: bool, after: After): Answer {
    if !passes then Acknowledged
    else match after
      case Rejected => BadRequest
      case DispatchThrew => SendAgain
      case _ => Acknowledged
  }

  // The provider is asked to send a delivery again exactly when it passed and dispatching it failed.
  lemma AnswerExact(passes: bool, after: After)
    ensures Answered(passes, after) == SendAgain <==> passes && after == DispatchThrew
    ensures Answered(passes, after) == BadRequest <==> passes && after == Rejected
  {
  }

  function Run(g: Guard, ttl: nat, ds: seq<Delivery>): Guard
    decreases |ds|
  {
    if ds == [] then g else Run(Deliver(g, ttl, ds[0]).1, ttl, ds[1..])
  }

  // The guarded deliveries that pass the guard in a run, in order. Only those that end Dispatched are dispatched.
  function Passed(g: Guard, ttl: nat, ds: seq<Delivery>): seq<Delivery>
    decreases |ds|
  {
    if ds == [] then []
    else
      var (ok, g') := Deliver(g, ttl, ds[0]);
      (if ok && Guarded(ds[0]) then [ds[0]] else []) + Passed(g', ttl, ds[1..])
  }

  predicate ClockGrows(from: int, ds: seq<Delivery>)
    decreases |ds|
  {
    ds == [] || (from <= ds[0].now && ClockGrows(ds[0].now, ds[1..]))
  }

  // No delivery comes at an earlier time than one before it.
  lemma {:induction false} ClockGrowsExact(from: int, ds: seq<Delivery>)
    ensures ClockGrows(from, ds) <==>
              && (forall i :: 0 <= i < |ds| ==> from <= ds[i].now)
              && forall i, j :: 0 <= i < j < |ds| ==> ds[i].now <= ds[j].now
    decreases |ds|
  {
    if ds != [] {
      var rest := ds[1..];
      ClockGrowsExact(ds[0].now, rest);
      assert forall i :: 0 <= i < |rest| ==> rest[i] == ds[i + 1];
      assert forall i :: 0 < i < |ds| ==> ds[i] == rest[i - 1];
    }
  }

  // The log is the record of the guarded deliveries that passed.
  predicate Logs(ds: seq<Delivery>, log: seq<Fresh>) {
    |ds| == |log| && forall i :: 0 <= i < |ds| ==>
        Guarded(ds[i]) && log[i] == Fresh(DeliveryKey(ds[i].provider, ds[i].id.value), ds[i].now)
  }

  lemma UpToLater(log: seq<Fresh>, now: int, later: int)
    requires UpTo(log, now) && now <= later
    ensures UpTo(log, later)
  {
  }

  lemma DeliverKeeps(g: Guard, ttl: nat, past: seq<Delivery>, d: Delivery)
    requires Inv(g, ttl) && UpTo(g.log, d.now)
    ensures var (ok, g') := Deliver(g, ttl, d);
            && Inv(g', ttl) && UpTo(g'.log, d.now)
            && (Logs(past, g.log) ==> Logs(past + (if ok && Guarded(d) then [d] else []), g'.log))
  {
    if !Guarded(d) {
      assert past + [] == past;
    } else {
      var key := DeliveryKey(d.provider, d.id.value);
      if !IsReplayed(g, ttl, key, d.now).0 { Record(g, ttl, key, d.now); }
    }
  }

  lemma {:induction false} RunKeeps(g: Guard, ttl: nat, past: seq<Delivery>, ds: seq<Delivery>, from: int)
    requires Inv(g, ttl) && UpTo(g.log, from) && ClockGrows(from, ds) && Logs(past, g.log)
    ensures Inv(Run(g, ttl, ds), ttl) && Logs(past + Passed(g, ttl, ds), Run(g, ttl, ds).log)
    ensures UpTo(Run(g, ttl, ds).log, if ds == [] then from else ds[|ds| - 1].now)
    decreases |ds|
  {
    hide Inv, IsReplayed, Deliver, Logs, UpTo;
    if ds == [] {
      assert past + [] == past;
    } else {
      UpToLater(g.log, from, ds[0].now);
      DeliverKeeps(g, ttl, past, ds[0]);
      var (ok, g') := Deliver(g, ttl, ds[0]);
      var mine := if ok && Guarded(ds[0]) then [ds[0]] else [];
      RunKeeps(g', ttl, past + mine, ds[1..], ds[0].now);
      assert past + (mine + Passed(g', ttl, ds[1..])) == past + mine + Passed(g', ttl, ds[1..]);
    }
  }

  lemma EmptyInv(ttl: nat)
    ensures Inv(EMPTY, ttl)
  {
  }

  // Over any run the guard never tracks more than MAX_TRACKED keys and keeps them in expiry order.
  lemma GuardBounded(ttl: nat, ds: seq<Delivery>, from: int)
    requires ClockGrows(from, ds)
    ensures var g := Run(EMPTY, ttl, ds);
            && |g.entries| <= MAX_TRACKED
            && (forall k, m :: 0 <= k < m < |g.entries| ==> g.entries[k].expiry <= g.entries[m].expiry)
  {
    RunKeeps(EMPTY, ttl, [], ds, from);
    var g := Run(EMPTY, ttl, ds);
    forall k, m | 0 <= k < m < |g.entries| ensures g.entries[k].expiry <= g.entries[m].expiry {
      assert Tracks(g.entries[k], g.log, ttl) && Tracks(g.entries[m], g.log, ttl);
    }
  }

  predicate SameId(d: Delivery, e: Delivery) {
    d.provider == e.provider && d.id == e.id
  }

  // Over any run a delivery passes again, and so is dispatched again, only after its time to live or after MAX_TRACKED
  // others have passed.
  lemma DispatchedOnce(ttl: nat, ds: seq<Delivery>, from: int)
    requires ClockGrows(from, ds)
    ensures var passed := Passed(EMPTY, ttl, ds);
            forall i, j :: 0 <= i < j < |passed| && SameId(passed[i], passed[j]) ==>
              passed[j].now >= passed[i].now + ttl || j - i > MAX_TRACKED
  {
    RunKeeps(EMPTY, ttl, [], ds, from);
    var passed := Passed(EMPTY, ttl, ds);
    assert [] + passed == passed;
    hide Run, Passed;
    SpacedPasses(passed, Run(EMPTY, ttl, ds).log, ttl);
  }

  lemma SpacedPasses(passed: seq<Delivery>, log: seq<Fresh>, ttl: nat)
    requires Logs(passed, log) && Spaced(log, ttl)
    ensures forall i, j :: 0 <= i < j < |passed| && SameId(passed[i], passed[j]) ==>
              passed[j].now >= passed[i].now + ttl || j - i > MAX_TRACKED
  {
    hide DeliveryKey, Guarded;
    forall i, j | 0 <= i < j < |passed| && SameId(passed[i], passed[j])
      ensures passed[j].now >= passed[i].now + ttl || j - i > MAX_TRACKED
    {
      assert log[i].key == log[j].key;
    }
  }

  // The k-th pass dispatched the same provider's delivery of the same id, less than the time to live before d.
  predicate SentBefore(passed: seq<Delivery>, k: nat, ttl: nat, d: Delivery) {
    k < |passed| && SameId(passed[k], d) && passed[k].after.Dispatched? && d.now < passed[k].now + ttl
  }

  // With colon-free provider names (the route's path pattern admits no other), a refused delivery repeats a pass less
  // than the time to live before: the last one of that provider and id. Among it and the MAX_TRACKED passes before it
  // the delivery was really dispatched exactly when that last pass got past every step after the guard.
  lemma RefusedIsReplay(ttl: nat, ds: seq<Delivery>, from: int, d: Delivery) returns (last: nat)
    requires ClockGrows(from, ds) && from <= d.now && (ds == [] || ds[|ds| - 1].now <= d.now)
    requires ':' !in d.provider && forall e <- Passed(EMPTY, ttl, ds) :: ':' !in e.provider
    requires !Deliver(Run(EMPTY, ttl, ds), ttl, d).0
    ensures var passed := Passed(EMPTY, ttl, ds);
            && last < |passed| && SameId(passed[last], d) && d.now < passed[last].now + ttl
            && (forall k :: last < k < |passed| ==> !SameId(passed[k], d))
            && ((exists k :: last - MAX_TRACKED <= k <= last && 0 <= k && SentBefore(passed, k, ttl, d))
                <==> passed[last].after.Dispatched?)
  {
    EmptyInv(ttl);
    RunKeeps(EMPTY, ttl, [], ds, from);
    var g, passed := Run(EMPTY, ttl, ds), Passed(EMPTY, ttl, ds);
    assert [] + passed == passed;
    DispatchedOnce(ttl, ds, from);
    UpToLater(g.log, if ds == [] then from else ds[|ds| - 1].now, d.now);
    hide Run, Passed, Deliver, Inv, Spaced, Trim, SameId, Logs, UpTo, SentBefore;
    last := RefusedRepeats(g, passed, ttl, d);
    LastSent(passed, last, ttl, d);
  }

  lemma RefusedRepeats(g: Guard, passed: seq<Delivery>, ttl: nat, d: Delivery) returns (last: nat)
    requires Inv(g, ttl) && Logs(passed, g.log) && UpTo(g.log, d.now) && !Deliver(g, ttl, d).0
    requires ':' !in d.provider && forall e <- passed :: ':' !in e.provider
    ensures last < |passed| && SameId(passed[last], d) && passed[last].now <= d.now < passed[last].now + ttl
    ensures forall k :: last < k < |passed| ==> !SameId(passed[k], d)
  {
    var key := DeliveryKey(d.provider, d.id.value);
    Answers(g, ttl, key, d.now);
    hide Inv, IsReplayed, DeliveryKey, Trim;
    last := LastOf(g.log, key);
    assert passed[last] in passed;
    KeyInjective(passed[last].provider, passed[last].id.value, d.provider, d.id.value);
    forall k | last < k < |passed| ensures !SameId(passed[k], d) {
      assert g.log[k].key != key;
    }
  }

  lemma LastSent(passed: seq<Delivery>, last: nat, ttl: nat, d: Delivery)
    requires last < |passed| && SameId(passed[last], d) && passed[last].now <= d.now < passed[last].now + ttl
    requires forall i, j :: 0 <= i < j < |passed| && SameId(passed[i], passed[j]) ==>
               passed[j].now >= passed[i].now + ttl || j - i > MAX_TRACKED
    ensures (exists k :: last - MAX_TRACKED <= k <= last && 0 <= k && SentBefore(passed, k, ttl, d))
            <==> passed[last].after.Dispatched?
  {
    if k :| last - MAX_TRACKED <= k <= last && 0 <= k && SentBefore(passed, k, ttl, d) {
      assert k < last ==> SameId(passed[k], passed[last]);
    }
    if passed[last].after.Dispatched? {
      assert SentBefore(passed, last, ttl, d);
    }
  }

  lemma {:induction false} RunTwice(g: Guard, ttl: nat, ds: seq<Delivery>, more: seq<Delivery>)
    ensures Run(g, ttl, ds + more) == Run(Run(g, ttl, ds), ttl, more)
    decreases |ds|
  {
    hide Deliver;
    if ds == [] {
      assert ds + more == more;
    } else {
      assert (ds + more)[1..] == ds[1..] + more;
      RunTwice(Deliver(g, ttl, ds[0]).1, ttl, ds[1..], more);
    }
  }

  lemma {:induction false} LogExtends(g: Guard, ttl: nat, ds: seq<Delivery>)
    ensures g.log <= Run(g, ttl, ds).log && |Run(g, ttl, ds).log| == |g.log| + |Passed(g, ttl, ds)|
    decreases |ds|
  {
    if ds != [] {
      var g' := Deliver(g, ttl, ds[0]).1;
      LogExtends(g', ttl, ds[1..]);
    }
  }

  predicate Tracked(g: Guard, key: string) {
    exists e <- g.entries :: e.key == key
  }

  // Within the time to live of a recording of the key, the guard answers "replayed" exactly while it tracks the key.
  lemma AnswersWithin(g: Guard, ttl: nat, key: string, at: nat, now: int)
    requires Inv(g, ttl) && at < |g.log| && g.log[at].key == key && now < g.log[at].time + ttl
    ensures IsReplayed(g, ttl, key, now).0 <==> Tracked(g, key)
    ensures |g.log| - at <= MAX_TRACKED ==> Tracked(g, key)
  {
    Answers(g, ttl, key, now);
    var i := LastOf(g.log, key);
    assert i >= at && g.log[i].time >= g.log[at].time;
    hide IsReplayed;
    if i >= g.floor { var k := TrackedAt(g, ttl, i); assert Tracks(g.entries[k], g.log, ttl); }
    if e :| e in g.entries && e.key == key {
      var k :| 0 <= k < |g.entries| && g.entries[k] == e;
      assert Tracks(e, g.log, ttl) && e.at == i;
    }
  }

  // The failing case, after any run: dispatching throws and asks for the delivery again. A retry within the time to
  // live carries the same id, so it is refused and acknowledged exactly while the guard still tracks the id. It does
  // unless MAX_TRACKED others have passed meanwhile.
  lemma RetryRefused(ttl: nat, ds: seq<Delivery>, first: Delivery, between: seq<Delivery>, retry: Delivery, from: int)
    requires ClockGrows(from, ds + [first] + between)
    requires Guarded(first) && Deliver(Run(EMPTY, ttl, ds), ttl, first).0
    requires first.after.DispatchThrew? && SameId(first, retry) && retry.now < first.now + ttl
    ensures Answered(true, first.after) == SendAgain && Answered(false, retry.after) == Acknowledged
    ensures var g := Run(EMPTY, ttl, ds + [first] + between);
            var since := Passed(Run(EMPTY, ttl, ds + [first]), ttl, between);
            && (!Deliver(g, ttl, retry).0 <==> Tracked(g, DeliveryKey(first.provider, first.id.value)))
            && (|since| < MAX_TRACKED ==> !Deliver(g, ttl, retry).0)
  {
    var key := DeliveryKey(first.provider, first.id.value);
    var g0 := Run(EMPTY, ttl, ds);
    var g1 := Run(EMPTY, ttl, ds + [first]);
    var g := Run(EMPTY, ttl, ds + [first] + between);
    RunTwice(EMPTY, ttl, ds, [first]);
    assert g1 == Deliver(g0, ttl, first).1 by { assert [first][1..] == []; }
    assert g1.log == g0.log + [Fresh(key, first.now)];
    RunTwice(EMPTY, ttl, ds + [first], between);
    LogExtends(g1, ttl, between);
    EmptyInv(ttl);
    RunKeeps(EMPTY, ttl, [], ds + [first] + between, from);
    hide Inv, Run, Passed, IsReplayed, Tracked, Trim;
    assert g.log[|g0.log|] == Fresh(key, first.now);
    AnswersWithin(g, ttl, key, |g0.log|, retry.now);
  }

  // ---------------------------------------------------------------- the guard object

  // `recorded` numbers the entries for the history; the source has no such counter.
  class Tracker {
    var entries: seq<Entry>
    var recorded: nat
    ghost var log: seq<Fresh>
    ghost var floor: nat
    const ttl: nat

    ghost predicate Numbered()
      reads this
    {
      recorded == |log|
    }

    ghost function State(): Guard
      reads this
    {
      Guard(entries, log, floor)
    }

    constructor (ttl: nat)
      ensures Numbered() && State() == EMPTY && this.ttl == ttl
    {
      this.ttl, entries, recorded, log, floor := ttl, [], 0, [], 0;
    }

    method CheckReplay(provider: string, deliveryId: string, now: int) returns (replayed: bool)
      requires Numbered()
      modifies this
      ensures Numbered()
      ensures (replayed, State()) == IsReplayed(old(State()), ttl, DeliveryKey(provider, deliveryId), now)
    {
      var key := DeliveryKey(provider, deliveryId);
      var expiry := Expiry(entries, key);
      if expiry.Some? && expiry.value > now { return true; }
      if |entries| >= MAX_TRACKED {
        floor := entries[0].at + 1;
        entries := entries[1..];
      }
      entries := Remove(entries, key) + [Entry(key, now + ttl, recorded)];
      log, recorded := log + [Fresh(key, now)], recorded + 1;
      return false;
    }
  }
}
