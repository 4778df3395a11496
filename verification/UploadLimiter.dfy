/** The per-client sliding window of src/extensions/upload-link.ts. */
module UploadLimiter {
  // One client: the bucket it keeps, and the history of its accepted attempts.
  datatype Client = Client(bucket: seq<int>, accepted: seq<int>)

  function Within(times: seq<int>, cutoff: int): seq<int> {
    if times == [] then []
    else if times[0] > cutoff then [times[0]] + Within(times[1..], cutoff)
    else Within(times[1..], cutoff)
  }

  function Track(c: Client, now: int, window: nat, max: nat): (bool, Client) {
    var bucket := Within(c.bucket, now - window);
    if |bucket| >= max then (false, c.(bucket := bucket)) else (true, Client(bucket + [now], c.accepted + [now]))
  }

  // Accepted attempts in the half-open window that ends at `end`.
  function InWindow(times: seq<int>, end: int, window: nat): nat {
    if times == [] then 0
    else InWindow(times[..|times| - 1], end, window) + if end - window < times[|times| - 1] <= end then 1 else 0
  }

  ghost predicate Bounded(times: seq<int>, window: nat, max: nat) {
    forall end: int :: InWindow(times, end, window) <= max
  }

  // The bucket holds exactly the accepted attempts past some cutoff no later than the window that ends at `last`.
  ghost predicate Holds(c: Client, last: int, window: nat) {
    exists cutoff :: cutoff <= last - window && c.bucket == Within(c.accepted, cutoff)
  }

  predicate UpTo(times: seq<int>, last: int) {
    forall i :: 0 <= i < |times| ==> times[i] <= last
  }

  ghost predicate Inv(c: Client, last: int, window: nat, max: nat) {
    UpTo(c.accepted, last) && Holds(c, last, window) && Bounded(c.accepted, window, max)
  }

  lemma {:induction false} WithinTwice(times: seq<int>, a: int, b: int)
    requires a <= b
    ensures Within(Within(times, a), b) == Within(times, b)
  {
    if times != [] {
      WithinTwice(times[1..], a, b);
      if times[0] > a { assert ([times[0]] + Within(times[1..], a))[1..] == Within(times[1..], a); }
    }
  }

  lemma {:induction false} WithinAppend(times: seq<int>, t: int, cutoff: int)
    requires t > cutoff
    ensures Within(times + [t], cutoff) == Within(times, cutoff) + [t]
  {
    if times == [] {
      assert times + [t] == [t] && [t][1..] == [];
    } else {
      assert (times + [t])[1..] == times[1..] + [t];
      WithinAppend(times[1..], t, cutoff);
    }
  }

  lemma {:induction false} WithinDrop(times: seq<int>, t: int, cutoff: int)
    requires t <= cutoff
    ensures Within(times + [t], cutoff) == Within(times, cutoff)
  {
    if times == [] {
      assert times + [t] == [t] && [t][1..] == [];
    } else {
      assert (times + [t])[1..] == times[1..] + [t];
      WithinDrop(times[1..], t, cutoff);
    }
  }

  // With every attempt at or before `end`, the window holds what the bucket keeps.
  lemma {:induction false} CountsBucket(times: seq<int>, end: int, window: nat)
    requires UpTo(times, end)
    ensures InWindow(times, end, window) == |Within(times, end - window)|
    decreases |times|
  {
    if times != [] {
      var p, t := times[..|times| - 1], times[|times| - 1];
      assert times == p + [t];
      CountsBucket(p, end, window);
      if t > end - window { WithinAppend(p, t, end - window); } else { WithinDrop(p, t, end - window); }
    }
  }

  // A window that ends later than `now` holds no more of the attempts up to now than the window that ends now.
  lemma {:induction false} LaterHoldsFewer(times: seq<int>, now: int, end: int, window: nat)
    requires now <= end && UpTo(times, now)
    ensures InWindow(times, end, window) <= InWindow(times, now, window)
    decreases |times|
  {
    if times != [] {
      var p := times[..|times| - 1];
      LaterHoldsFewer(p, now, end, window);
    }
  }

  // What the bucket keeps for an attempt now is exactly the accepted attempts in the window that ends now.
  lemma BucketExact(c: Client, last: int, now: int, window: nat)
    requires UpTo(c.accepted, last) && Holds(c, last, window) && last <= now
    ensures Within(c.bucket, now - window) == Within(c.accepted, now - window)
    ensures |Within(c.bucket, now - window)| == InWindow(c.accepted, now, window)
  {
    var cutoff :| cutoff <= last - window && c.bucket == Within(c.accepted, cutoff);
    WithinTwice(c.accepted, cutoff, now - window);
    CountsBucket(c.accepted, now, window);
  }

  lemma BoundedGrows(times: seq<int>, now: int, window: nat, max: nat)
    requires UpTo(times, now) && Bounded(times, window, max) && InWindow(times, now, window) < max
    ensures Bounded(times + [now], window, max)
  {
    var grown := times + [now];
    assert grown[..|grown| - 1] == times;
    forall end: int ensures InWindow(grown, end, window) <= max {
      if end >= now { LaterHoldsFewer(times, now, end, window); }
    }
  }

  // An attempt is accepted exactly when the window ending at it does not already hold the maximum; and then no window
  // holds more than that.
  lemma TrackExact(c: Client, last: int, now: int, window: nat, max: nat)
    requires Inv(c, last, window, max) && last <= now
    ensures var (ok, c') := Track(c, now, window, max);
            && (ok <==> InWindow(c.accepted, now, window) < max)
            && c'.accepted == (if ok then c.accepted + [now] else c.accepted)
            && (window > 0 ==> Inv(c', now, window, max))
  {
    var (ok, c') := Track(c, now, window, max);
    BucketExact(c, last, now, window);
    if window > 0 {
      assert UpTo(c'.accepted, now);
      if ok {
        WithinAppend(c.accepted, now, now - window);
        BoundedGrows(c.accepted, now, window, max);
      }
      assert Holds(c', now, window) by {
        assert now - window <= now - window && c'.bucket == Within(c'.accepted, now - window);
      }
    }
  }

  // ---------------------------------------------------------------- runs

  predicate ClockGrows(from: int, times: seq<int>)
    decreases |times|
  {
    times == [] || (from <= times[0] && ClockGrows(times[0], times[1..]))
  }

  function Run(c: Client, times: seq<int>, window: nat, max: nat): Client
    decreases |times|
  {
    if times == [] then c else Run(Track(c, times[0], window, max).1, times[1..], window, max)
  }

  lemma {:induction false} RunKeeps(c: Client, last: int, times: seq<int>, window: nat, max: nat)
    requires window > 0 && Inv(c, last, window, max) && ClockGrows(last, times)
    ensures var end := if times == [] then last else times[|times| - 1];
            Inv(Run(c, times, window, max), end, window, max)
    decreases |times|
  {
    if times != [] {
      TrackExact(c, last, times[0], window, max);
      hide Inv;
      RunKeeps(Track(c, times[0], window, max).1, times[0], times[1..], window, max);
    }
  }

  // However a client spaces its attempts, no window of that length holds more than the maximum of accepted ones.
  lemma WindowsBounded(times: seq<int>, from: int, window: nat, max: nat, end: int)
    requires window > 0 && ClockGrows(from, times)
    ensures InWindow(Run(Client([], []), times, window, max).accepted, end, window) <= max
  {
    assert from - window <= from - window && [] == Within([], from - window);
    RunKeeps(Client([], []), from, times, window, max);
  }

  // After any run an attempt is refused exactly when the window ending at it holds the maximum already.
  lemma RefusedIffFull(times: seq<int>, from: int, now: int, window: nat, max: nat)
    requires window > 0 && ClockGrows(from, times) && (if times == [] then from else times[|times| - 1]) <= now
    ensures var c := Run(Client([], []), times, window, max);
            Track(c, now, window, max).0 <==> InWindow(c.accepted, now, window) < max
  {
    assert from - window <= from - window && [] == Within([], from - window);
    RunKeeps(Client([], []), from, times, window, max);
    var last := if times == [] then from else times[|times| - 1];
    TrackExact(Run(Client([], []), times, window, max), last, now, window, max);
  }

  // ---------------------------------------------------------------- the store's map of clients

  class UploadLinkStore {
    var attempts: map<string, seq<int>>
    ghost var accepted: map<string, seq<int>>
    const window: nat
    const max: nat

    ghost function State(ip: string): Client
      reads this
    {
      Client(if ip in attempts then attempts[ip] else [], if ip in accepted then accepted[ip] else [])
    }

    constructor (window: nat, max: nat)
      ensures this.window == window && this.max == max && forall ip :: State(ip) == Client([], [])
    {
      this.window, this.max, attempts, accepted := window, max, map[], map[];
    }

    method TrackAttempt(ip: string, now: int) returns (ok: bool)
      modifies this
      ensures (ok, State(ip)) == Track(old(State(ip)), now, window, max)
      ensures forall other :: other != ip ==> State(other) == old(State(other))
    {
      var bucket := Within(if ip in attempts then attempts[ip] else [], now - window);
      if |bucket| >= max {
        attempts := attempts[ip := bucket];
        return false;
      }
      attempts := attempts[ip := bucket + [now]];
      accepted := accepted[ip := (if ip in accepted then accepted[ip] else []) + [now]];
      return true;
    }
  }
}
