/** The marked region of the proxy config that src/extensions/boundary.ts rewrites, and nothing else of it. */
module ScopedRegion {
  import opened Text

  predicate OccursAt(s: string, m: string, i: nat) {
    i + |m| <= |s| && s[i..i + |m|] == m
  }

  // indexOf for a string: the first occurrence, or -1.
  function Find(s: string, m: string): (r: int)
    ensures r == -1 || (r >= 0 && OccursAt(s, m, r) && forall k :: 0 <= k < r ==> !OccursAt(s, m, k))
    ensures r == -1 ==> forall k :: 0 <= k ==> !OccursAt(s, m, k)
  {
    FindFrom(s, m, 0)
  }

  function FindFrom(s: string, m: string, i: nat): (r: int)
    requires i <= |s| + 1
    ensures r == -1 || (r >= i && OccursAt(s, m, r) && forall k :: i <= k < r ==> !OccursAt(s, m, k))
    ensures r == -1 ==> forall k :: i <= k ==> !OccursAt(s, m, k)
    decreases |s| + 1 - i
  {
    if i > |s| then -1 else if OccursAt(s, m, i) then i else FindFrom(s, m, i + 1)
  }

  predicate SameFrom(s: string, m: string, i: nat) {
    i + |m| <= |s| && forall k :: 0 <= k < |m| ==> s[i + k] == m[k]
  }

  // Find gives the first place from which the text goes on as the other one does, character by character.
  lemma FindExact(s: string, m: string)
    ensures Find(s, m) >= -1
    ensures Find(s, m) == -1 ==> forall i: nat :: !SameFrom(s, m, i)
    ensures Find(s, m) >= 0 ==> SameFrom(s, m, Find(s, m)) && forall i: nat :: i < Find(s, m) ==> !SameFrom(s, m, i)
  {
    hide Find;
    forall i: nat ensures OccursAt(s, m, i) == SameFrom(s, m, i) { SameAt(s, m, i); }
    hide OccursAt, SameFrom;
  }

  lemma SameAt(s: string, m: string, i: nat)
    ensures OccursAt(s, m, i) == SameFrom(s, m, i)
  {
    if i + |m| <= |s| {
      var t := s[i..i + |m|];
      assert forall k :: 0 <= k < |m| ==> t[k] == s[i + k];
      if SameFrom(s, m, i) { assert t == m; }
    }
  }

  predicate Occurs(s: string, m: string) {
    Find(s, m) >= 0
  }

  // Two marker texts that a config may use: no newline inside, neither overlapping the other.
  predicate Markers(b: string, e: string) {
    && b != "" && e != "" && '\n' !in b && '\n' !in e
    && forall k :: 0 <= k < |b| ==> !Overlaps(b, e, k)
  }

  // `e` could start k characters into `b`.
  predicate Overlaps(b: string, e: string, k: nat)
    requires k < |b|
  {
    var n := if |b| - k < |e| then |b| - k else |e|;
    b[k..k + n] == e[..n]
  }

  function Body(entries: string): string {
    if entries == "" then "\n" else "\n" + entries + "\n"
  }

  // replaceScopedAuthorizationBlock; None where the source throws.
  function Splice(config: string, b: string, e: string, entries: string): Option<string> {
    var begin, end := Find(config, b), Find(config, e);
    if begin == -1 || end == -1 || end < begin then None
    else Some(config[..begin + |b|] + Body(entries) + config[end..])
  }

  // The part between the markers.
  function Region(config: string, b: string, e: string): Option<string> {
    var begin, end := Find(config, b), Find(config, e);
    if begin == -1 || end < begin + |b| then None else Some(config[begin + |b|..end])
  }

  lemma Overlapping(s: string, b: string, e: string, i: nat, k: nat)
    requires OccursAt(s, b, i) && OccursAt(s, e, i + k) && k < |b|
    ensures Overlaps(b, e, k)
  {
    var n := if |b| - k < |e| then |b| - k else |e|;
    forall j | 0 <= j < n ensures b[k..k + n][j] == e[..n][j] {
      CharInside(s, b, i, i + k + j);
      CharInside(s, e, i + k, i + k + j);
    }
  }

  // Markers that do not overlap: the end marker starts after the begin marker ends.
  lemma Apart(s: string, b: string, e: string, i: nat, j: nat)
    requires Markers(b, e) && OccursAt(s, b, i) && OccursAt(s, e, j) && i <= j
    ensures i + |b| <= j
  {
    if j - i < |b| { Overlapping(s, b, e, i, j - i); }
  }

  lemma OccursInPrefix(p: string, more: string, m: string, k: nat)
    requires k + |m| <= |p|
    ensures OccursAt(p + more, m, k) <==> OccursAt(p, m, k)
  {
    assert (p + more)[k..k + |m|] == p[k..k + |m|];
  }

  lemma OccursInSuffix(p: string, s: string, m: string, k: nat)
    ensures OccursAt(p + s, m, |p| + k) <==> OccursAt(s, m, k)
  {
    if k + |m| <= |s| { assert (p + s)[|p| + k..|p| + k + |m|] == s[k..k + |m|]; }
  }

  lemma CharInside(s: string, m: string, k: nat, at: nat)
    requires OccursAt(s, m, k) && k <= at < k + |m|
    ensures s[at] == m[at - k]
  {
    assert s[k..k + |m|][at - k] == s[at];
  }

  // A marker without newlines cannot cover a newline.
  lemma NoNewlineInside(s: string, m: string, k: nat, at: nat)
    requires '\n' !in m && at < |s| && s[at] == '\n' && k <= at < k + |m|
    ensures !OccursAt(s, m, k)
  {
    if OccursAt(s, m, k) { CharInside(s, m, k, at); }
  }

  lemma BodyShape(entries: string)
    ensures var body := Body(entries); body[0] == '\n' && body[|body| - 1] == '\n'
    ensures entries != "" ==> Body(entries) == "\n" + (entries + "\n")
    ensures |Body(entries)| == if entries == "" then 1 else |entries| + 2
  {
  }

  // Inside a body a marker occurs only where it occurs in the entries.
  lemma OccursInBody(entries: string, after: string, m: string, k: nat)
    requires m != "" && '\n' !in m && k < |Body(entries)|
    ensures OccursAt(Body(entries) + after, m, k) <==> k > 0 && OccursAt(entries, m, k - 1)
  {
    var body := Body(entries);
    var all := body + after;
    BodyShape(entries);
    if k == 0 {
      NoNewlineInside(all, m, 0, 0);
    } else if k + |m| >= |body| {
      assert all[|body| - 1] == '\n';
      NoNewlineInside(all, m, k, |body| - 1);
    } else {
      OccursInPrefix(body, after, m, k);
      OccursInSuffix("\n", entries + "\n", m, k - 1);
      OccursInPrefix(entries, "\n", m, k - 1);
    }
  }

  lemma FirstIs(s: string, m: string, i: nat)
    requires OccursAt(s, m, i) && forall k :: 0 <= k < i ==> !OccursAt(s, m, k)
    ensures Find(s, m) == i
  {
  }

  // Where the markers are after a splice: the begin marker where it was, the end marker after the new body, or
  // earlier, in the first entry text that holds it.
  lemma MarkersAfter(config: string, b: string, e: string, entries: string)
    requires Markers(b, e) && Splice(config, b, e, entries).Some?
    ensures var begin, out := Find(config, b), Splice(config, b, e, entries).value;
            var after := begin + |b|;
            && Find(out, b) == begin
            && Find(out, e) == if Occurs(entries, e) then after + 1 + Find(entries, e) else after + |Body(entries)|
  {
    var begin, end := Find(config, b), Find(config, e);
    Apart(config, b, e, begin, end);
    hide Markers;
    hide FindFrom;
    var p, body, rest := config[..begin + |b|], Body(entries), config[end..];
    var out := p + body + rest;
    assert out == p + (body + rest) && config == p + config[begin + |b|..] && config == config[..end] + rest;
    forall k | 0 <= k < begin ensures !OccursAt(out, b, k) {
      OccursInPrefix(p, body + rest, b, k);
      OccursInPrefix(p, config[begin + |b|..], b, k);
    }
    OccursInPrefix(p, body + rest, b, begin);
    OccursInPrefix(p, config[begin + |b|..], b, begin);
    FirstIs(out, b, begin);

    forall k | 0 <= k < |p| ensures !OccursAt(out, e, k) {
      if k + |e| <= |p| {
        OccursInPrefix(p, body + rest, e, k);
        OccursInPrefix(p, config[begin + |b|..], e, k);
      } else {
        BodyShape(entries);
        assert out[|p|] == '\n';
        NoNewlineInside(out, e, k, |p|);
      }
    }
    EndMarkerAfter(p, entries, rest, e);
  }

  lemma EndMarkerAfter(p: string, entries: string, rest: string, e: string)
    requires e != "" && '\n' !in e && OccursAt(rest, e, 0)
    requires forall k :: 0 <= k < |p| ==> !OccursAt(p + Body(entries) + rest, e, k)
    ensures Find(p + Body(entries) + rest, e)
         == |p| + if Occurs(entries, e) then 1 + Find(entries, e) else |Body(entries)|
  {
    var body := Body(entries);
    var tail := body + rest;
    var out := p + body + rest;
    assert out == p + tail;
    var i := if Occurs(entries, e) then 1 + Find(entries, e) else |body|;
    forall k | 0 <= k < |p| + i ensures !OccursAt(out, e, k) {
      if k >= |p| { EndAt(p, entries, rest, e, k - |p|); }
    }
    if Occurs(entries, e) {
      EndAt(p, entries, rest, e, i);
    } else {
      OccursInSuffix(p, tail, e, |body|);
      OccursInSuffix(body, rest, e, 0);
    }
    FirstIs(out, e, |p| + i);
  }

  lemma EndAt(p: string, entries: string, rest: string, e: string, k: nat)
    requires e != "" && '\n' !in e && k < |Body(entries)|
    ensures OccursAt(p + Body(entries) + rest, e, |p| + k) <==> k > 0 && OccursAt(entries, e, k - 1)
  {
    assert p + Body(entries) + rest == p + (Body(entries) + rest);
    OccursInSuffix(p, Body(entries) + rest, e, k);
    OccursInBody(entries, rest, e, k);
  }

  lemma SpliceFinds(config: string, b: string, e: string, entries: string)
    requires Markers(b, e) && Splice(config, b, e, entries).Some?
    ensures e != "" && 0 <= Find(config, b) <= Find(config, e)
  {
    hide Find;
  }

  // What a splice that finds its markers returns.
  lemma SpliceAs(config: string, b: string, e: string, entries: string)
    requires Markers(b, e) && Find(config, b) >= 0 && Find(config, e) >= Find(config, b)
    ensures Find(config, b) + |b| <= Find(config, e) <= |config|
    ensures Splice(config, b, e, entries)
         == Some(config[..Find(config, b) + |b|] + Body(entries) + config[Find(config, e)..])
  {
    hide Markers, Body;
    Apart(config, b, e, Find(config, b), Find(config, e));
  }

  // Every byte outside the region is kept, and the region is exactly the new body.
  lemma SpliceKeepsOutside(config: string, b: string, e: string, entries: string)
    requires Markers(b, e) && Splice(config, b, e, entries).Some? && !Occurs(entries, e)
    ensures var out := Splice(config, b, e, entries).value;
            && Region(out, b, e) == Some(Body(entries))
            && out[..Find(out, b)] == config[..Find(config, b)]
            && out[Find(out, e)..] == config[Find(config, e)..]
  {
    hide Find, OccursAt, Markers, Body, Splice;
    SpliceFinds(config, b, e, entries);
    MarkersAfter(config, b, e, entries);
    SpliceAs(config, b, e, entries);
    var from, to := Find(config, b) + |b|, Find(config, e);
    Around(config[..from], Body(entries), config[to..]);
    assert config[..from][..from - |b|] == config[..from - |b|];
  }

  lemma Around(p: string, body: string, rest: string)
    ensures var out := p + body + rest;
            && out[|p|..|p| + |body|] == body && out[|p| + |body|..] == rest
            && forall k :: 0 <= k <= |p| ==> out[..k] == p[..k]
  {
  }

  // Splicing twice equals splicing the second entries alone exactly when the first hold no end marker.
  lemma SpliceTwice(config: string, b: string, e: string, first: string, second: string)
    requires Markers(b, e) && Splice(config, b, e, first).Some?
    ensures var once := Splice(config, b, e, first).value;
            Splice(once, b, e, second) == Splice(config, b, e, second) <==> !Occurs(first, e)
  {
    hide *;
    SpliceFinds(config, b, e, first);
    MarkersAfter(config, b, e, first);
    SpliceAs(config, b, e, first);
    SpliceAs(config, b, e, second);
    var from, to := Find(config, b) + |b|, Find(config, e);
    var at := if Occurs(first, e) then 1 + Find(first, e) else |Body(first)|;
    BodyBound(first, e);
    SpliceAs(Splice(config, b, e, first).value, b, e, second);
    TwoSplices(config, from, to, Body(first), Body(second), at);
  }

  // An end marker in the entries starts before their body ends.
  lemma BodyBound(entries: string, e: string)
    requires e != ""
    ensures Occurs(entries, e) ==> 0 <= Find(entries, e) && 1 + Find(entries, e) < |Body(entries)|
  {
    FindBound(entries, e);
    BodyShape(entries);
  }

  lemma FindBound(s: string, m: string)
    ensures m != "" && Occurs(s, m) ==> 0 <= Find(s, m) < |s|
  {
  }

  // What follows the second body is the config's own rest, or still some of the first body.
  lemma TwoSplices(config: string, from: nat, to: nat, first: string, second: string, at: nat)
    requires from <= to <= |config| && at <= |first|
    ensures var once := config[..from] + first + config[to..];
            && once[..from] == config[..from] && from + at <= |once|
            && (once[..from] + second + once[from + at..] == config[..from] + second + config[to..] <==> at == |first|)
  {
    var once := config[..from] + first + config[to..];
    assert once[from + |first|..] == config[to..];
    assert |once[..from] + second + once[from + at..]| == from + |second| + |first| - at + (|config| - to);
  }

  // Entries joined by newlines hold a marker only if one of them does.
  lemma {:induction false} JoinHasNone(entries: seq<string>, m: string)
    requires m != "" && '\n' !in m && forall t <- entries :: !Occurs(t, m)
    ensures !Occurs(Join(entries, "\n"), m)
    decreases |entries|
  {
    if entries == [] {
    } else if |entries| == 1 {
      assert entries[0] in entries;
    } else {
      var t, rest := entries[0], Join(entries[1..], "\n");
      var all := t + "\n" + rest;
      assert t in entries && all == t + ("\n" + rest) && all[|t|] == '\n';
      JoinHasNone(entries[1..], m);
      if Occurs(all, m) {
        var k := Find(all, m);
        if k + |m| <= |t| {
          OccursInPrefix(t, "\n" + rest, m, k);
        } else if k <= |t| {
          NoNewlineInside(all, m, k, |t|);
        } else {
          OccursInSuffix(t + "\n", rest, m, k - |t| - 1);
        }
        assert false;
      }
    }
  }
}
