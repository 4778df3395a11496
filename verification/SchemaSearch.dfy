/** The `$ref`-following schema search of src/memory/mem0.ts. */
module SchemaSearch {
  // Whether an OpenAPI schema advertises a field. A parsed JSON document is a tree, so an object's identity is its path
  // from the root.

  import opened Text

  datatype Json = Null | Bool(b: bool) | Number(n: real) | Str(s: string) | Arr(items: seq<Json>)
                | Obj(members: seq<Member>)

  datatype Member = Member(key: string, value: Json)

  datatype Step = Key(key: string) | Index(index: nat)

  type Path = seq<Step>

  // ---------------------------------------------------------------- documents

  function Find(members: seq<Member>, key: string): Option<Json> {
    if members == [] then None
    else if members[0].key == key then Some(members[0].value)
    else Find(members[1..], key)
  }

  // The value of an own key; None where JavaScript has `undefined`.
  function Get(j: Json, key: string): Option<Json> {
    if j.Obj? then Find(j.members, key) else None
  }

  function Child(j: Json, step: Step): Option<Json> {
    match step
    case Key(k) => Get(j, k)
    case Index(i) => if j.Arr? && i < |j.items| then Some(j.items[i]) else None
  }

  function At(j: Json, p: Path): Option<Json>
    decreases |p|
  {
    if p == [] then Some(j)
    else match Child(j, p[0]) case None => None case Some(c) => At(c, p[1..])
  }

  lemma {:induction false} AtAppend(j: Json, p: Path, step: Step)
    ensures At(j, p + [step]) == match At(j, p) case None => None case Some(c) => Child(c, step)
    decreases |p|
  {
    if p == [] {
      assert p + [step] == [step];
    } else {
      assert (p + [step])[1..] == p[1..] + [step];
      match Child(j, p[0]) {
        case None =>
        case Some(c) => AtAppend(c, p[1..], step);
      }
    }
  }

  // ---------------------------------------------------------------- JSON pointers

  // replaceAll of the two characters x y by one.
  function ReplacePair(s: string, x: char, y: char, c: char): string {
    if s == "" then ""
    else if |s| >= 2 && s[0] == x && s[1] == y then [c] + ReplacePair(s[2..], x, y, c)
    else [s[0]] + ReplacePair(s[1..], x, y, c)
  }

  function Unescape(segment: string): string {
    ReplacePair(ReplacePair(segment, '~', '1', '/'), '~', '0', '~')
  }

  function Segments(ref: string): seq<string>
    requires StartsWith(ref, "#/")
  {
    Split(ref[2..], '/')
  }

  // Where a chain of segments leads from an object; None once a key is missing.
  function Follow(doc: Json, p: Path, segments: seq<string>): Option<Path>
    decreases |segments|
  {
    if segments == [] then Some(p)
    else
      var next := p + [Key(Unescape(segments[0]))];
      if At(doc, next).None? then None else Follow(doc, next, segments[1..])
  }

  function Resolve(doc: Json, ref: string): Option<Path> {
    if !StartsWith(ref, "#/") then None else Follow(doc, [], Segments(ref))
  }

  // ---------------------------------------------------------------- schemas

  predicate IsObject(doc: Json, p: Path) {
    At(doc, p).Some? && At(doc, p).value.Obj?
  }

  predicate HasField(j: Json, field: string) {
    var properties := Get(j, "properties");
    properties.Some? && Get(properties.value, field).Some?
  }

  // A string `$ref`.
  function RefOf(j: Json): Option<string> {
    match Get(j, "$ref")
    case Some(Str(s)) => Some(s)
    case _ => None
  }

  function Variants(j: Json, p: Path, key: string): (ps: seq<Path>)
    ensures forall q <- ps :: |q| == |p| + 2
  {
    match Get(j, key)
    case Some(Arr(items)) => seq(|items|, i requires 0 <= i < |items| => p + [Key(key), Index(i)])
    case _ => []
  }

  function AllVariants(j: Json, p: Path): seq<Path> {
    Variants(j, p, "allOf") + Variants(j, p, "anyOf") + Variants(j, p, "oneOf")
  }

  // What a schema refers to: its `$ref` alone if that is a string, else its variants.
  function Successors(doc: Json, p: Path): seq<Path> {
    if !IsObject(doc, p) then []
    else
      var j := At(doc, p).value;
      match RefOf(j)
      case None => AllVariants(j, p)
      case Some(ref) => match Resolve(doc, ref) case None => [] case Some(q) => [q]
  }

  predicate Advertises(doc: Json, p: Path, field: string) {
    IsObject(doc, p) && HasField(At(doc, p).value, field)
  }

  // ---------------------------------------------------------------- the search

  ghost function AllPaths(j: Json): set<Path> {
    match j
    case Arr(items) => {[]} + set i, p | 0 <= i < |items| && p in AllPaths(items[i]) :: [Index(i)] + p
    case Obj(members) =>
      {[]} + set i, p | 0 <= i < |members| && p in AllPaths(members[i].value) :: [Key(members[i].key)] + p
    case _ => {[]}
  }

  lemma {:induction false} FindMember(members: seq<Member>, key: string) returns (i: nat)
    requires Find(members, key).Some?
    ensures i < |members| && members[i].key == key && members[i].value == Find(members, key).value
  {
    if members[0].key == key {
      i := 0;
    } else {
      var k := FindMember(members[1..], key);
      i := k + 1;
    }
  }

  lemma {:induction false} AtInAllPaths(j: Json, p: Path)
    requires At(j, p).Some?
    ensures p in AllPaths(j)
    decreases |p|
  {
    if p != [] {
      var c := Child(j, p[0]).value;
      AtInAllPaths(c, p[1..]);
      assert p == [p[0]] + p[1..];
      if p[0].Key? { var i := FindMember(j.members, p[0].key); }
    }
  }

  ghost function Unseen(doc: Json, seen: set<Path>): nat {
    |AllPaths(doc) - seen|
  }

  lemma VisitShrinks(doc: Json, p: Path, seen: set<Path>)
    requires At(doc, p).Some? && p !in seen
    ensures Unseen(doc, seen + {p}) < Unseen(doc, seen)
  {
    AtInAllPaths(doc, p);
    assert AllPaths(doc) - (seen + {p}) == (AllPaths(doc) - seen) - {p};
  }

  lemma SeenShrinks(doc: Json, seen: set<Path>, more: set<Path>)
    requires seen <= more
    ensures Unseen(doc, more) <= Unseen(doc, seen)
  {
    var a, b := AllPaths(doc) - more, AllPaths(doc) - seen;
    assert b == a + (b - a);
  }

  // The search with its shared visited set: the answer and the set it leaves.
  ghost function Search(doc: Json, p: Path, field: string, seen: set<Path>): (r: (bool, set<Path>))
    ensures seen <= r.1
    decreases Unseen(doc, seen), 0, 0
  {
    if !IsObject(doc, p) || p in seen then (false, seen)
    else
      var seen1 := seen + {p};
      if HasField(At(doc, p).value, field) then (true, seen1)
      else
        VisitShrinks(doc, p, seen);
        SearchAny(doc, Successors(doc, p), field, seen1)
  }

  // Array.some over the successors.
  ghost function SearchAny(doc: Json, ps: seq<Path>, field: string, seen: set<Path>): (r: (bool, set<Path>))
    ensures seen <= r.1
    decreases Unseen(doc, seen), 1, |ps|
  {
    if ps == [] then (false, seen)
    else
      var (found, seen1) := Search(doc, ps[0], field, seen);
      if found then (true, seen1)
      else
        SeenShrinks(doc, seen, seen1);
        SearchAny(doc, ps[1..], field, seen1)
  }

  lemma OnlySuccessor(doc: Json, q: Path, field: string, seen: set<Path>)
    ensures SearchAny(doc, [q], field, seen) == Search(doc, q, field, seen)
  {
    hide Search;
    assert [q][1..] == [];
    assert SearchAny(doc, [], field, Search(doc, q, field, seen).1) == (false, Search(doc, q, field, seen).1);
  }

  lemma NoSuccessor(doc: Json, field: string, seen: set<Path>)
    ensures SearchAny(doc, [], field, seen) == (false, seen)
  {
  }

  // ---------------------------------------------------------------- reachability

  predicate Chain(doc: Json, ps: seq<Path>) {
    ps != [] && forall i :: 0 <= i < |ps| - 1 ==> ps[i + 1] in Successors(doc, ps[i])
  }

  // A chain from p to a schema whose properties hold the field.
  predicate Reaches(doc: Json, p: Path, field: string, ps: seq<Path>) {
    Chain(doc, ps) && ps[0] == p && Advertises(doc, ps[|ps| - 1], field)
  }

  lemma ChainCons(doc: Json, p: Path, ps: seq<Path>)
    requires Chain(doc, ps) && ps[0] in Successors(doc, p)
    ensures Chain(doc, [p] + ps)
  {
    var all := [p] + ps;
    forall i | 0 <= i < |all| - 1 ensures all[i + 1] in Successors(doc, all[i]) {
      if i > 0 { assert all[i] == ps[i - 1] && all[i + 1] == ps[i]; }
    }
  }

  lemma {:induction false} FoundReaches(doc: Json, p: Path, field: string, seen: set<Path>) returns (ps: seq<Path>)
    requires Search(doc, p, field, seen).0
    ensures Reaches(doc, p, field, ps)
    decreases Unseen(doc, seen), 0, 0
  {
    hide SearchAny;
    hide Successors;
    hide HasField;
    if HasField(At(doc, p).value, field) {
      ps := [p];
    } else {
      VisitShrinks(doc, p, seen);
      var rest := AnyReaches(doc, Successors(doc, p), field, seen + {p});
      ChainCons(doc, p, rest);
      ps := [p] + rest;
    }
  }

  lemma {:induction false} AnyReaches(doc: Json, qs: seq<Path>, field: string, seen: set<Path>) returns (ps: seq<Path>)
    requires SearchAny(doc, qs, field, seen).0
    ensures ps != [] && ps[0] in qs && Reaches(doc, ps[0], field, ps)
    decreases Unseen(doc, seen), 1, |qs|
  {
    var (found, seen1) := Search(doc, qs[0], field, seen);
    if found {
      ps := FoundReaches(doc, qs[0], field, seen);
    } else {
      SeenShrinks(doc, seen, seen1);
      ps := AnyReaches(doc, qs[1..], field, seen1);
    }
  }

  // An object is dealt with: the field is not in it, and all it refers to has been visited.
  predicate Closed(doc: Json, field: string, q: Path, seen: set<Path>) {
    !Advertises(doc, q, field) && forall r <- Successors(doc, q) :: IsObject(doc, r) ==> r in seen
  }

  // A search that fails has dealt with everything it newly visited.
  lemma {:induction false} MissedClosed(doc: Json, p: Path, field: string, seen: set<Path>)
    requires !Search(doc, p, field, seen).0
    ensures var seen' := Search(doc, p, field, seen).1;
            && (IsObject(doc, p) ==> p in seen')
            && forall q <- seen' :: q in seen || Closed(doc, field, q, seen')
    decreases Unseen(doc, seen), 0, 0
  {
    if IsObject(doc, p) && p !in seen {
      VisitShrinks(doc, p, seen);
      AnyMissedClosed(doc, Successors(doc, p), field, seen + {p});
    }
  }

  lemma {:induction false} AnyMissedClosed(doc: Json, ps: seq<Path>, field: string, seen: set<Path>)
    requires !SearchAny(doc, ps, field, seen).0
    ensures var seen' := SearchAny(doc, ps, field, seen).1;
            && (forall p <- ps :: IsObject(doc, p) ==> p in seen')
            && forall q <- seen' :: q in seen || Closed(doc, field, q, seen')
    decreases Unseen(doc, seen), 1, |ps|
  {
    if ps != [] {
      var seen1 := Search(doc, ps[0], field, seen).1;
      MissedClosed(doc, ps[0], field, seen);
      SeenShrinks(doc, seen, seen1);
      AnyMissedClosed(doc, ps[1..], field, seen1);
      assert forall p <- ps :: p == ps[0] || p in ps[1..];
    }
  }

  lemma {:induction false} ChainStays(doc: Json, field: string, seen: set<Path>, ps: seq<Path>, i: nat)
    requires (forall q <- seen :: Closed(doc, field, q, seen)) && Chain(doc, ps) && i < |ps|
    requires IsObject(doc, ps[0]) ==> ps[0] in seen
    ensures IsObject(doc, ps[i]) ==> ps[i] in seen
    decreases i
  {
    if i > 0 {
      ChainStays(doc, field, seen, ps, i - 1);
      assert ps[i - 1 + 1] in Successors(doc, ps[i - 1]);
    }
  }

  // Despite the visited set it shares between branches, and its early exit, the search answers true exactly when a
  // schema holding the field can be reached. (That it terminates on cyclic documents is its definition.)
  lemma SearchExact(doc: Json, p: Path, field: string)
    ensures Search(doc, p, field, {}).0 <==> exists ps :: Reaches(doc, p, field, ps)
  {
    if Search(doc, p, field, {}).0 {
      var ps := FoundReaches(doc, p, field, {});
    } else {
      MissedClosed(doc, p, field, {});
      var seen := Search(doc, p, field, {}).1;
      forall ps | Reaches(doc, p, field, ps) ensures false {
        ChainStays(doc, field, seen, ps, |ps| - 1);
      }
    }
  }

  // ---------------------------------------------------------------- pointers name paths

  // Section 3 of RFC 6901.
  function Escape(key: string): string {
    if key == "" then ""
    else (if key[0] == '~' then "~0" else if key[0] == '/' then "~1" else [key[0]]) + Escape(key[1..])
  }

  function EscapeTilde(key: string): string {
    if key == "" then "" else (if key[0] == '~' then "~0" else [key[0]]) + EscapeTilde(key[1..])
  }

  lemma {:induction false} SlashesBack(key: string)
    ensures ReplacePair(Escape(key), '~', '1', '/') == EscapeTilde(key)
  {
    if key != "" {
      SlashesBack(key[1..]);
      var rest := Escape(key[1..]);
      if key[0] == '~' {
        assert ("~0" + rest)[1..] == "0" + rest && ("0" + rest)[1..] == rest;
        assert ReplacePair("0" + rest, '~', '1', '/') == "0" + EscapeTilde(key[1..]);
      } else if key[0] == '/' {
        assert ("~1" + rest)[2..] == rest;
      } else {
        assert ([key[0]] + rest)[1..] == rest;
      }
    }
  }

  lemma {:induction false} TildesBack(key: string)
    ensures ReplacePair(EscapeTilde(key), '~', '0', '~') == key
  {
    if key != "" {
      TildesBack(key[1..]);
      var rest := EscapeTilde(key[1..]);
      if key[0] == '~' {
        assert ("~0" + rest)[2..] == rest;
      } else {
        assert ([key[0]] + rest)[1..] == rest;
      }
    }
  }

  lemma UnescapeEscape(key: string)
    ensures Unescape(Escape(key)) == key
  {
    SlashesBack(key);
    TildesBack(key);
  }

  lemma {:induction false} EscapeHasNoSlash(key: string)
    ensures '/' !in Escape(key)
  {
    if key != "" { EscapeHasNoSlash(key[1..]); }
  }

  function EscapeAll(keys: seq<string>): seq<string> {
    seq(|keys|, i requires 0 <= i < |keys| => Escape(keys[i]))
  }

  function Pointer(keys: seq<string>): string {
    "#/" + Join(EscapeAll(keys), "/")
  }

  function KeyPath(keys: seq<string>): Path {
    seq(|keys|, i requires 0 <= i < |keys| => Key(keys[i]))
  }

  lemma {:induction false} FollowKeys(doc: Json, p: Path, keys: seq<string>)
    requires At(doc, p).Some?
    ensures Follow(doc, p, EscapeAll(keys))
         == if At(doc, p + KeyPath(keys)).Some? then Some(p + KeyPath(keys)) else None
    decreases |keys|
  {
    if keys == [] {
      assert p + KeyPath(keys) == p;
    } else {
      var next := p + [Key(keys[0])];
      UnescapeEscape(keys[0]);
      assert EscapeAll(keys)[1..] == EscapeAll(keys[1..]);
      assert p + KeyPath(keys) == next + KeyPath(keys[1..]);
      if At(doc, next).Some? {
        FollowKeys(doc, next, keys[1..]);
      } else {
        MissingBelow(doc, next, KeyPath(keys[1..]));
      }
    }
  }

  lemma {:induction false} MissingBelow(doc: Json, p: Path, more: Path)
    requires At(doc, p).None?
    ensures At(doc, p + more).None?
    decreases |more|
  {
    if more == [] {
      assert p + more == p;
    } else {
      assert p + more == (p + more[..|more| - 1]) + [more[|more| - 1]];
      MissingBelow(doc, p, more[..|more| - 1]);
      AtAppend(doc, p + more[..|more| - 1], more[|more| - 1]);
    }
  }

  // The pointer spelled from any path of keys resolves to that path, or to nothing where the document has none.
  lemma PointerResolves(doc: Json, keys: seq<string>)
    requires keys != []
    ensures Resolve(doc, Pointer(keys)) == if At(doc, KeyPath(keys)).Some? then Some(KeyPath(keys)) else None
  {
    var segments := EscapeAll(keys);
    forall t | t in segments ensures '/' !in t {
      var i :| 0 <= i < |segments| && segments[i] == t;
      EscapeHasNoSlash(keys[i]);
    }
    SplitJoin(segments, '/');
    assert Pointer(keys)[2..] == Join(segments, "/");
    FollowKeys(doc, [], keys);
    assert [] + KeyPath(keys) == KeyPath(keys);
  }

  // ---------------------------------------------------------------- the search as it runs

  method ResolveLoop(doc: Json, ref: string) returns (r: Option<Path>)
    ensures r == Resolve(doc, ref)
  {
    if !StartsWith(ref, "#/") { return None; }
    var current: Path := [];
    var segments := Split(ref[2..], '/');
    for i := 0 to |segments|
      invariant Follow(doc, [], segments) == Follow(doc, current, segments[i..])
    {
      assert segments[i..][1..] == segments[i + 1..];
      current := current + [Key(Unescape(segments[i]))];
      if At(doc, current).None? { return None; }
    }
    return Some(current);
  }

  // The set every recursive call of one search shares.
  class Visited {
    var seen: set<Path>

    constructor ()
      ensures seen == {}
    {
      seen := {};
    }

    method AdvertisesField(doc: Json, p: Path, field: string) returns (r: bool)
      modifies this
      ensures (r, seen) == Search(doc, p, field, old(seen))
      decreases Unseen(doc, seen), 0, 0
    {
      hide HasField;
      hide RefOf;
      hide Follow;
      hide Resolve;
      hide AllVariants;
      hide SearchAny;
      hide At;
      if !IsObject(doc, p) || p in seen { return false; }
      VisitShrinks(doc, p, seen);
      seen := seen + {p};
      var record := At(doc, p).value;
      if HasField(record, field) { return true; }
      var ref := RefOf(record);
      if ref.Some? {
        var target := ResolveLoop(doc, ref.value);
        if target.None? {
          NoSuccessor(doc, field, seen);
          return false;
        }
        OnlySuccessor(doc, target.value, field, seen);
        r := AdvertisesField(doc, target.value, field);
        return;
      }
      r := SomeAdvertises(doc, AllVariants(record, p), field);
    }

    method SomeAdvertises(doc: Json, ps: seq<Path>, field: string) returns (r: bool)
      modifies this
      ensures (r, seen) == SearchAny(doc, ps, field, old(seen))
      decreases Unseen(doc, seen), 1, |ps|
    {
      if ps == [] { return false; }
      r := AdvertisesField(doc, ps[0], field);
      if !r {
        SeenShrinks(doc, old(seen), seen);
        r := SomeAdvertises(doc, ps[1..], field);
      }
    }
  }
}
