/** The schema search of src/memory/mem0.ts told by paths of the document. */
module SchemaPaths {
  import opened Text
  import opened SchemaSearch

  // ---------------------------------------------------------------- lookups

  // The member at place i is the first with its key.
  predicate FirstWith(members: seq<Member>, i: nat, key: string) {
    i < |members| && members[i].key == key && forall k :: 0 <= k < i ==> members[k].key != key
  }

  // A key leads from an object to the value of its member with that key, and nowhere from anything else.
  lemma GetExact(j: Json, key: string)
    ensures j.Obj? ==> forall i: nat :: FirstWith(j.members, i, key) ==> Get(j, key) == Some(j.members[i].value)
    ensures Get(j, key).Some? ==> j.Obj? && exists i: nat :: FirstWith(j.members, i, key)
  {
    if j.Obj? { FindExact(j.members, key); }
  }

  lemma {:induction false} FindExact(members: seq<Member>, key: string)
    ensures forall i: nat :: FirstWith(members, i, key) ==> Find(members, key) == Some(members[i].value)
    ensures Find(members, key).Some? ==> exists i: nat :: FirstWith(members, i, key)
  {
    if members != [] {
      var rest := members[1..];
      FindExact(rest, key);
      forall i: nat | FirstWith(members, i, key) ensures Find(members, key) == Some(members[i].value) {
        if i > 0 {
          assert forall k :: 0 <= k < |rest| ==> rest[k] == members[k + 1];
          assert members[0].key != key && FirstWith(rest, i - 1, key);
        }
      }
      if members[0].key == key {
        assert FirstWith(members, 0, key);
      } else if Find(members, key).Some? {
        var i: nat :| FirstWith(rest, i, key);
        assert forall k :: 0 < k <= i ==> members[k] == rest[k - 1];
        assert FirstWith(members, i + 1, key);
      }
    }
  }

  // A place leads from an array to its item there.
  lemma IndexExact(j: Json, i: nat)
    ensures Child(j, Index(i)) == if j.Arr? && i < |j.items| then Some(j.items[i]) else None
    ensures forall key :: Child(j, Key(key)) == Get(j, key)
  {
  }

  lemma AtTwo(doc: Json, p: Path, a: Step, b: Step)
    ensures At(doc, p + [a, b]) == match At(doc, p + [a]) case None => None case Some(c) => Child(c, b)
  {
    assert p + [a, b] == p + [a] + [b];
    AtAppend(doc, p + [a], b);
  }

  // ---------------------------------------------------------------- pointers

  // RFC 6901: "~0" stands for "~" and "~1" for "/", from left to right.
  function Decode(s: string): string {
    if s == "" then ""
    else if |s| > 1 && s[0] == '~' && s[1] == '0' then ['~'] + Decode(s[2..])
    else if |s| > 1 && s[0] == '~' && s[1] == '1' then ['/'] + Decode(s[2..])
    else [s[0]] + Decode(s[1..])
  }

  // The two replacements, one after the other, decode every segment.
  lemma {:induction false} UnescapeDecodes(s: string)
    ensures Unescape(s) == Decode(s)
    decreases |s|
  {
    if s != "" {
      var k := if |s| > 1 && s[0] == '~' && (s[1] == '0' || s[1] == '1') then 2 else 1;
      var tail := s[k..];
      UnescapeDecodes(tail);
      var slashed := ReplacePair(s, '~', '1', '/');
      var rest := ReplacePair(tail, '~', '1', '/');
      FirstStays(tail);
      if k == 2 && s[1] == '0' {
        assert s[1..][1..] == tail && s[1..][0] == '0';
        assert ReplacePair(s[1..], '~', '1', '/') == ['0'] + rest;
        assert slashed == ['~'] + (['0'] + rest);
        assert slashed[2..] == rest && slashed[1] == '0';
      } else if k == 2 {
        assert slashed == ['/'] + rest && slashed[1..] == rest;
      } else {
        assert slashed == [s[0]] + rest && slashed[1..] == rest;
        assert s[0] == '~' && rest != "" ==> rest[0] != '0' by { if tail != "" { assert s[1] == tail[0]; } }
        assert |slashed| > 1 ==> slashed[1] == rest[0];
      }
    }
  }

  // Replacing "~1" leaves a first character that is not '~' where it is, and makes none into '0'.
  lemma FirstStays(s: string)
    ensures var t := ReplacePair(s, '~', '1', '/');
            (t == "" <==> s == "") && (s != "" ==> t[0] == s[0] || (s[0] == '~' && t[0] == '/'))
  {
  }

  // A reference that is not local to the document leads nowhere.
  lemma OnlyLocal(doc: Json, ref: string)
    requires Resolve(doc, ref).Some?
    ensures |ref| >= 2 && ref[0] == '#' && ref[1] == '/'
  {
    assert ref[..2] == "#/";
  }

  // ---------------------------------------------------------------- the search by paths

  predicate ObjectAt(doc: Json, p: Path) {
    match At(doc, p)
    case Some(Obj(_)) => true
    case _ => false
  }

  // The schema at p holds the field: it has `properties` with that key.
  predicate HoldsField(doc: Json, p: Path, field: string) {
    ObjectAt(doc, p) && At(doc, p + [Key("properties"), Key(field)]).Some?
  }

  // The place q is an item of the array at a key of p.
  ghost predicate ItemUnder(doc: Json, p: Path, q: Path, key: string) {
    match At(doc, p + [Key(key)])
    case Some(Arr(items)) => exists i: nat | i < |items| :: q == p + [Key(key), Index(i)]
    case _ => false
  }

  // The schema at p refers to q: by a `$ref` that is a string and leads to q; or, without such a `$ref`, as an item of
  // the array at `allOf`, `anyOf` or `oneOf`.
  ghost predicate RefersTo(doc: Json, p: Path, q: Path) {
    ObjectAt(doc, p)
    && match At(doc, p + [Key("$ref")])
       case Some(Str(ref)) => Resolve(doc, ref) == Some(q)
       case _ =>
         ItemUnder(doc, p, q, "allOf") || ItemUnder(doc, p, q, "anyOf") || ItemUnder(doc, p, q, "oneOf")
  }

  lemma HoldsExact(doc: Json, p: Path, field: string)
    ensures Advertises(doc, p, field) <==> HoldsField(doc, p, field)
  {
    AtTwo(doc, p, Key("properties"), Key(field));
    AtAppend(doc, p, Key("properties"));
  }

  lemma VariantsExact(doc: Json, p: Path, q: Path, key: string)
    requires ObjectAt(doc, p)
    ensures q in Variants(At(doc, p).value, p, key) <==> ItemUnder(doc, p, q, key)
  {
    AtAppend(doc, p, Key(key));
    var vs := Variants(At(doc, p).value, p, key);
    if q in vs {
      var i :| 0 <= i < |vs| && vs[i] == q;
    }
    if ItemUnder(doc, p, q, key) {
      var i: nat :| i < |vs| && q == p + [Key(key), Index(i)];
      assert vs[i] == q;
    }
  }

  lemma RefersExact(doc: Json, p: Path, q: Path)
    ensures q in Successors(doc, p) <==> RefersTo(doc, p, q)
  {
    hide Variants, ItemUnder, At, Resolve;
    AtAppend(doc, p, Key("$ref"));
    if ObjectAt(doc, p) {
      VariantsExact(doc, p, q, "allOf");
      VariantsExact(doc, p, q, "anyOf");
      VariantsExact(doc, p, q, "oneOf");
    }
  }

  // A sequence of schemas, each of which the one before refers to, from p to one that holds the field.
  ghost predicate LeadsTo(doc: Json, p: Path, field: string, ps: seq<Path>) {
    && ps != [] && ps[0] == p && HoldsField(doc, ps[|ps| - 1], field)
    && forall i :: 0 < i < |ps| ==> RefersTo(doc, ps[i - 1], ps[i])
  }

  // The search answers true exactly when some schema that is referred to, however far, holds the field.
  lemma SearchByPaths(doc: Json, p: Path, field: string)
    ensures Search(doc, p, field, {}).0 <==> exists ps :: LeadsTo(doc, p, field, ps)
  {
    SearchExact(doc, p, field);
    forall ps: seq<Path> ensures Reaches(doc, p, field, ps) <==> LeadsTo(doc, p, field, ps) {
      SameChain(doc, p, field, ps);
    }
  }

  lemma SameChain(doc: Json, p: Path, field: string, ps: seq<Path>)
    ensures Reaches(doc, p, field, ps) <==> LeadsTo(doc, p, field, ps)
  {
    hide Successors, RefersTo, Advertises, HoldsField;
    if ps != [] {
      HoldsExact(doc, ps[|ps| - 1], field);
      forall i | 0 < i < |ps| ensures ps[i] in Successors(doc, ps[i - 1]) <==> RefersTo(doc, ps[i - 1], ps[i]) {
        RefersExact(doc, ps[i - 1], ps[i]);
      }
      if LeadsTo(doc, p, field, ps) {
        forall i | 0 <= i < |ps| - 1 ensures ps[i + 1] in Successors(doc, ps[i]) {
          assert RefersTo(doc, ps[i + 1 - 1], ps[i + 1]);
        }
      }
      if Reaches(doc, p, field, ps) {
        forall i | 0 < i < |ps| ensures RefersTo(doc, ps[i - 1], ps[i]) {
          assert ps[i - 1 + 1] in Successors(doc, ps[i - 1]);
        }
      }
    }
  }
}
