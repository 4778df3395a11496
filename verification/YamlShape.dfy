/** What the parser of src/yaml-subset.ts never returns, and what it rejects a line for. */
module YamlShape {
  import opened Text
  import opened YamlSubset
  import opened YamlScalars

  // ---------------------------------------------------------------- the trees it returns

  // Keys are valid, not inherited, and none stands twice in a mapping.
  predicate WellKeyed(n: Node, inherited: set<string>) {
    match n
    case Scalar(_) => true
    case Mapping(fields) => DistinctKeys(fields) && forall f <- fields :: KeyFits(f, inherited)
    case Sequence(items) => items != [] && forall it <- items :: WellItem(it, inherited)
  }

  // An item is a scalar or a mapping; its first key is not looked up among the inherited names.
  predicate WellItem(n: Node, inherited: set<string>)
    decreases n, 0
  {
    match n
    case Scalar(_) => true
    case Sequence(_) => false
    case Mapping(fields) =>
      && fields != [] && DistinctKeys(fields) && KeyOk(fields[0].key) && WellKeyed(fields[0].value, inherited)
      && forall f <- fields[1..] :: KeyFits(f, inherited)
  }

  predicate KeyFits(f: Field, inherited: set<string>) {
    KeyOk(f.key) && f.key !in inherited && WellKeyed(f.value, inherited)
  }

  predicate DistinctKeys(fields: Fields) {
    forall i, j :: 0 <= i < j < |fields| ==> fields[i].key != fields[j].key
  }

  lemma {:induction false} BlockShape(ls: seq<RawLine>, indent: nat, inherited: set<string>)
    requires ls != [] && ls[0].indent == indent && ParseBlock(ls, indent, inherited).Ok?
    ensures WellKeyed(ParseBlock(ls, indent, inherited).value, inherited)
    decreases |ls|, 3
  {
    if IsDash(LineText(ls[0])) {
      ItemsShape(ls, indent, [], inherited);
      ItemsGrow(ls, indent, inherited);
    } else {
      FieldsShape(ls, indent, [], false, inherited);
    }
  }

  lemma ItemsGrow(ls: seq<RawLine>, indent: nat, inherited: set<string>)
    requires ParseItems(ls, indent, [], inherited).Ok? && ls != [] && ls[0].indent == indent && IsDash(LineText(ls[0]))
    ensures ParseItems(ls, indent, [], inherited).value != []
  {
    hide ItemHead, ParseItemMap;
    match ItemHead(ls[0]) {
      case Success(KeyItem(key, after)) =>
        var m := ParseItemMap(ls, indent + 2, key, after, inherited);
        assert [] + [Mapping(m.value)] == [Mapping(m.value)];
        ItemsExtend(m.rest, indent, [Mapping(m.value)], inherited);
      case Success(ScalarItem(s)) =>
        assert [] + [Scalar(s)] == [Scalar(s)];
        ItemsExtend(ls[1..], indent, [Scalar(s)], inherited);
      case Failure(_) =>
    }
  }

  lemma {:induction false} ItemsExtend(ls: seq<RawLine>, indent: nat, acc: seq<Node>, inherited: set<string>)
    requires ParseItems(ls, indent, acc, inherited).Ok?
    ensures |ParseItems(ls, indent, acc, inherited).value| >= |acc|
    decreases |ls|
  {
    hide ItemHead, ParseItemMap;
    if !(ls == [] || ls[0].indent != indent || !IsDash(LineText(ls[0]))) {
      match ItemHead(ls[0]) {
        case Success(KeyItem(key, after)) =>
          var m := ParseItemMap(ls, indent + 2, key, after, inherited);
          ItemsExtend(m.rest, indent, acc + [Mapping(m.value)], inherited);
        case Success(ScalarItem(s)) => ItemsExtend(ls[1..], indent, acc + [Scalar(s)], inherited);
        case Failure(_) =>
      }
    }
  }

  // The keys read so far, the first of an item left out.
  predicate AccFits(acc: Fields, inItem: bool, inherited: set<string>) {
    && DistinctKeys(acc)
    && if inItem then acc != [] && KeyOk(acc[0].key) && WellKeyed(acc[0].value, inherited)
                      && forall f <- acc[1..] :: KeyFits(f, inherited)
       else forall f <- acc :: KeyFits(f, inherited)
  }

  lemma AccGrows(acc: Fields, inItem: bool, inherited: set<string>, f: Field)
    requires AccFits(acc, inItem, inherited) && KeyFits(f, inherited) && f.key !in Keys(acc)
    ensures AccFits(acc + [f], inItem, inherited)
  {
    hide KeyOk, WellKeyed;
    forall g <- acc ensures g.key != f.key { assert g.key in Keys(acc); }
    if inItem { assert (acc + [f])[1..] == acc[1..] + [f]; }
  }

  lemma {:induction false} FieldsShape(ls: seq<RawLine>, indent: nat, acc: Fields, inItem: bool, inherited: set<string>)
    requires ParseFields(ls, indent, acc, inItem, inherited).Ok? && AccFits(acc, inItem, inherited)
    ensures AccFits(ParseFields(ls, indent, acc, inItem, inherited).value, inItem, inherited)
    decreases |ls|, 2
  {
    hide FieldHead, ParseValue, AccFits, KeyFits;
    if !(ls == [] || EndsFields(ls[0], indent, inItem)) {
      var head := FieldHead(ls[0], acc, inherited).value;
      HeadFits(ls[0], acc, inherited);
      var v := ParseValue(ls, indent, head.1, false, inherited);
      ValueShape(ls, indent, head.1, false, inherited);
      assert KeyFits(Field(head.0, v.value), inherited) by { FitsKey(head.0, v.value, inherited); }
      AccGrows(acc, inItem, inherited, Field(head.0, v.value));
      FieldsShape(v.rest, indent, acc + [Field(head.0, v.value)], inItem, inherited);
    }
  }

  lemma FitsKey(key: string, v: Node, inherited: set<string>)
    requires KeyOk(key) && key !in inherited && WellKeyed(v, inherited)
    ensures KeyFits(Field(key, v), inherited)
  {
  }

  lemma HeadFits(l: RawLine, acc: Fields, inherited: set<string>)
    requires FieldHead(l, acc, inherited).Success?
    ensures var key := FieldHead(l, acc, inherited).value.0; KeyOk(key) && key !in Keys(acc) && key !in inherited
  {
    hide KeyOk, Keys;
  }

  lemma {:induction false} ValueShape(ls: seq<RawLine>, indent: nat, after: string, itemHead: bool,
          inherited: set<string>)
    requires ls != [] && ParseValue(ls, indent, after, itemHead, inherited).Ok?
    ensures WellKeyed(ParseValue(ls, indent, after, itemHead, inherited).value, inherited)
    decreases |ls|, 1, 0
  {
    hide ParseBlock, Trim, ParseScalar, Join, Cut;
    if Trim(after) == "" && |ls| > 1 && ls[1].indent > indent { BlockShape(ls[1..], ls[1].indent, inherited); }
  }

  lemma {:induction false} ItemsShape(ls: seq<RawLine>, indent: nat, acc: seq<Node>, inherited: set<string>)
    requires ParseItems(ls, indent, acc, inherited).Ok? && forall it <- acc :: WellItem(it, inherited)
    ensures forall it <- ParseItems(ls, indent, acc, inherited).value :: WellItem(it, inherited)
    decreases |ls|, 2
  {
    hide ItemHead, ParseItemMap, WellItem;
    if !(ls == [] || ls[0].indent != indent || !IsDash(LineText(ls[0]))) {
      match ItemHead(ls[0]) {
        case Success(KeyItem(key, after)) =>
          ItemKeyFits(ls[0]);
          ItemMapShape(ls, indent + 2, key, after, inherited);
          var m := ParseItemMap(ls, indent + 2, key, after, inherited);
          ItemsShape(m.rest, indent, acc + [Mapping(m.value)], inherited);
        case Success(ScalarItem(s)) =>
          ScalarItemFits(s, inherited);
          ItemsShape(ls[1..], indent, acc + [Scalar(s)], inherited);
        case Failure(_) =>
      }
    }
  }

  lemma ScalarItemFits(s: string, inherited: set<string>)
    ensures WellItem(Scalar(s), inherited)
  {
  }

  lemma ItemKeyFits(l: RawLine)
    requires IsDash(LineText(l)) && ItemHead(l).Success? && ItemHead(l).value.KeyItem?
    ensures KeyOk(ItemHead(l).value.key)
  {
    hide KeyOk;
  }

  lemma {:induction false} ItemMapShape(ls: seq<RawLine>, indent: nat, key: string, after: string,
          inherited: set<string>)
    requires ls != [] && KeyOk(key) && ParseItemMap(ls, indent, key, after, inherited).Ok?
    ensures WellItem(Mapping(ParseItemMap(ls, indent, key, after, inherited).value), inherited)
    decreases |ls|, 1, 1
  {
    hide ParseValue, ParseFields, KeyOk;
    var v := ParseValue(ls, indent, after, true, inherited);
    ValueShape(ls, indent, after, true, inherited);
    assert AccFits([Field(key, v.value)], true, inherited);
    FieldsShape(v.rest, indent, [Field(key, v.value)], true, inherited);
  }

  // Whatever document parses, its tree has no key twice in a mapping, none that the grammar or the inherited names rule
  // out, and no item that is a sequence or an empty mapping.
  lemma ParsedShape(src: string, inherited: set<string>)
    ensures var r := ParseYamlSubset(src, inherited); r.Success? ==> WellKeyed(r.value, inherited)
    ensures var r := ParseYamlSequence(src, inherited);
            r.Success? && Tokenize(src) != [] ==> WellKeyed(Sequence(r.value), inherited)
  {
    var ls := Tokenize(src);
    hide Tokenize, ParseBlock;
    if ls != [] && ParseBlock(ls, ls[0].indent, inherited).Ok? { BlockShape(ls, ls[0].indent, inherited); }
  }

  // ---------------------------------------------------------------- the lines it rejects

  // The first place of a character.
  predicate FirstAt(s: string, c: char, i: nat) {
    i < |s| && s[i] == c && forall k :: 0 <= k < i ==> s[k] != c
  }

  // The first colon that ends a key in an item: with a blank or nothing after it.
  predicate KeyEnds(s: string, i: nat) {
    i < |s| && s[i] == ':' && (i + 1 == |s| || s[i + 1] == ' ')
    && forall k :: 0 <= k < i ==> !(s[k] == ':' && s[k + 1] == ' ')
  }

  predicate Spelled(key: string) {
    key != "" && forall k :: 0 <= k < |key| ==> KeyCode(key[k] as int)
  }

  // What a key line comes to whose first colon is at i.
  function KeyRead(l: RawLine, acc: Fields, inherited: set<string>, i: nat): Result<(string, string)>
    requires i < |LineText(l)|
  {
    var key := Trim(LineText(l)[..i]);
    if i == 0 then Failure(ExpectedKey(l.lineNo))
    else if !Spelled(key) then Failure(UnsupportedKey(l.lineNo))
    else if key in inherited || exists f <- acc :: f.key == key then Failure(DuplicateKey(l.lineNo))
    else Success((key, LineText(l)[i + 1..]))
  }

  lemma SpelledKey(key: string)
    ensures KeyOk(key) == Spelled(key)
  {
    KeyExact(key);
  }

  lemma KeyAt(l: RawLine, acc: Fields, inherited: set<string>, i: nat)
    requires FirstAt(LineText(l), ':', i)
    ensures FieldHead(l, acc, inherited) == KeyRead(l, acc, inherited, i)
  {
    hide LineText, Trim, KeyOk, Spelled, IndexOf;
    SpelledKey(Trim(LineText(l)[..i]));
    FirstIndex(LineText(l), ':', i);
  }

  lemma FirstIndex(s: string, c: char, i: nat)
    requires FirstAt(s, c, i)
    ensures IndexOf(s, c) == i
  {
    hide IndexOf;
  }

  // A key line is rejected, at its number, for having no key before a colon, for a key with other characters, and for a
  // key that is taken; any other is read up to its first colon.
  lemma KeyLineExact(l: RawLine, acc: Fields, inherited: set<string>)
    ensures ':' !in LineText(l) ==> FieldHead(l, acc, inherited) == Failure(ExpectedKey(l.lineNo))
    ensures forall i: nat :: FirstAt(LineText(l), ':', i) ==>
              FieldHead(l, acc, inherited) == KeyRead(l, acc, inherited, i)
  {
    hide LineText, KeyRead, Trim, KeyOk, Keys;
    forall i: nat | FirstAt(LineText(l), ':', i)
      ensures FieldHead(l, acc, inherited) == KeyRead(l, acc, inherited, i)
    {
      KeyAt(l, acc, inherited, i);
    }
  }

  // What an item whose key would end at i comes to.
  function ItemRead(item: string, n: nat, i: nat): Result<ItemShape>
    requires i < |item|
  {
    var key := Trim(item[..i]);
    if Spelled(key) then Success(KeyItem(key, item[i + 1..])) else Failure(UnsupportedKey(n))
  }

  lemma ItemAt(l: RawLine, item: string, i: nat)
    requires IsDash(LineText(l)) && item == ItemText(LineText(l)) && KeyEnds(item, i)
    ensures ItemHead(l) == ItemRead(item, l.lineNo, i)
  {
    hide LineText, Trim, KeyOk, Spelled, KeyColon, ParseScalar, ItemText, IsDash;
    SpelledKey(Trim(item[..i]));
    FirstEnd(item, i);
  }

  lemma FirstEnd(s: string, i: nat)
    requires KeyEnds(s, i)
    ensures KeyColon(s) == i
  {
    hide KeyColon;
    assert ColonAt(s, i);
  }

  lemma NoEnd(s: string)
    requires forall i: nat :: !KeyEnds(s, i)
    ensures KeyColon(s) == -1
  {
    hide KeyColon;
    if KeyColon(s) >= 0 { EndFirst(s); }
  }

  lemma EndFirst(s: string)
    requires KeyColon(s) >= 0
    ensures KeyEnds(s, KeyColon(s))
  {
    hide KeyColon;
    var i := KeyColon(s);
    forall k | 0 <= k < i ensures !(s[k] == ':' && s[k + 1] == ' ') { assert !ColonAt(s, k); }
  }

  // An item line is rejected for being empty and for a key with other characters; without a key it is its scalar.
  lemma ItemLineExact(l: RawLine, item: string)
    requires IsDash(LineText(l))
    requires item == if |LineText(l)| < 2 then "" else Trim(LineText(l)[2..])
    ensures item == "" ==> ItemHead(l) == Failure(EmptyItem(l.lineNo))
    ensures forall i: nat :: KeyEnds(item, i) ==> ItemHead(l) == ItemRead(item, l.lineNo, i)
    ensures item != "" && (forall i: nat :: !KeyEnds(item, i)) ==>
              match ParseScalar(item, l.lineNo)
              case Success(s) => ItemHead(l) == Success(ScalarItem(s))
              case Failure(e) => ItemHead(l) == Failure(e)
  {
    hide LineText, Trim, KeyOk, KeyColon, ParseScalar, ItemRead;
    assert ItemText(LineText(l)) == item;
    forall i: nat | KeyEnds(item, i) ensures ItemHead(l) == ItemRead(item, l.lineNo, i) { ItemAt(l, item, i); }
    if forall i: nat :: !KeyEnds(item, i) { NoEnd(item); }
  }

  // ---------------------------------------------------------------- where blocks end

  // Keys are read as long as lines are indented as the first one and do not start an item. A bare dash starts one too,
  // except among the further keys of an item.
  lemma KeysStop(ls: seq<RawLine>, indent: nat, acc: Fields, inItem: bool, inherited: set<string>)
    requires ls != [] && LineText(ls[0]) != ""
    ensures var t := LineText(ls[0]);
            var dash := t[0] == '-' && if |t| == 1 then !inItem else t[1] == ' ';
            var r := ParseFields(ls, indent, acc, inItem, inherited);
            if ls[0].indent != indent || dash then r == Ok(acc, ls) else r.Ok? ==> |r.rest| < |ls|
  {
    var t := LineText(ls[0]);
    hide LineText, FieldHead, ParseValue;
    assert EndsFields(ls[0], indent, inItem) <==>
           ls[0].indent != indent || (t[0] == '-' && if |t| == 1 then !inItem else t[1] == ' ') by {
      DashExact(t);
    }
    if !EndsFields(ls[0], indent, inItem) { KeysGoOn(ls, indent, acc, inItem, inherited); }
  }

  lemma DashExact(t: string)
    requires t != ""
    ensures StartsWith(t, "- ") <==> |t| > 1 && t[0] == '-' && t[1] == ' '
    ensures t == "-" <==> |t| == 1 && t[0] == '-'
  {
    if |t| > 1 { assert t[..2] == [t[0], t[1]]; }
  }

  lemma KeysGoOn(ls: seq<RawLine>, indent: nat, acc: Fields, inItem: bool, inherited: set<string>)
    requires ls != [] && !EndsFields(ls[0], indent, inItem)
    ensures var r := ParseFields(ls, indent, acc, inItem, inherited); r.Ok? ==> |r.rest| < |ls|
  {
    hide EndsFields, FieldHead, ParseValue;
  }

  // Items are read as long as lines are indented as the first one and start with a dash.
  lemma ItemsStop(ls: seq<RawLine>, indent: nat, acc: seq<Node>, inherited: set<string>)
    requires ls != [] && LineText(ls[0]) != ""
    ensures var t := LineText(ls[0]);
            var dash := t[0] == '-' && (|t| == 1 || t[1] == ' ');
            var r := ParseItems(ls, indent, acc, inherited);
            if ls[0].indent != indent || !dash then r == Ok(acc, ls) else r.Ok? ==> |r.rest| < |ls|
  {
    var t := LineText(ls[0]);
    hide LineText, ItemHead, ParseItemMap;
    DashExact(t);
  }

  // A text is a mapping or a sequence and never both, unless it has no line.
  lemma OneKind(src: string, inherited: set<string>)
    ensures var m, q := ParseYamlSubset(src, inherited), ParseYamlSequence(src, inherited);
            && (m.Success? ==> m.value.Mapping?)
            && (Tokenize(src) == [] ==> m == Success(Mapping([])) && q == Success([]))
            && (Tokenize(src) != [] ==>
                  && (q.Success? ==> m == Failure(NotAMapping)) && (m.Success? ==> q == Failure(NotASequence))
                  && (m.Success? || q.Success? || m.error == q.error))
  {
    hide Tokenize, ParseFields, ParseItems, LineText;
  }

  // ---------------------------------------------------------------- the lines it reads

  // Something other than white space stands on the line before a comment.
  predicate Says(raw: string) {
    exists k :: 0 <= k < |raw| && !IsSpace(raw[k]) && forall j :: 0 <= j <= k ==> !StartsComment(raw, j)
  }

  predicate IndentedBy(raw: string, n: nat) {
    n < |raw| && !IsSpace(raw[n]) && forall k :: 0 <= k < n ==> IsSpace(raw[k])
  }

  // A token is a line of the text that says something, the first having number n.
  predicate TokenOf(l: RawLine, raws: seq<string>, n: nat) {
    n <= l.lineNo < n + |raws| && l.raw == raws[l.lineNo - n] && Says(l.raw) && IndentedBy(l.raw, l.indent)
  }

  // The lines that are read are those of the text that say something, each with its number and indentation, in order.
  lemma LinesExact(src: string)
    ensures var raws, ls := Split(src, '\n'), Tokenize(src);
            && (forall l <- ls :: TokenOf(l, raws, 1))
            && (forall i :: 0 <= i < |raws| && Says(raws[i]) ==> exists l <- ls :: l.lineNo == i + 1)
            && Ascending(ls)
  {
    var raws := Split(src, '\n');
    TokensFit(raws, 1);
    hide Split, Tokens, Says, TokenOf;
    assert Tokenize(src) == Tokens(raws, 1);
    forall i | 0 <= i < |raws| && Says(raws[i]) ensures exists l <- Tokenize(src) :: l.lineNo == i + 1 {
      var l := TokenAt(raws, 1, i);
    }
  }

  predicate Ascending(ls: seq<RawLine>) {
    forall j, k :: 0 <= j < k < |ls| ==> ls[j].lineNo < ls[k].lineNo
  }

  lemma {:induction false} TokensFit(raws: seq<string>, n: nat)
    ensures forall l <- Tokens(raws, n) :: TokenOf(l, raws, n)
    ensures Ascending(Tokens(raws, n))
  {
    assert Ascending([]);
    hide Says, IndentedBy, Significant, Indent, TokenOf, Ascending;
    if raws == [] {
      assert Tokens(raws, n) == [];
    } else {
      var ts := Tokens(raws[1..], n + 1);
      TokensFit(raws[1..], n + 1);
      forall l | l in ts ensures TokenOf(l, raws, n) && l.lineNo > n { TokenLater(l, raws, n); }
      if Significant(raws[0]) {
        TokenFirst(raws, n);
        AscendsFrom(RawLine(raws[0], Indent(raws[0]), n), ts);
      }
    }
  }

  lemma AscendsFrom(l: RawLine, ts: seq<RawLine>)
    requires Ascending(ts) && forall t <- ts :: l.lineNo < t.lineNo
    ensures Ascending([l] + ts)
  {
    var ls := [l] + ts;
    forall j, k | 0 <= j < k < |ls| ensures ls[j].lineNo < ls[k].lineNo {
      assert ls[k] == ts[k - 1] && ts[k - 1] in ts;
      assert if j == 0 then ls[j] == l else ls[j] == ts[j - 1];
    }
  }

  lemma TokenLater(l: RawLine, raws: seq<string>, n: nat)
    requires raws != [] && TokenOf(l, raws[1..], n + 1)
    ensures TokenOf(l, raws, n) && l.lineNo > n
  {
    hide Says, IndentedBy;
  }

  lemma TokenFirst(raws: seq<string>, n: nat)
    requires raws != [] && Significant(raws[0])
    ensures TokenOf(RawLine(raws[0], Indent(raws[0]), n), raws, n)
  {
    SaysExact(raws[0]);
    hide Says, IndentedBy, Significant, Indent;
  }

  lemma {:induction false} TokenAt(raws: seq<string>, n: nat, i: nat) returns (l: RawLine)
    requires i < |raws| && Says(raws[i])
    ensures l in Tokens(raws, n) && l.lineNo == n + i
    decreases i
  {
    SaysExact(raws[i]);
    hide Says, IndentedBy, Significant, Indent;
    if i == 0 {
      l := RawLine(raws[0], Indent(raws[0]), n);
    } else {
      l := TokenAt(raws[1..], n + 1, i - 1);
    }
  }

  lemma SaysExact(raw: string)
    ensures Significant(raw) == Says(raw)
    ensures Says(raw) ==> IndentedBy(raw, Indent(raw))
  {
    var s, n := StripComment(raw), |StripComment(raw)|;
    StripExact(raw);
    assert n <= |raw| && s == raw[..n];
    TrimNothing(s);
    TrimNothing(raw);
    hide StripComment, StartsComment, IsSpace, Trim;
    assert forall k :: 0 <= k < n ==> s[k] == raw[k];
    if Trim(s) != "" {
      var k :| 0 <= k < n && !IsSpace(s[k]);
      assert raw[k] in raw;
    }
    if Says(raw) {
      var k :| 0 <= k < |raw| && !IsSpace(raw[k]) && forall j :: 0 <= j <= k ==> !StartsComment(raw, j);
      assert k < n && s[k] in s;
      TrimStartDrops(raw);
      assert raw[k] in raw;
      StartLeaves(raw);
    }
  }

  lemma StartLeaves(raw: string)
    requires exists c <- raw :: !IsSpace(c)
    ensures IndentedBy(raw, Indent(raw))
  {
    StartNothing(raw);
    TrimStartDrops(raw);
    AllBlank(raw[..Indent(raw)]);
    hide IsSpace;
    var n := Indent(raw);
    assert forall k :: 0 <= k < n ==> raw[k] == raw[..n][k];
    assert raw[n..][0] == raw[n];
  }
}
