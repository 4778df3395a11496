/** Each line of a YAML document that parses has one role. */
module YamlAccounting {
  // Every tokenized line is read exactly once, in order: as a key, as a sequence item or as a line of a literal block.
  // A reading assigns each line its role. Its meaning is computed from the roles alone, without indentation.

  import opened Text
  import opened YamlSubset
  import opened YamlScalars

  datatype ValueReading =
    | Bare                              // the value ends on the key's own line
    | Body(lines: seq<RawLine>)         // a literal block
    | Child(block: Reading)             // a nested mapping or sequence

  datatype Reading = KeyLines(keys: KeyReading) | ItemLines(items: ItemReading)

  datatype KeyReading = NoKey | Key(line: RawLine, value: ValueReading, rest: KeyReading)

  datatype ItemReading =
    | NoItemLine
    | TextLine(line: RawLine, rest: ItemReading)
    | MapLine(line: RawLine, value: ValueReading, more: KeyReading, rest: ItemReading)

  // ---------------------------------------------------------------- the lines of a reading, in order

  function BlockLines(b: Reading): seq<RawLine> {
    match b
    case KeyLines(k) => LinesOfKeys(k)
    case ItemLines(it) => LinesOfItems(it)
  }

  function LinesOfKeys(k: KeyReading): seq<RawLine> {
    match k
    case NoKey => []
    case Key(l, v, rest) => [l] + ValueLines(v) + LinesOfKeys(rest)
  }

  function LinesOfItems(it: ItemReading): seq<RawLine> {
    match it
    case NoItemLine => []
    case TextLine(l, rest) => [l] + LinesOfItems(rest)
    case MapLine(l, v, more, rest) => [l] + ValueLines(v) + LinesOfKeys(more) + LinesOfItems(rest)
  }

  function ValueLines(v: ValueReading): seq<RawLine> {
    match v
    case Bare => []
    case Body(ls) => ls
    case Child(b) => BlockLines(b)
  }

  // ---------------------------------------------------------------- the meaning of a reading

  function BlockMeaning(b: Reading): Node
    decreases b
  {
    match b
    case KeyLines(k) => Mapping(KeyMeaning(k))
    case ItemLines(it) => Sequence(ItemMeaning(it))
  }

  function KeyMeaning(k: KeyReading): Fields
    decreases k
  {
    match k
    case NoKey => []
    case Key(l, v, rest) => [Field(KeyOf(l), ValueMeaning(AfterKey(l), l.indent, v))] + KeyMeaning(rest)
  }

  function ItemMeaning(it: ItemReading): seq<Node>
    decreases it
  {
    match it
    case NoItemLine => []
    case TextLine(l, rest) => [Scalar(ScalarText(ItemOf(l)))] + ItemMeaning(rest)
    case MapLine(l, v, more, rest) =>
      var first := Field(ItemKeyOf(l), ValueMeaning(AfterItemKey(l), l.indent + 2, v));
      [Mapping([first] + KeyMeaning(more))] + ItemMeaning(rest)
  }

  // A key line: the key before the first colon, and the text after it.
  function KeyOf(l: RawLine): string {
    var sep := IndexOf(LineText(l), ':');
    if sep < 0 then "" else Trim(LineText(l)[..sep])
  }

  function AfterKey(l: RawLine): string {
    var sep := IndexOf(LineText(l), ':');
    if sep < 0 then "" else LineText(l)[sep + 1..]
  }

  // An item line: the same, inside the text after the dash.
  function ItemKeyOf(l: RawLine): string {
    var sep := KeyColon(ItemOf(l));
    if sep < 0 then "" else Trim(ItemOf(l)[..sep])
  }

  function AfterItemKey(l: RawLine): string {
    var sep := KeyColon(ItemOf(l));
    if sep < 0 then "" else ItemOf(l)[sep + 1..]
  }

  function ItemOf(l: RawLine): string {
    if IsDash(LineText(l)) then ItemText(LineText(l)) else ""
  }

  function ScalarText(s: string): string {
    Meaning(Trim(StripComment(s)))
  }

  // `after` is the text after the key's colon, `indent` the indentation of the key.
  function ValueMeaning(after: string, indent: nat, v: ValueReading): Node
    decreases v
  {
    match v
    case Bare => if Trim(after) == "" then Mapping([]) else Scalar(ScalarText(after))
    case Body(ls) => Scalar(Join(Cut(ls, indent + 2), "\n"))
    case Child(b) => BlockMeaning(b)
  }

  // ---------------------------------------------------------------- every successful parse has a reading

  lemma ScalarAnyLine(s: string, lineNo: nat)
    requires ParseScalar(s, lineNo).Success?
    ensures ParseScalar(s, lineNo) == Success(ScalarText(s))
  {
    ScalarExact(Trim(StripComment(s)), lineNo);
  }

  lemma {:induction false} ReadBlock(ls: seq<RawLine>, indent: nat, inherited: set<string>) returns (b: Reading)
    requires ParseBlock(ls, indent, inherited).Ok?
    ensures var r := ParseBlock(ls, indent, inherited);
            ls == BlockLines(b) + r.rest && BlockMeaning(b) == r.value
    decreases |ls|, 3
  {
    if IsDash(LineText(ls[0])) {
      var it := ReadItems(ls, indent, [], inherited);
      b := ItemLines(it);
      assert [] + ItemMeaning(it) == ItemMeaning(it);
    } else {
      var k := ReadKeys(ls, indent, [], false, inherited);
      b := KeyLines(k);
      assert [] + KeyMeaning(k) == KeyMeaning(k);
    }
  }

  lemma {:induction false} ReadKeys(ls: seq<RawLine>, indent: nat, acc: Fields, inItem: bool, inherited: set<string>)
    returns (k: KeyReading)
    requires ParseFields(ls, indent, acc, inItem, inherited).Ok?
    ensures var r := ParseFields(ls, indent, acc, inItem, inherited);
            ls == LinesOfKeys(k) + r.rest && acc + KeyMeaning(k) == r.value
    decreases |ls|, 2
  {
    hide ParseFields;
    hide ParseValue;
    hide FieldHead;
    hide KeyOf;
    hide AfterKey;
    hide ValueMeaning;
    hide LineText;
    if ls == [] || EndsFields(ls[0], indent, inItem) {
      KeysEnd(ls, indent, acc, inItem, inherited);
      k := NoKey;
    } else {
      var v := KeyStep(ls, indent, acc, inItem, inherited);
      var vr := ReadValue(ls, indent, AfterKey(ls[0]), false, inherited);
      var field := Field(KeyOf(ls[0]), v.value);
      var rest := ReadKeys(v.rest, indent, acc + [field], inItem, inherited);
      k := Key(ls[0], vr, rest);
      assert acc + [field] + KeyMeaning(rest) == acc + ([field] + KeyMeaning(rest));
    }
  }

  lemma KeysEnd(ls: seq<RawLine>, indent: nat, acc: Fields, inItem: bool, inherited: set<string>)
    requires ls == [] || EndsFields(ls[0], indent, inItem)
    ensures ParseFields(ls, indent, acc, inItem, inherited) == Ok(acc, ls)
  {
  }

  lemma KeyStep(ls: seq<RawLine>, indent: nat, acc: Fields, inItem: bool, inherited: set<string>)
    returns (v: Parsed<Node>)
    requires ls != [] && !EndsFields(ls[0], indent, inItem)
    requires ParseFields(ls, indent, acc, inItem, inherited).Ok?
    ensures ls[0].indent == indent && v == ParseValue(ls, indent, AfterKey(ls[0]), false, inherited) && v.Ok?
    ensures ParseFields(ls, indent, acc, inItem, inherited)
         == ParseFields(v.rest, indent, acc + [Field(KeyOf(ls[0]), v.value)], inItem, inherited)
  {
    hide ParseValue;
    v := ParseValue(ls, indent, AfterKey(ls[0]), false, inherited);
  }

  lemma {:induction false} ReadValue(ls: seq<RawLine>, indent: nat, after: string, itemHead: bool,
          inherited: set<string>)
    returns (v: ValueReading)
    requires ls != [] && ParseValue(ls, indent, after, itemHead, inherited).Ok?
    ensures var r := ParseValue(ls, indent, after, itemHead, inherited);
            ls == [ls[0]] + ValueLines(v) + r.rest && ValueMeaning(after, indent, v) == r.value
    decreases |ls|, 1, 0
  {
    hide Trim, ParseBlock, BlockLines, BlockMeaning, Join, Cut, ParseScalar, ScalarText, DeeperCount;
    var rest := Trim(after);
    assert ls == [ls[0]] + ls[1..];
    if rest == "|" {
      var n := DeeperCount(ls[1..], indent);
      v := Body(ls[1..][..n]);
    } else if rest == "" && |ls| > 1 && ls[1].indent > indent {
      var b := ReadBlock(ls[1..], ls[1].indent, inherited);
      v := Child(b);
    } else {
      v := Bare;
      if rest != "" { ScalarAnyLine(after, ls[0].lineNo); }
    }
  }

  lemma {:induction false} ReadItems(ls: seq<RawLine>, indent: nat, acc: seq<Node>, inherited: set<string>)
    returns (it: ItemReading)
    requires ParseItems(ls, indent, acc, inherited).Ok?
    ensures var r := ParseItems(ls, indent, acc, inherited);
            ls == LinesOfItems(it) + r.rest && acc + ItemMeaning(it) == r.value
    decreases |ls|, 2
  {
    hide ParseItems;
    hide ParseItemMap;
    hide ItemHead;
    hide ItemKeyOf;
    hide AfterItemKey;
    hide ItemOf;
    hide ScalarText;
    hide ValueMeaning;
    hide KeyMeaning;
    hide LinesOfKeys;
    hide ValueLines;
    hide LineText;
    hide IsDash;
    if ls == [] || ls[0].indent != indent || !IsDash(LineText(ls[0])) {
      ItemsEnd(ls, indent, acc, inherited);
      it := NoItemLine;
    } else {
      assert ls == [ls[0]] + ls[1..];
      var m := ItemStep(ls, indent, acc, inherited);
      if ItemHead(ls[0]).value.ScalarItem? {
        var item := Scalar(ScalarText(ItemOf(ls[0])));
        var rest := ReadItems(ls[1..], indent, acc + [item], inherited);
        it := TextLine(ls[0], rest);
        assert acc + [item] + ItemMeaning(rest) == acc + ItemMeaning(it);
      } else {
        var v, more := ReadItemMap(ls, indent + 2, ItemKeyOf(ls[0]), AfterItemKey(ls[0]), inherited);
        var rest := ReadItems(m.rest, indent, acc + [Mapping(m.value)], inherited);
        it := MapLine(ls[0], v, more, rest);
        var head := [ls[0]] + ValueLines(v) + LinesOfKeys(more);
        assert head + (LinesOfItems(rest) + ParseItems(ls, indent, acc, inherited).rest)
            == head + LinesOfItems(rest) + ParseItems(ls, indent, acc, inherited).rest;
        assert acc + [Mapping(m.value)] + ItemMeaning(rest) == acc + ItemMeaning(it);
      }
    }
  }

  lemma ItemsEnd(ls: seq<RawLine>, indent: nat, acc: seq<Node>, inherited: set<string>)
    requires ls == [] || ls[0].indent != indent || !IsDash(LineText(ls[0]))
    ensures ParseItems(ls, indent, acc, inherited) == Ok(acc, ls)
  {
  }

  lemma ItemStep(ls: seq<RawLine>, indent: nat, acc: seq<Node>, inherited: set<string>) returns (m: Parsed<Fields>)
    requires ls != [] && ls[0].indent == indent && IsDash(LineText(ls[0]))
    requires ParseItems(ls, indent, acc, inherited).Ok?
    ensures ItemHead(ls[0]).Success?
    ensures m == ParseItemMap(ls, indent + 2, ItemKeyOf(ls[0]), AfterItemKey(ls[0]), inherited)
    ensures ItemHead(ls[0]).value.KeyItem? ==> m.Ok?
    ensures ParseItems(ls, indent, acc, inherited)
         == if ItemHead(ls[0]).value.ScalarItem?
            then ParseItems(ls[1..], indent, acc + [Scalar(ScalarText(ItemOf(ls[0])))], inherited)
            else ParseItems(m.rest, indent, acc + [Mapping(m.value)], inherited)
  {
    ItemUnfold(ls, indent, acc, inherited);
    ItemRead(ls[0]);
    hide *;
    m := ParseItemMap(ls, indent + 2, ItemKeyOf(ls[0]), AfterItemKey(ls[0]), inherited);
  }

  lemma ItemUnfold(ls: seq<RawLine>, indent: nat, acc: seq<Node>, inherited: set<string>)
    requires ls != [] && ls[0].indent == indent && IsDash(LineText(ls[0]))
    requires ParseItems(ls, indent, acc, inherited).Ok?
    ensures match ItemHead(ls[0])
            case Failure(_) => false
            case Success(ScalarItem(s)) =>
              ParseItems(ls, indent, acc, inherited) == ParseItems(ls[1..], indent, acc + [Scalar(s)], inherited)
            case Success(KeyItem(key, after)) =>
              var m := ParseItemMap(ls, indent + 2, key, after, inherited);
              && m.Ok?
              && ParseItems(ls, indent, acc, inherited)
                 == ParseItems(m.rest, indent, acc + [Mapping(m.value)], inherited)
  {
    hide ItemHead, ParseItemMap, LineText, IsDash;
  }

  lemma ItemRead(l: RawLine)
    requires IsDash(LineText(l))
    ensures match ItemHead(l)
            case Success(ScalarItem(s)) => s == ScalarText(ItemOf(l))
            case Success(KeyItem(key, after)) => key == ItemKeyOf(l) && after == AfterItemKey(l)
            case Failure(_) => true
  {
    if ParseScalar(ItemOf(l), l.lineNo).Success? { ScalarAnyLine(ItemOf(l), l.lineNo); }
  }

  lemma {:induction false} ReadItemMap(ls: seq<RawLine>, indent: nat, key: string, after: string,
          inherited: set<string>)
    returns (v: ValueReading, more: KeyReading)
    requires ls != [] && ParseItemMap(ls, indent, key, after, inherited).Ok?
    ensures var r := ParseItemMap(ls, indent, key, after, inherited);
            && ls == [ls[0]] + ValueLines(v) + LinesOfKeys(more) + r.rest
            && [Field(key, ValueMeaning(after, indent, v))] + KeyMeaning(more) == r.value
    decreases |ls|, 1, 1
  {
    hide ParseValue;
    hide ParseFields;
    var head := ParseValue(ls, indent, after, true, inherited);
    v := ReadValue(ls, indent, after, true, inherited);
    more := ReadKeys(head.rest, indent, [Field(key, head.value)], true, inherited);
  }

  // The tokens of a document that parses, each in exactly one role, spell exactly the returned tree.
  lemma DocumentAccounted(src: string, inherited: set<string>) returns (b: Reading)
    requires var d := ParseDocument(src, inherited); d.Success? && d.value.Some?
    ensures BlockLines(b) == Tokenize(src)
    ensures ParseDocument(src, inherited) == Success(Some(BlockMeaning(b)))
  {
    var ls := Tokenize(src);
    b := ReadBlock(ls, ls[0].indent, inherited);
    assert BlockLines(b) + [] == BlockLines(b);
  }
}
