/** Trees: every tree that has a spelling, printed with two-blank steps, is read back. */
module YamlTrees {
  // Scalars are printed quoted, or as they are wherever that spells them.

  import opened Text
  import opened YamlSubset
  import opened YamlScalars
  import opened YamlRoundTrip

  predicate Quotable(s: string) {
    '"' !in s && '\n' !in s
  }

  // The text of a scalar spells it as it is: on one line, no blank at either end, no comment in it, no quote or bracket
  // in front, and no ": ".
  predicate PlainSpelling(s: string) {
    Snug(s) && '\n' !in s && (forall k :: 0 <= k < |s| ==> !StartsComment(s, k)) && PlainText(s)
  }

  // As a value it must not be the mark of a literal block, as an item not look like a key.
  predicate PlainValue(s: string) {
    PlainSpelling(s) && s != "|"
  }

  predicate PlainItem(s: string) {
    PlainSpelling(s) && s[|s| - 1] != ':'
  }

  // An empty sequence, a sequence in a sequence and an empty mapping in a sequence have no spelling.
  predicate Printable(n: Node, plain: bool, inherited: set<string>) {
    match n
    case Scalar(s) => Quotable(s) || (plain && PlainValue(s))
    case Mapping(fields) => PrintableFields(fields, plain, {}, inherited)
    case Sequence(items) => items != [] && forall it <- items :: PrintableItem(it, plain, inherited)
  }

  predicate PrintableItem(n: Node, plain: bool, inherited: set<string>)
    decreases n, 0
  {
    match n
    case Scalar(s) => (Quotable(s) && !HasColonBlank(s)) || (plain && PlainItem(s))
    case Sequence(_) => false
    case Mapping(fields) =>
      && fields != [] && KeyOk(fields[0].key) && Printable(fields[0].value, plain, inherited)
      && PrintableFields(fields[1..], plain, {fields[0].key}, inherited)
  }

  predicate PrintableFields(fields: Fields, plain: bool, used: set<string>, inherited: set<string>) {
    fields == [] ||
    (var Field(k, n) := fields[0];
     KeyOk(k) && k !in used && k !in inherited && Printable(n, plain, inherited) &&
     PrintableFields(fields[1..], plain, used + {k}, inherited))
  }

  function Quote(s: string): string {
    "\"" + s + "\""
  }

  function SpellText(s: string, asIs: bool): string {
    if asIs then s else Quote(s)
  }

  function Spell(n: Node, plain: bool): Doc {
    match n
    case Scalar(s) => Inline(SpellText(s, plain && PlainValue(s)))
    case Mapping(fields) => Block(1, SpellFields(fields, plain))
    case Sequence(items) => List(1, SpellItems(items, plain))
  }

  function SpellFields(fields: Fields, plain: bool): Entries {
    if fields == [] then NoEntry
    else Entry(fields[0].key, Spell(fields[0].value, plain), SpellFields(fields[1..], plain))
  }

  function SpellItems(items: seq<Node>, plain: bool): Items {
    if items == [] then NoItem
    else
      match items[0]
      case Scalar(s) => TextItem(SpellText(s, plain && PlainItem(s)), SpellItems(items[1..], plain))
      case Mapping(fields) =>
        if fields == [] then SpellItems(items[1..], plain)
        else MapItem(fields[0].key, Spell(fields[0].value, plain), SpellFields(fields[1..], plain),
                     SpellItems(items[1..], plain))
      case Sequence(_) => SpellItems(items[1..], plain)
  }

  lemma {:induction false} QuotedComment(s: string, i: nat)
    requires '"' !in s && 1 <= i <= |s| + 1
    ensures CommentStart(Quote(s), i, true) == |Quote(s)|
    decreases |s| - i + 1
  {
    if i <= |s| {
      assert Quote(s)[i] == s[i - 1];
      QuotedComment(s, i + 1);
    }
  }

  lemma QuotedInline(s: string)
    requires Quotable(s)
    ensures InlineOk(Quote(s)) && Tidy(Quote(s)) && Quote(s) != "|" && Meaning(Quote(s)) == s
  {
    var t := Quote(s);
    QuotedComment(s, 1);
    StripExact(t);
    assert t[1..|t| - 1] == s && t[|t| - 1] == '"';
  }

  lemma PlainInline(s: string)
    requires PlainSpelling(s)
    ensures InlineOk(s) && Meaning(s) == s
    ensures s[|s| - 1] != ':' ==> KeyColon(s) < 0
  {
    hide StartsComment;
  }

  lemma QuotedColon(s: string)
    requires Quotable(s)
    ensures KeyColon(Quote(s)) < 0 <==> !HasColonBlank(s)
  {
    var t := Quote(s);
    assert forall k :: 0 <= k < |s| ==> t[k + 1] == s[k];
    assert t[|t| - 1] == '"';
    if HasColonBlank(s) {
      var k :| 0 <= k < |s| - 1 && s[k] == ':' && s[k + 1] == ' ';
      assert t[k + 2] == s[k + 1];
      assert ColonAt(t, k + 1);
    }
    if KeyColon(t) >= 0 {
      var k := KeyColon(t) - 1;
      assert s[k] == t[k + 1] && k < |s| - 1;
      assert s[k + 1] == t[k + 2];
    }
  }

  lemma {:induction false} SpellOk(n: Node, plain: bool, inherited: set<string>)
    requires Printable(n, plain, inherited)
    ensures DocOk(Spell(n, plain), inherited) && ValueOf(Spell(n, plain)) == n && !Spell(n, plain).Literal?
    decreases n
  {
    match n
    case Scalar(s) => if plain && PlainValue(s) { PlainInline(s); } else { QuotedInline(s); }
    case Mapping(fields) => SpellFieldsOk(fields, plain, {}, inherited);
    case Sequence(items) =>
      assert PrintableItem(items[0], plain, inherited);
      SpellItemsOk(items, plain, inherited);
  }

  lemma {:induction false} SpellFieldsOk(fields: Fields, plain: bool, used: set<string>, inherited: set<string>)
    requires PrintableFields(fields, plain, used, inherited)
    ensures EntriesOk(SpellFields(fields, plain), used, inherited)
    ensures EntryValues(SpellFields(fields, plain)) == fields
    decreases fields
  {
    if fields != [] {
      var Field(k, n) := fields[0];
      assert fields[0] in fields;
      SpellOk(n, plain, inherited);
      SpellFieldsOk(fields[1..], plain, used + {fields[0].key}, inherited);
      assert fields == [fields[0]] + fields[1..];
    }
  }

  lemma {:induction false} SpellItemsOk(items: seq<Node>, plain: bool, inherited: set<string>)
    requires forall it <- items :: PrintableItem(it, plain, inherited)
    ensures ItemsOk(SpellItems(items, plain), inherited) && ItemValues(SpellItems(items, plain)) == items
    ensures items != [] ==> SpellItems(items, plain) != NoItem
    decreases items
  {
    if items != [] {
      assert PrintableItem(items[0], plain, inherited) && items == [items[0]] + items[1..];
      SpellItemsOk(items[1..], plain, inherited);
      match items[0] {
        case Scalar(s) =>
          if plain && PlainItem(s) {
            PlainInline(s);
          } else {
            QuotedInline(s);
            QuotedColon(s);
          }
        case Mapping(fields) =>
          SpellOk(fields[0].value, plain, inherited);
          SpellFieldsOk(fields[1..], plain, {fields[0].key}, inherited);
          assert fields == [fields[0]] + fields[1..];
      }
    }
  }

  function Print(fields: Fields, plain: bool): string {
    Join(PrintEntries(SpellFields(fields, plain), 0), "\n")
  }

  function PrintSequence(items: seq<Node>, plain: bool): string {
    Join(PrintItems(SpellItems(items, plain), 0), "\n")
  }

  lemma TreeRoundTrip(fields: Fields, plain: bool, inherited: set<string>)
    requires PrintableFields(fields, plain, {}, inherited)
    ensures ParseYamlSubset(Print(fields, plain), inherited) == Success(Mapping(fields))
  {
    SpellFieldsOk(fields, plain, {}, inherited);
    PrintThenParse(SpellFields(fields, plain), 0, inherited);
  }

  lemma SequenceTreeRoundTrip(items: seq<Node>, plain: bool, inherited: set<string>)
    requires forall it <- items :: PrintableItem(it, plain, inherited)
    ensures ParseYamlSequence(PrintSequence(items, plain), inherited) == Success(items)
  {
    SpellItemsOk(items, plain, inherited);
    PrintThenParseSequence(SpellItems(items, plain), 0, inherited);
  }

  // ---------------------------------------------------------------- single lines

  lemma OneField(k: string, s: string, inherited: set<string>)
    requires KeyOk(k) && k !in inherited && PlainValue(s)
    ensures PrintableFields([Field(k, Scalar(s))], true, {}, inherited)
    ensures SpellFields([Field(k, Scalar(s))], true) == Entry(k, Inline(s), NoEntry)
  {
    hide PlainValue, KeyOk, Quotable;
    assert [Field(k, Scalar(s))][1..] == [];
  }

  // A plain value is its own text.
  lemma PlainReadBack(k: string, s: string, inherited: set<string>)
    requires KeyOk(k) && k !in inherited && PlainValue(s)
    ensures ParseYamlSubset(k + ": " + s, inherited) == Success(Mapping([Field(k, Scalar(s))]))
  {
    hide ParseYamlSubset, PlainValue, KeyOk, Quotable;
    var fields := [Field(k, Scalar(s))];
    OneField(k, s, inherited);
    TreeRoundTrip(fields, true, inherited);
    assert Spaces(0) + k + ":" + (" " + s) == k + ": " + s;
    assert PrintEntries(SpellFields(fields, true), 0) == [k + ": " + s] + PrintEntries(NoEntry, 0);
  }

  lemma PlainItemReadBack(s: string, inherited: set<string>)
    requires PlainItem(s)
    ensures ParseYamlSequence("- " + s, inherited) == Success([Scalar(s)])
  {
    hide ParseYamlSequence, StartsComment;
    SequenceTreeRoundTrip([Scalar(s)], true, inherited);
    assert Spaces(0) + "- " + s == "- " + s;
    assert PrintItems(SpellItems([Scalar(s)], true), 0) == ["- " + s];
  }

  // A quoted sequence item is looked at for "key:" before its quotes are: it is read back exactly when it
  // holds no ": ".
  lemma QuotedItemReadBack(s: string, inherited: set<string>)
    requires Quotable(s)
    ensures ParseYamlSequence("- " + Quote(s), inherited) == Success([Scalar(s)]) <==> !HasColonBlank(s)
  {
    hide ParseYamlSequence;
    hide CommentStart;
    hide Printable;
    if HasColonBlank(s) {
      QuotedItemRejected(s, inherited);
    } else {
      SequenceTreeRoundTrip([Scalar(s)], false, inherited);
      assert Spaces(0) + "- " + Quote(s) == "- " + Quote(s);
      assert PrintItems(SpellItems([Scalar(s)], false), 0) == ["- " + Quote(s)];
    }
  }

  lemma QuotedItemRejected(s: string, inherited: set<string>)
    requires Quotable(s) && HasColonBlank(s)
    ensures ParseYamlSequence("- " + Quote(s), inherited) == Failure(UnsupportedKey(1))
  {
    hide CommentStart;
    hide ScalarOf;
    var t, raw := Quote(s), "- " + Quote(s);
    QuotedInline(s);
    QuotedColon(s);
    QuotedLine(s);
    var l := RawLine(raw, 0, 1);
    assert raw[2..] == t;
    TrimSnug(t);
    KeyOfQuoted(t, KeyColon(t));
    hide KeyOk;
    assert ItemHead(l) == Failure(UnsupportedKey(1));
    assert ParseItems([l], 0, [], inherited) == Bad(UnsupportedKey(1));
  }

  // The one token of a one-item document.
  lemma QuotedLine(s: string)
    requires Quotable(s)
    ensures var raw := "- " + Quote(s);
            Tokenize(raw) == [RawLine(raw, 0, 1)] && LineText(RawLine(raw, 0, 1)) == raw
  {
    hide CommentStart;
    hide ScalarOf;
    hide Indent;
    var t, raw := Quote(s), "- " + Quote(s);
    QuotedInline(s);
    TidyPrefix("- ", t);
    TidyLine(0, raw);
    assert Spaces(0) + raw == raw;
    SplitJoin([raw], '\n');
    HeadLine(RawLine(raw, Indent(raw), 1), 0, raw);
    assert Tokens([raw], 1) == [RawLine(raw, 0, 1)] + Tokens([], 2);
  }

  lemma KeyOfQuoted(t: string, i: nat)
    requires i < |t| && t[0] == '"' && t[i] == ':'
    ensures !KeyOk(Trim(t[..i]))
  {
    var k := t[..i];
    TrimEndDrops(k);
    assert i == 0 || (Trim(k) == k[..|Trim(k)|] && Trim(k) != "" && Trim(k)[0] == '"');
  }
}
