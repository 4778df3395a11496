/** A printer for the YAML subset, and that the parser reads it back. */
module YamlRoundTrip {
  // A document is printed from a tree that fixes how each scalar is spelled and how far each nested block is indented;
  // its value is the tree the parser is meant to return.

  import opened Text
  import opened YamlSubset
  import opened YamlScalars

  datatype Doc =
    | Inline(text: string)                  // a plain or double-quoted scalar, as spelled
    | Literal(body: seq<string>)            // a `|` block
    | Block(extra: nat, entries: Entries)   // a mapping, indented by 1 + extra
    | List(extra: nat, items: Items)        // a sequence, indented by 1 + extra

  datatype Entries = NoEntry | Entry(key: string, value: Doc, rest: Entries)

  datatype Items =
    | NoItem
    | TextItem(text: string, rest: Items)
    | MapItem(key: string, value: Doc, more: Entries, rest: Items)

  // ---------------------------------------------------------------- printing

  function PrintEntries(e: Entries, d: nat): seq<string>
    decreases e
  {
    match e
    case NoEntry => []
    case Entry(k, v, rest) => PrintValue(Spaces(d) + k + ":", v, d) + PrintEntries(rest, d)
  }

  // `head` is the line up to and with the colon; `d` is the indentation of its key.
  function PrintValue(head: string, v: Doc, d: nat): seq<string>
    decreases v
  {
    match v
    case Inline(_) => [head + Tail(v)]
    case Literal(body) => [head + Tail(v)] + seq(|body|, k requires 0 <= k < |body| => Spaces(d + 2) + body[k])
    case Block(extra, e) => [head + Tail(v)] + PrintEntries(e, d + 1 + extra)
    case List(extra, items) => [head + Tail(v)] + PrintItems(items, d + 1 + extra)
  }

  // What follows the colon on the key's own line.
  function Tail(v: Doc): string {
    match v
    case Inline(t) => " " + t
    case Literal(_) => " |"
    case _ => ""
  }

  // The keys that continue a map item sit at d + 2.
  function PrintItems(items: Items, d: nat): seq<string>
    decreases items
  {
    match items
    case NoItem => []
    case TextItem(t, rest) => [Spaces(d) + "- " + t] + PrintItems(rest, d)
    case MapItem(k, v, more, rest) =>
      PrintValue(Spaces(d) + "- " + k + ":", v, d + 2) + PrintEntries(more, d + 2) + PrintItems(rest, d)
  }

  // ---------------------------------------------------------------- meaning

  function ValueOf(v: Doc): Node {
    match v
    case Inline(t) => Scalar(Meaning(t))
    case Literal(body) => Scalar(Join(body, "\n"))
    case Block(_, e) => Mapping(EntryValues(e))
    case List(_, items) => Sequence(ItemValues(items))
  }

  function EntryValues(e: Entries): Fields {
    match e
    case NoEntry => []
    case Entry(k, v, rest) => [Field(k, ValueOf(v))] + EntryValues(rest)
  }

  function ItemValues(items: Items): seq<Node> {
    match items
    case NoItem => []
    case TextItem(t, rest) => [Scalar(Meaning(t))] + ItemValues(rest)
    case MapItem(k, v, more, rest) => [Mapping([Field(k, ValueOf(v))] + EntryValues(more))] + ItemValues(rest)
  }

  // ---------------------------------------------------------------- well-formedness

  // A scalar spelling that survives on a line: no newline, no comment, no blank at either end.
  predicate InlineOk(t: string) {
    Snug(t) && '\n' !in t && (forall k :: 0 <= k < |t| ==> !StartsComment(t, k)) && (PlainText(t) || QuotedText(t))
  }

  // A line of a `|` block: blank and comment-only lines would be dropped before the parser sees them.
  predicate LiteralLineOk(b: string) {
    '\n' !in b && b != "" && b[0] != '#' && Trim(StripComment(b)) != ""
  }

  predicate DocOk(v: Doc, inherited: set<string>) {
    match v
    case Inline(t) => InlineOk(t) && t != "|"
    case Literal(body) => forall b <- body :: LiteralLineOk(b)
    case Block(_, e) => EntriesOk(e, {}, inherited)
    case List(_, items) => items != NoItem && ItemsOk(items, inherited)
  }

  predicate EntriesOk(e: Entries, used: set<string>, inherited: set<string>) {
    match e
    case NoEntry => true
    case Entry(k, v, rest) =>
      KeyOk(k) && k !in used && k !in inherited && DocOk(v, inherited) && EntriesOk(rest, used + {k}, inherited)
  }

  predicate ItemsOk(items: Items, inherited: set<string>) {
    match items
    case NoItem => true
    case TextItem(t, rest) => InlineOk(t) && KeyColon(t) < 0 && ItemsOk(rest, inherited)
    case MapItem(k, v, more, rest) =>
      KeyOk(k) && !v.Literal? && DocOk(v, inherited) && EntriesOk(more, {k}, inherited) && ItemsOk(rest, inherited)
  }

  // ---------------------------------------------------------------- lines

  // `ls` are tokens spelled exactly `raws`.
  predicate Spells(ls: seq<RawLine>, raws: seq<string>) {
    |ls| == |raws| && forall k :: 0 <= k < |ls| ==> ls[k].raw == raws[k] && ls[k].indent == Indent(raws[k])
  }

  // The next line, if any, is indented by less than d.
  predicate Below(post: seq<RawLine>, d: nat) {
    post == [] || post[0].indent < d
  }

  // A comment-free line body with no blank at either end.
  predicate Tidy(h: string) {
    Snug(h) && CommentStart(h, 0, false) == |h|
  }

  predicate Plain(p: string) {
    forall k :: 0 <= k < |p| ==> p[k] != '"' && p[k] != '#'
  }

  // Characters that are neither quotes nor '#' in front do not move the comment.
  lemma {:induction false} CommentShift(p: string, s: string, i: nat, q: bool)
    requires i <= |s| && (i == 0 ==> s == "" || s[0] != '#')
    ensures CommentStart(p + s, |p| + i, q) == |p| + CommentStart(s, i, q)
    decreases |s| - i
  {
    if i < |s| {
      assert (p + s)[|p| + i] == s[i];
      if i > 0 { assert (p + s)[|p| + i - 1] == s[i - 1]; }
      CommentShift(p, s, i + 1, if s[i] == '"' then !q else q);
    }
  }

  lemma {:induction false} CommentSkip(p: string, s: string, i: nat)
    requires i <= |p| && Plain(p)
    ensures CommentStart(p + s, i, false) == CommentStart(p + s, |p|, false)
    decreases |p| - i
  {
    if i < |p| {
      assert (p + s)[i] == p[i];
      CommentSkip(p, s, i + 1);
    }
  }

  lemma CommentAfter(p: string, s: string)
    requires Plain(p) && (s == "" || s[0] != '#')
    ensures CommentStart(p + s, 0, false) == |p| + CommentStart(s, 0, false)
  {
    CommentSkip(p, s, 0);
    CommentShift(p, s, 0, false);
  }

  lemma TidyPrefix(p: string, s: string)
    requires Plain(p) && p != "" && !IsSpace(p[0]) && Tidy(s)
    ensures Tidy(p + s)
  {
    CommentAfter(p, s);
    assert (p + s)[|p + s| - 1] == s[|s| - 1];
  }

  lemma {:induction false} Padding(d: nat)
    ensures Plain(Spaces(d))
  {
    if d > 0 { Padding(d - 1); }
  }

  lemma StripTidy(pad: string, h: string)
    requires Plain(pad) && Tidy(h)
    ensures StripComment(pad + h) == pad + h
  {
    CommentAfter(pad, h);
  }

  // A token spelled as d blanks and a tidy body has that indentation and that text.
  lemma HeadLine(l: RawLine, d: nat, h: string)
    requires Tidy(h) && l.raw == Spaces(d) + h && l.indent == Indent(l.raw)
    ensures l.indent == d && LineText(l) == h
  {
    Padding(d);
    TrimPadded(Spaces(d), h);
    StripTidy(Spaces(d), h);
  }

  // What follows a key's colon on its line: nothing, or a blank and some text.
  predicate TailOk(after: string) {
    after == "" || (after[0] == ' ' && |after| > 1 && Tidy(after[1..]))
  }

  lemma InlineTidy(t: string)
    requires InlineOk(t)
    ensures Tidy(t) && ScalarOf(t, 0) == Success(Meaning(t)) && forall n :: ScalarOf(t, n) == Success(Meaning(t))
  {
    StripExact(t);
    forall n ensures ScalarOf(t, n) == Success(Meaning(t)) { ScalarExact(t, n); }
  }

  lemma DocTail(v: Doc, inherited: set<string>)
    requires DocOk(v, inherited)
    ensures TailOk(Tail(v)) && '\n' !in Tail(v)
  {
    match v
    case Inline(t) =>
      InlineTidy(t);
      assert Tail(v)[1..] == t;
    case Literal(_) => assert Tail(v)[1..] == "|" && CommentStart("|", 0, false) == 1;
    case _ =>
  }

  lemma KeyPosition(k: string, after: string)
    requires KeyOk(k) && TailOk(after)
    ensures var h := k + ":" + after;
            h[..|k|] == k && h[|k| + 1..] == after && IndexOf(h, ':') == |k| && KeyColon(h) == |k|
  {
    var h := k + ":" + after;
    assert forall j :: 0 <= j < |k| ==> h[j] == k[j];
    assert ColonAt(h, |k|);
  }

  lemma {:induction false} KeyChars(s: string)
    requires AllKeyChars(s)
    ensures forall c <- s :: KeyChar(c)
  {
    if s != "" { KeyChars(s[1..]); assert s == [s[0]] + s[1..]; }
  }

  lemma KeySnug(k: string)
    requires KeyOk(k)
    ensures Snug(k) && Trim(k) == k && Plain(k) && forall c <- k :: !IsSpace(c)
  {
    KeyChars(k);
    assert k[0] in k && k[|k| - 1] in k;
    TrimSnug(k);
  }

  lemma KeyTidy(k: string, after: string)
    requires KeyOk(k) && TailOk(after)
    ensures var h := k + ":" + after; Tidy(h) && !IsDash(h)
  {
    var h := k + ":" + after;
    KeySnug(k);
    assert h[0] == k[0] && h[1] == if |k| > 1 then k[1] else ':';
    assert h[1] != ' ' by { assert |k| > 1 ==> k[1] in k; }
    assert h[..2][1] == h[1];
    if after == "" {
      assert CommentStart(":", 0, false) == 1;
      TidyPrefix(k, ":");
      assert h == k + ":";
    } else {
      assert h == (k + ": ") + after[1..];
      TidyPrefix(k + ": ", after[1..]);
    }
  }

  // ---------------------------------------------------------------- the parser reads each piece back

  // Scalars: the line number only appears in errors.
  lemma InlineRead(t: string, lineNo: nat)
    requires InlineOk(t)
    ensures Trim(" " + t) == t && Trim(t) == t
    ensures ParseScalar(t, lineNo) == Success(Meaning(t)) == ParseScalar(" " + t, lineNo)
  {
    InlineTidy(t);
    hide ScalarOf, HasColonBlank, Meaning;
    TrimPadded(" ", t);
    TrimSnug(t);
    assert StripComment(t) == t;
    StripTidy(" ", t);
  }

  lemma LiteralRead(ls: seq<RawLine>, body: seq<string>, d: nat, post: seq<RawLine>)
    requires Spells(ls, seq(|body|, k requires 0 <= k < |body| => Spaces(d + 2) + body[k]))
    requires post == [] || post[0].indent <= d
    ensures DeeperCount(ls + post, d) == |ls| && Cut((ls + post)[..|ls|], d + 2) == body
  {
    forall k | 0 <= k < |ls| ensures ls[k].indent > d && SliceFrom(ls[k].raw, d + 2) == body[k] {
      DeepLine(Spaces(d + 2), body[k]);
    }
    AllDeeper(ls, post, d);
    assert (ls + post)[..|ls|] == ls;
  }

  lemma {:induction false} AllDeeper(ls: seq<RawLine>, post: seq<RawLine>, d: nat)
    requires (forall k :: 0 <= k < |ls| ==> ls[k].indent > d) && (post == [] || post[0].indent <= d)
    ensures DeeperCount(ls + post, d) == |ls|
  {
    if ls == [] {
      assert ls + post == post;
    } else {
      assert (ls + post)[1..] == ls[1..] + post;
      AllDeeper(ls[1..], post, d);
    }
  }

  lemma {:induction false} DeepLine(pad: string, b: string)
    requires Blank(pad)
    ensures Indent(pad + b) >= |pad| && SliceFrom(pad + b, |pad|) == b
  {
    if pad == "" {
      assert pad + b == b;
    } else {
      assert (pad + b)[1..] == pad[1..] + b;
      DeepLine(pad[1..], b);
      assert (pad + b)[|pad|..] == b;
    }
  }

  lemma ReadInline(ls: seq<RawLine>, t: string, d: nat, itemHead: bool, post: seq<RawLine>, inherited: set<string>)
    requires |ls| == 1 && InlineOk(t) && t != "|"
    ensures ParseValue(ls + post, d, " " + t, itemHead, inherited) == Ok(Scalar(Meaning(t)), post)
  {
    InlineRead(t, (ls + post)[0].lineNo);
    assert (ls + post)[1..] == post;
  }

  lemma DropLines(ls: seq<RawLine>, post: seq<RawLine>, k: nat)
    requires k <= |ls|
    ensures (ls + post)[k..] == ls[k..] + post
  {
  }

  lemma ReadLiteral(ls: seq<RawLine>, body: seq<string>, d: nat, post: seq<RawLine>, inherited: set<string>)
    requires ls != [] && Spells(ls[1..], seq(|body|, k requires 0 <= k < |body| => Spaces(d + 2) + body[k]))
    requires post == [] || post[0].indent <= d
    ensures ParseValue(ls + post, d, " |", false, inherited) == Ok(Scalar(Join(body, "\n")), post)
  {
    hide ParseValue;
    hide Spells;
    hide Join;
    hide Cut;
    hide DeeperCount;
    var all, below := ls + post, ls[1..];
    TrimPadded(" ", "|");
    DropLines(ls, post, 1);
    DropLines(below, post, |below|);
    LiteralRead(below, body, d, post);
    LiteralStep(all, d, inherited);
  }

  lemma LiteralStep(ls: seq<RawLine>, d: nat, inherited: set<string>)
    requires ls != [] && Trim(" |") == "|"
    ensures var n := DeeperCount(ls[1..], d);
            ParseValue(ls, d, " |", false, inherited) == Ok(Scalar(Join(Cut(ls[1..][..n], d + 2), "\n")), ls[1..][n..])
  {
    hide ParseBlock;
    hide ScalarOf;
    hide Trim;
  }

  // A key with nothing after its colon takes the deeper block below it, or the empty mapping.
  lemma ReadBelow(ls: seq<RawLine>, d: nat, itemHead: bool, post: seq<RawLine>, inherited: set<string>)
    requires ls != [] && (|ls| > 1 ==> ls[1].indent > d) && (post == [] || post[0].indent <= d)
    ensures ParseValue(ls + post, d, "", itemHead, inherited)
         == if |ls| > 1 then ParseBlock(ls[1..] + post, ls[1].indent, inherited) else Ok(Mapping([]), post)
  {
    assert (ls + post)[1..] == ls[1..] + post;
    assert |ls| > 1 ==> (ls + post)[1] == ls[1];
    assert |ls| == 1 ==> ls[1..] + post == post;
  }

  lemma {:induction false} ReadValue(ls: seq<RawLine>, head: string, v: Doc, d: nat, itemHead: bool,
                                     post: seq<RawLine>, inherited: set<string>)
    requires Spells(ls, PrintValue(head, v, d)) && DocOk(v, inherited) && (itemHead ==> !v.Literal?)
    requires post == [] || post[0].indent <= d
    ensures ParseValue(ls + post, d, Tail(v), itemHead, inherited) == Ok(ValueOf(v), post)
    decreases v
  {
    hide ParseValue;
    hide Spells;
    hide InlineOk;
    hide LiteralLineOk;
    hide EntriesOk;
    hide ItemsOk;
    hide Join;
    var all := PrintValue(head, v, d);
    assert all == [head + Tail(v)] + all[1..];
    SpellsCut(ls, [head + Tail(v)], all[1..]);
    match v {
      case Inline(t) => ReadInline(ls, t, d, itemHead, post, inherited);
      case Literal(body) => ReadLiteral(ls, body, d, post, inherited);
      case Block(extra, e) => ReadChildMapping(ls, d, itemHead, e, d + 1 + extra, post, inherited);
      case List(extra, items) => ReadChildSequence(ls, d, itemHead, items, d + 1 + extra, post, inherited);
    }
  }

  lemma {:induction false} ReadChildMapping(ls: seq<RawLine>, d: nat, itemHead: bool, e: Entries, c: nat,
                                            post: seq<RawLine>, inherited: set<string>)
    requires ls != [] && Spells(ls[1..], PrintEntries(e, c)) && EntriesOk(e, {}, inherited) && c > d
    requires post == [] || post[0].indent <= d
    ensures ParseValue(ls + post, d, "", itemHead, inherited) == Ok(Mapping(EntryValues(e)), post)
    decreases e, 1
  {
    hide ParseFields;
    hide ParseValue;
    hide LineText;
    var below := ls[1..];
    match e
    case NoEntry => ReadBelow(ls, d, itemHead, post, inherited);
    case Entry(k, v, rest) =>
      DocTail(v, inherited);
      FirstEntry(below, k, v, rest, c);
      ReadBelow(ls, d, itemHead, post, inherited);
      assert Keys([]) == {};
      ReadEntries(below, e, c, [], false, post, inherited);
      assert [] + EntryValues(e) == EntryValues(e);
  }

  lemma {:induction false} ReadChildSequence(ls: seq<RawLine>, d: nat, itemHead: bool, items: Items, c: nat,
                                             post: seq<RawLine>, inherited: set<string>)
    requires ls != [] && Spells(ls[1..], PrintItems(items, c)) && c > d
    requires items != NoItem && ItemsOk(items, inherited) && (post == [] || post[0].indent <= d)
    ensures ParseValue(ls + post, d, "", itemHead, inherited) == Ok(Sequence(ItemValues(items)), post)
    decreases items, 3
  {
    hide ParseItems;
    hide ParseValue;
    hide LineText;
    hide ItemsOk;
    FirstItem(ls[1..], items, c, inherited);
    ReadBelow(ls, d, itemHead, post, inherited);
    ReadItems(ls[1..], items, c, [], post, inherited);
    assert [] + ItemValues(items) == ItemValues(items);
  }

  lemma ValueStarts(head: string, v: Doc, d: nat)
    ensures |PrintValue(head, v, d)| > 0 && PrintValue(head, v, d)[0] == head + Tail(v)
  {
  }

  lemma Regroup(p: string, k: string, t: string)
    ensures p + k + ":" + t == p + (k + ":" + t) && p + "- " + k + ":" + t == p + ("- " + (k + ":" + t))
  {
  }

  // The first line of a nonempty printed mapping sits at d and is no sequence item.
  lemma FirstEntry(ls: seq<RawLine>, k: string, v: Doc, rest: Entries, d: nat)
    requires KeyOk(k) && TailOk(Tail(v))
    requires Spells(ls, PrintEntries(Entry(k, v, rest), d))
    ensures ls != [] && ls[0].indent == d && LineText(ls[0]) == k + ":" + Tail(v) && !IsDash(LineText(ls[0]))
  {
    KeyTidy(k, Tail(v));
    ValueStarts(Spaces(d) + k + ":", v, d);
    Regroup(Spaces(d), k, Tail(v));
    HeadLine(ls[0], d, k + ":" + Tail(v));
  }

  // Every printed item starts with a dash at d.
  lemma FirstText(ls: seq<RawLine>, t: string, rest: Items, d: nat)
    requires InlineOk(t) && Spells(ls, PrintItems(TextItem(t, rest), d))
    ensures ls != [] && ls[0].indent == d && LineText(ls[0]) == "- " + t && IsDash(LineText(ls[0]))
  {
    InlineTidy(t);
    TidyPrefix("- ", t);
    assert Spaces(d) + "- " + t == Spaces(d) + ("- " + t);
    HeadLine(ls[0], d, "- " + t);
  }

  lemma FirstMap(ls: seq<RawLine>, k: string, v: Doc, more: Entries, rest: Items, d: nat)
    requires KeyOk(k) && TailOk(Tail(v)) && Spells(ls, PrintItems(MapItem(k, v, more, rest), d))
    ensures ls != [] && ls[0].indent == d && LineText(ls[0]) == "- " + (k + ":" + Tail(v)) && IsDash(LineText(ls[0]))
  {
    KeyTidy(k, Tail(v));
    TidyPrefix("- ", k + ":" + Tail(v));
    ValueStarts(Spaces(d) + "- " + k + ":", v, d + 2);
    Regroup(Spaces(d), k, Tail(v));
    HeadLine(ls[0], d, "- " + (k + ":" + Tail(v)));
  }

  lemma FirstItem(ls: seq<RawLine>, items: Items, d: nat, inherited: set<string>)
    requires items != NoItem && ItemsOk(items, inherited) && Spells(ls, PrintItems(items, d))
    ensures ls != [] && ls[0].indent == d && IsDash(LineText(ls[0]))
  {
    match items
    case TextItem(t, rest) => FirstText(ls, t, rest, d);
    case MapItem(k, v, more, rest) =>
      DocTail(v, inherited);
      FirstMap(ls, k, v, more, rest, d);
  }

  // What follows an entry at d is a sibling at d or lies further out.
  lemma NextEntry(ls: seq<RawLine>, e: Entries, d: nat, post: seq<RawLine>, used: set<string>, inherited: set<string>)
    requires Spells(ls, PrintEntries(e, d)) && EntriesOk(e, used, inherited) && Below(post, d)
    ensures Below(ls + post, d + 1)
  {
    match e
    case NoEntry => assert ls + post == post;
    case Entry(k, v, rest) =>
      DocTail(v, inherited);
      FirstEntry(ls, k, v, rest, d);
  }

  lemma NextItem(ls: seq<RawLine>, items: Items, d: nat, post: seq<RawLine>, inherited: set<string>)
    requires Spells(ls, PrintItems(items, d)) && ItemsOk(items, inherited) && Below(post, d)
    ensures Below(ls + post, d + 1)
  {
    if items == NoItem {
      assert ls + post == post;
    } else {
      FirstItem(ls, items, d, inherited);
    }
  }

  // Lines further out end both loops.
  lemma Stops(post: seq<RawLine>, d: nat, acc: Fields, inItem: bool, items: seq<Node>, inherited: set<string>)
    requires Below(post, d)
    ensures ParseFields(post, d, acc, inItem, inherited) == Ok(acc, post)
    ensures ParseItems(post, d, items, inherited) == Ok(items, post)
  {
  }

  // One round of each parser loop.
  lemma FieldStep(ls: seq<RawLine>, d: nat, acc: Fields, inItem: bool, k: string, v: Doc, inherited: set<string>,
                  post: seq<RawLine>)
    requires ls != [] && ls[0].indent == d && KeyOk(k) && TailOk(Tail(v)) && !Taken(k, acc, inherited)
    requires LineText(ls[0]) == k + ":" + Tail(v)
    requires ParseValue(ls, d, Tail(v), false, inherited) == Ok(ValueOf(v), post)
    ensures ParseFields(ls, d, acc, inItem, inherited)
         == ParseFields(post, d, acc + [Field(k, ValueOf(v))], inItem, inherited)
  {
    EntryHead(ls[0], k, Tail(v), acc, inherited);
    KeyTidy(k, Tail(v));
  }

  lemma KeysGrow(acc: Fields, k: string, v: Node)
    ensures Keys(acc + [Field(k, v)]) == Keys(acc) + {k} && Keys([Field(k, v)]) == {k}
  {
  }

  lemma EntryHead(l: RawLine, k: string, after: string, acc: Fields, inherited: set<string>)
    requires KeyOk(k) && TailOk(after) && !Taken(k, acc, inherited) && LineText(l) == k + ":" + after
    ensures FieldHead(l, acc, inherited) == Success((k, after))
  {
    KeyPosition(k, after);
    KeySnug(k);
  }

  lemma TextStep(ls: seq<RawLine>, d: nat, acc: seq<Node>, t: string, inherited: set<string>)
    requires ls != [] && ls[0].indent == d && InlineOk(t) && KeyColon(t) < 0 && LineText(ls[0]) == "- " + t
    ensures ParseItems(ls, d, acc, inherited) == ParseItems(ls[1..], d, acc + [Scalar(Meaning(t))], inherited)
  {
    ItemHeadText(ls[0], t);
  }

  lemma MapStep(ls: seq<RawLine>, d: nat, acc: seq<Node>, k: string, v: Doc, inherited: set<string>,
                cont: seq<RawLine>, fields: Fields, post: seq<RawLine>)
    requires ls != [] && ls[0].indent == d && KeyOk(k) && TailOk(Tail(v))
    requires LineText(ls[0]) == "- " + (k + ":" + Tail(v))
    requires ParseValue(ls, d + 2, Tail(v), true, inherited) == Ok(ValueOf(v), cont)
    requires ParseFields(cont, d + 2, [Field(k, ValueOf(v))], true, inherited) == Ok(fields, post)
    ensures ParseItems(ls, d, acc, inherited) == ParseItems(post, d, acc + [Mapping(fields)], inherited)
  {
    hide ParseValue;
    hide ParseFields;
    hide KeyOk;
    hide TailOk;
    hide ItemHead;
    ItemHeadKey(ls[0], k, Tail(v));
  }

  lemma SpellsCut(ls: seq<RawLine>, a: seq<string>, b: seq<string>)
    requires Spells(ls, a + b)
    ensures |ls| == |a| + |b| && Spells(ls[..|a|], a) && Spells(ls[|a|..], b)
  {
    assert forall k :: 0 <= k < |a| ==> (a + b)[k] == a[k];
    assert forall k :: 0 <= k < |b| ==> (a + b)[|a| + k] == b[k];
  }

  lemma {:induction false} ReadEntries(ls: seq<RawLine>, e: Entries, d: nat, acc: Fields, inItem: bool,
                                       post: seq<RawLine>, inherited: set<string>)
    requires Spells(ls, PrintEntries(e, d)) && EntriesOk(e, Keys(acc), inherited) && Below(post, d)
    ensures ParseFields(ls + post, d, acc, inItem, inherited) == Ok(acc + EntryValues(e), post)
    decreases e, 0
  {
    hide ParseValue;
    hide LineText;
    hide KeyOk;
    hide DocOk;
    hide TailOk;
    hide Tail;
    hide PrintValue;
    hide ParseFields;
    hide Spells;
    hide Keys;
    hide ValueOf;
    match e
    case NoEntry =>
      Stops(post, d, acc, inItem, [], inherited);
      SpellsCut(ls, [], []);
      assert ls + post == post && acc + [] == acc;
    case Entry(k, v, rest) =>
      var head := Spaces(d) + k + ":";
      SpellsCut(ls, PrintValue(head, v, d), PrintEntries(rest, d));
      var m := |PrintValue(head, v, d)|;
      var mine, others := ls[..m], ls[m..];
      assert ls + post == mine + (others + post);
      DocTail(v, inherited);
      FirstEntry(ls, k, v, rest, d);
      NextEntry(others, rest, d, post, Keys(acc) + {k}, inherited);
      ReadValue(mine, head, v, d, false, others + post, inherited);
      FieldStep(ls + post, d, acc, inItem, k, v, inherited, others + post);
      var acc' := acc + [Field(k, ValueOf(v))];
      KeysGrow(acc, k, ValueOf(v));
      ReadEntries(others, rest, d, acc', inItem, post, inherited);
      assert acc' + EntryValues(rest) == acc + EntryValues(e);
  }

  lemma {:induction false} ReadItems(ls: seq<RawLine>, items: Items, d: nat, acc: seq<Node>,
                                     post: seq<RawLine>, inherited: set<string>)
    requires Spells(ls, PrintItems(items, d)) && ItemsOk(items, inherited) && Below(post, d)
    ensures ParseItems(ls + post, d, acc, inherited) == Ok(acc + ItemValues(items), post)
    decreases items, 2
  {
    hide ParseValue;
    hide ParseFields;
    hide LineText;
    hide KeyOk;
    hide DocOk;
    hide TailOk;
    hide Tail;
    hide PrintValue;
    hide InlineOk;
    hide ParseItems;
    hide Spells;
    hide Keys;
    hide ValueOf;
    hide EntriesOk;
    match items
    case NoItem =>
      Stops(post, d, [], false, acc, inherited);
      SpellsCut(ls, [], []);
      assert ls + post == post && acc + [] == acc;
    case TextItem(t, rest) =>
      FirstText(ls, t, rest, d);
      var others := ls[1..];
      SpellsCut(ls, [Spaces(d) + "- " + t], PrintItems(rest, d));
      assert (ls + post)[1..] == others + post;
      TextStep(ls + post, d, acc, t, inherited);
      ReadItems(others, rest, d, acc + [Scalar(Meaning(t))], post, inherited);
      assert acc + [Scalar(Meaning(t))] + ItemValues(rest) == acc + ItemValues(items);
    case MapItem(k, v, more, rest) =>
      var item := Mapping([Field(k, ValueOf(v))] + EntryValues(more));
      var n := |PrintItems(items, d)| - |PrintItems(rest, d)|;
      ReadFirstMap(ls, items, d, acc, post, inherited);
      ReadItems(ls[n..], rest, d, acc + [item], post, inherited);
      assert acc + [item] + ItemValues(rest) == acc + ItemValues(items);
  }

  lemma {:induction false} ReadFirstMap(ls: seq<RawLine>, items: Items, d: nat, acc: seq<Node>,
                                        post: seq<RawLine>, inherited: set<string>)
    requires items.MapItem? && Spells(ls, PrintItems(items, d)) && ItemsOk(items, inherited) && Below(post, d)
    ensures var n := |PrintItems(items, d)| - |PrintItems(items.rest, d)|;
            && 0 <= n <= |ls| && Spells(ls[n..], PrintItems(items.rest, d))
            && ParseItems(ls + post, d, acc, inherited)
            == ParseItems(ls[n..] + post, d,
                acc + [Mapping([Field(items.key, ValueOf(items.value))] + EntryValues(items.more))],
                          inherited)
    decreases items, 1
  {
    hide ParseItems;
    hide ParseValue;
    hide ParseFields;
    hide Spells;
    hide LineText;
    hide KeyOk;
    hide DocOk;
    hide EntriesOk;
    hide TailOk;
    hide Tail;
    hide PrintValue;
    hide PrintEntries;
    hide ValueOf;
    hide EntryValues;
    hide InlineOk;
    var MapItem(k, v, more, rest) := items;
    var head := Spaces(d) + "- " + k + ":";
    var a, b, c := PrintValue(head, v, d + 2), PrintEntries(more, d + 2), PrintItems(rest, d);
    SpellsCut(ls, a + b, c);
    SpellsCut(ls[..|a + b|], a, b);
    var mine, cont, others := ls[..|a + b|][..|a|], ls[..|a + b|][|a|..], ls[|a + b|..];
    assert ls + post == mine + (cont + (others + post));
    DocTail(v, inherited);
    FirstMap(ls, k, v, more, rest, d);
    NextItem(others, rest, d, post, inherited);
    ReadItemMap(mine, cont, head, items, d + 2, others + post, inherited);
    var fields := [Field(k, ValueOf(v))] + EntryValues(more);
    MapStep(ls + post, d, acc, k, v, inherited, cont + (others + post), fields, others + post);
  }

  lemma {:induction false} ReadItemMap(mine: seq<RawLine>, cont: seq<RawLine>, head: string, item: Items, d: nat,
                                       post: seq<RawLine>, inherited: set<string>)
    requires item.MapItem? && Spells(mine, PrintValue(head, item.value, d)) && Spells(cont, PrintEntries(item.more, d))
    requires !item.value.Literal? && DocOk(item.value, inherited) && EntriesOk(item.more, {item.key}, inherited)
    requires Below(post, d)
    ensures var v := item.value;
            && ParseValue(mine + (cont + post), d, Tail(v), true, inherited) == Ok(ValueOf(v), cont + post)
            && ParseFields(cont + post, d, [Field(item.key, ValueOf(v))], true, inherited)
            == Ok([Field(item.key, ValueOf(v))] + EntryValues(item.more), post)
    decreases item, 0
  {
    hide ParseValue;
    hide ParseFields;
    hide Spells;
    hide Keys;
    hide DocOk;
    hide EntriesOk;
    hide ValueOf;
    hide EntryValues;
    hide PrintValue;
    hide PrintEntries;
    hide Tail;
    var acc := [Field(item.key, ValueOf(item.value))];
    NextEntry(cont, item.more, d, post, {item.key}, inherited);
    ReadValue(mine, head, item.value, d, true, cont + post, inherited);
    KeysGrow([], item.key, ValueOf(item.value));
    ReadEntries(cont, item.more, d, acc, true, post, inherited);
  }

  lemma ItemHeadText(l: RawLine, t: string)
    requires InlineOk(t) && KeyColon(t) < 0 && LineText(l) == "- " + t
    ensures IsDash(LineText(l)) && ItemHead(l) == Success(ScalarItem(Meaning(t)))
  {
    InlineRead(t, l.lineNo);
    assert ("- " + t)[2..] == t;
  }

  lemma ItemHeadKey(l: RawLine, k: string, after: string)
    requires KeyOk(k) && TailOk(after) && LineText(l) == "- " + (k + ":" + after)
    ensures IsDash(LineText(l)) && ItemHead(l) == Success(KeyItem(k, after))
  {
    hide CommentStart;
    hide AllKeyChars;
    hide StripComment;
    var h := k + ":" + after;
    KeyPosition(k, after);
    KeyTidy(k, after);
    KeySnug(k);
    assert ("- " + h)[2..] == h;
    TrimSnug(h);
  }

  // ---------------------------------------------------------------- whole documents

  // The lines the tokenizer keeps, as written.
  function SignificantLines(raws: seq<string>): seq<string> {
    if raws == [] then []
    else (if Significant(raws[0]) then [raws[0]] else []) + SignificantLines(raws[1..])
  }

  lemma {:induction false} TokensSpell(raws: seq<string>, lineNo: nat)
    ensures Spells(Tokens(raws, lineNo), SignificantLines(raws))
  {
    hide Significant;
    hide Indent;
    if raws != [] { TokensSpell(raws[1..], lineNo + 1); }
  }

  // The parser returns a document's value from any text whose significant lines are its printing: whatever
  // the spelling of its scalars, the width of each indentation step, and the blanks and comments in between.
  lemma MappingRoundTrip(src: string, e: Entries, d: nat, inherited: set<string>)
    requires EntriesOk(e, {}, inherited) && SignificantLines(Split(src, '\n')) == PrintEntries(e, d)
    ensures ParseYamlSubset(src, inherited) == Success(Mapping(EntryValues(e)))
  {
    var ls := Tokenize(src);
    TokensSpell(Split(src, '\n'), 1);
    if e.Entry? {
      DocTail(e.value, inherited);
      FirstEntry(ls, e.key, e.value, e.rest, d);
      assert Keys([]) == {} && ls + [] == ls && [] + EntryValues(e) == EntryValues(e);
      ReadEntries(ls, e, d, [], false, [], inherited);
    }
  }

  lemma SequenceRoundTrip(src: string, items: Items, d: nat, inherited: set<string>)
    requires ItemsOk(items, inherited) && SignificantLines(Split(src, '\n')) == PrintItems(items, d)
    ensures ParseYamlSequence(src, inherited) == Success(ItemValues(items))
  {
    hide ParseItems;
    hide ItemsOk;
    hide LineText;
    var ls := Tokenize(src);
    TokensSpell(Split(src, '\n'), 1);
    if items != NoItem {
      FirstItem(ls, items, d, inherited);
      assert ls + [] == ls && [] + ItemValues(items) == ItemValues(items);
      ReadItems(ls, items, d, [], [], inherited);
    }
  }

  // ---------------------------------------------------------------- printed text

  predicate OneLine(raw: string) {
    Significant(raw) && '\n' !in raw
  }

  predicate AllLines(raws: seq<string>) {
    forall r <- raws :: OneLine(r)
  }

  lemma {:induction false} SpacesOneLine(d: nat)
    ensures '\n' !in Spaces(d)
  {
    if d > 0 { SpacesOneLine(d - 1); }
  }

  lemma PaddedLine(d: nat, b: string)
    requires LiteralLineOk(b)
    ensures OneLine(Spaces(d) + b)
  {
    var raw, c := Spaces(d) + b, CommentStart(b, 0, false);
    Padding(d);
    SpacesOneLine(d);
    CommentAfter(Spaces(d), b);
    assert StripComment(raw) == Spaces(d) + b[..c];
    TrimPad(Spaces(d), b[..c]);
    TrimExtend(StripComment(raw), b[c..]);
    assert raw == StripComment(raw) + b[c..];
  }

  lemma TidyLine(d: nat, h: string)
    requires Tidy(h) && '\n' !in h
    ensures OneLine(Spaces(d) + h)
  {
    TrimSnug(h);
    assert StripComment(h) == h;
    PaddedLine(d, h);
  }

  lemma KeyLine(d: nat, k: string, v: Doc, inherited: set<string>)
    requires KeyOk(k) && DocOk(v, inherited)
    ensures OneLine(Spaces(d) + k + ":" + Tail(v)) && OneLine(Spaces(d) + "- " + k + ":" + Tail(v))
  {
    var h := k + ":" + Tail(v);
    DocTail(v, inherited);
    KeyTidy(k, Tail(v));
    TidyPrefix("- ", h);
    Regroup(Spaces(d), k, Tail(v));
    TidyLine(d, h);
    TidyLine(d, "- " + h);
  }

  lemma {:induction false} ValueLines(head: string, v: Doc, d: nat, inherited: set<string>)
    requires DocOk(v, inherited) && OneLine(head + Tail(v))
    ensures AllLines(PrintValue(head, v, d))
    decreases v
  {
    hide OneLine;
    hide InlineOk;
    hide LiteralLineOk;
    hide EntriesOk;
    hide ItemsOk;
    match v
    case Inline(_) =>
    case Literal(body) =>
      forall k | 0 <= k < |body| ensures OneLine(Spaces(d + 2) + body[k]) { PaddedLine(d + 2, body[k]); }
    case Block(extra, e) => EntryLines(e, d + 1 + extra, {}, inherited);
    case List(extra, items) => ItemLines(items, d + 1 + extra, inherited);
  }

  lemma {:induction false} EntryLines(e: Entries, d: nat, used: set<string>, inherited: set<string>)
    requires EntriesOk(e, used, inherited)
    ensures AllLines(PrintEntries(e, d))
    decreases e
  {
    hide OneLine;
    hide DocOk;
    hide KeyOk;
    match e
    case NoEntry =>
    case Entry(k, v, rest) =>
      KeyLine(d, k, v, inherited);
      ValueLines(Spaces(d) + k + ":", v, d, inherited);
      EntryLines(rest, d, used + {k}, inherited);
  }

  lemma {:induction false} ItemLines(items: Items, d: nat, inherited: set<string>)
    requires ItemsOk(items, inherited)
    ensures AllLines(PrintItems(items, d))
    decreases items
  {
    hide OneLine;
    hide DocOk;
    hide KeyOk;
    match items
    case NoItem =>
    case TextItem(t, rest) =>
      TextLine(d, t);
      ItemLines(rest, d, inherited);
    case MapItem(k, v, more, rest) =>
      KeyLine(d, k, v, inherited);
      ValueLines(Spaces(d) + "- " + k + ":", v, d + 2, inherited);
      EntryLines(more, d + 2, {k}, inherited);
      ItemLines(rest, d, inherited);
  }

  lemma TextLine(d: nat, t: string)
    requires InlineOk(t)
    ensures OneLine(Spaces(d) + "- " + t)
  {
    InlineTidy(t);
    TidyPrefix("- ", t);
    TidyLine(d, "- " + t);
    assert Spaces(d) + "- " + t == Spaces(d) + ("- " + t);
  }

  lemma {:induction false} AllSignificant(raws: seq<string>)
    requires AllLines(raws)
    ensures SignificantLines(raws) == raws
  {
    if raws != [] {
      assert raws[0] in raws;
      AllSignificant(raws[1..]);
    }
  }

  lemma JoinedLines(raws: seq<string>)
    requires AllLines(raws)
    ensures SignificantLines(Split(Join(raws, "\n"), '\n')) == raws
  {
    if raws == [] {
      assert Split("", '\n') == [""] && SignificantLines([""]) == [];
    } else {
      SplitJoin(raws, '\n');
      AllSignificant(raws);
    }
  }

  // Parsing what was printed returns the document.
  lemma PrintThenParse(e: Entries, d: nat, inherited: set<string>)
    requires EntriesOk(e, {}, inherited)
    ensures ParseYamlSubset(Join(PrintEntries(e, d), "\n"), inherited) == Success(Mapping(EntryValues(e)))
  {
    EntryLines(e, d, {}, inherited);
    JoinedLines(PrintEntries(e, d));
    MappingRoundTrip(Join(PrintEntries(e, d), "\n"), e, d, inherited);
  }

  lemma PrintThenParseSequence(items: Items, d: nat, inherited: set<string>)
    requires ItemsOk(items, inherited)
    ensures ParseYamlSequence(Join(PrintItems(items, d), "\n"), inherited) == Success(ItemValues(items))
  {
    ItemLines(items, d, inherited);
    JoinedLines(PrintItems(items, d));
    SequenceRoundTrip(Join(PrintItems(items, d), "\n"), items, d, inherited);
  }
}
