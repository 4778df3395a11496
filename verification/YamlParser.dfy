/** The loops of src/yaml-subset.ts compute the specification. */
module YamlParser {
  // The loops run over an index into the lines. The source repeats the code that reads the value after a key in its
  // three loops; here it is one method.

  import opened Text
  import opened YamlSubset

  method StripCommentLoop(s: string) returns (t: string)
    ensures t == StripComment(s)
  {
    var inDouble := false;
    for i := 0 to |s|
      invariant CommentStart(s, 0, false) == CommentStart(s, i, inDouble)
    {
      if s[i] == '"' {
        inDouble := !inDouble;
      } else if s[i] == '#' && !inDouble && (i == 0 || s[i - 1] == ' ' || s[i - 1] == '\t') {
        return s[..i];
      }
    }
    return s;
  }

  method TokenizeLoop(src: string) returns (lines: seq<RawLine>)
    ensures lines == Tokenize(src)
  {
    lines := [];
    var raws := Split(src, '\n');
    for i := 0 to |raws|
      invariant lines + Tokens(raws[i..], i + 1) == Tokens(raws, 1)
    {
      var raw := raws[i];
      assert raws[i..][1..] == raws[i + 1..];
      if Trim(raw) == "" { continue; }
      var kept := StripCommentLoop(raw);
      if Trim(kept) == "" { continue; }
      lines := lines + [RawLine(raw, Indent(raw), i + 1)];
    }
    assert lines + [] == lines;
  }

  // A result at an index stands for the specification's result on the lines from there on.
  ghost predicate At<T>(r: Result<(T, nat)>, lines: seq<RawLine>, spec: Parsed<T>) {
    match r
    case Failure(e) => spec == Bad(e)
    case Success((v, next)) => next <= |lines| && spec == Ok(v, lines[next..])
  }

  method ParseBlockAt(lines: seq<RawLine>, i: nat, indent: nat, inherited: set<string>)
    returns (r: Result<(Node, nat)>)
    requires i <= |lines|
    ensures At(r, lines, ParseBlock(lines[i..], indent, inherited))
    decreases |lines| - i, 3
  {
    if i >= |lines| { return Failure(UnexpectedEnd); }
    if IsDash(LineText(lines[i])) {
      var s := ParseSequenceAt(lines, i, indent, inherited);
      match s {
        case Failure(e) => return Failure(e);
        case Success((items, next)) => return Success((Sequence(items), next));
      }
    }
    var m := ParseMappingAt(lines, i, indent, [], false, inherited);
    match m {
      case Failure(e) => return Failure(e);
      case Success((fields, next)) => return Success((Mapping(fields), next));
    }
  }

  // The mapping loop, and with `inItem` the loop over the keys that continue a sequence item.
  method ParseMappingAt(lines: seq<RawLine>, i: nat, indent: nat, first: Fields, inItem: bool, inherited: set<string>)
    returns (r: Result<(Fields, nat)>)
    requires i <= |lines|
    ensures At(r, lines, ParseFields(lines[i..], indent, first, inItem, inherited))
    decreases |lines| - i, 2
  {
    hide ParseValue;
    hide KeyOk;
    hide Keys;
    hide LineText;
    hide Trim;
    hide IndexOf;
    hide Taken;
    var out, k := first, i;
    ghost var spec := ParseFields(lines[i..], indent, first, inItem, inherited);
    while k < |lines|
      invariant i <= k <= |lines|
      invariant spec == ParseFields(lines[k..], indent, out, inItem, inherited)
      decreases |lines| - k
    {
      var line := lines[k];
      var text := LineText(line);
      if line.indent != indent || text == "" || StartsWith(text, "- ") || (!inItem && text == "-") { break; }
      var sep := IndexOf(text, ':');
      if sep <= 0 { return Failure(ExpectedKey(line.lineNo)); }
      var key := Trim(text[..sep]);
      if !KeyOk(key) { return Failure(UnsupportedKey(line.lineNo)); }
      if Taken(key, out, inherited) { return Failure(DuplicateKey(line.lineNo)); }
      var v := ParseValueAt(lines, k, indent, text[sep + 1..], false, inherited);
      match v {
        case Failure(e) => return Failure(e);
        case Success((value, next)) => out, k := out + [Field(key, value)], next;
      }
    }
    return Success((out, k));
  }

  // What follows a key: a literal block, a deeper block, nothing, or a scalar.
  method ParseValueAt(lines: seq<RawLine>, i: nat, indent: nat, after: string, itemHead: bool, inherited: set<string>)
    returns (r: Result<(Node, nat)>)
    requires i < |lines|
    ensures At(r, lines, ParseValue(lines[i..], indent, after, itemHead, inherited))
    ensures r.Success? ==> r.value.1 > i
    decreases |lines| - i, 1, 0
  {
    hide ParseBlock;
    hide ScalarOf;
    hide Trim;
    hide StripComment;
    hide DeeperCount;
    hide Join;
    var rest := Trim(after);
    assert lines[i..][1..] == lines[i + 1..];
    if rest == "|" {
      if itemHead { return Failure(BlockScalarInItem(lines[i].lineNo)); }
      var body, j := ReadLiteral(lines, i + 1, indent);
      return Success((Scalar(Join(body, "\n")), j));
    } else if rest == "" {
      if i + 1 < |lines| && lines[i + 1].indent > indent {
        r := ParseBlockAt(lines, i + 1, lines[i + 1].indent, inherited);
      } else {
        return Success((Mapping([]), i + 1));
      }
    } else {
      match ParseScalar(after, lines[i].lineNo) {
        case Failure(e) => return Failure(e);
        case Success(s) => return Success((Scalar(s), i + 1));
      }
    }
  }

  // The deeper-indented lines from i on, cut to the block's own margin.
  method ReadLiteral(lines: seq<RawLine>, i: nat, indent: nat) returns (body: seq<string>, j: nat)
    requires i <= |lines|
    ensures i <= j <= |lines| && DeeperCount(lines[i..], indent) == j - i
    ensures body == Cut(lines[i..][..j - i], indent + 2) && lines[j..] == lines[i..][j - i..]
  {
    body, j := [], i;
    while j < |lines| && lines[j].indent > indent
      invariant i <= j <= |lines|
      invariant DeeperCount(lines[i..], indent) == j - i + DeeperCount(lines[j..], indent)
      invariant |body| == j - i && forall k :: 0 <= k < j - i ==> body[k] == SliceFrom(lines[i + k].raw, indent + 2)
    {
      body := body + [SliceFrom(lines[j].raw, indent + 2)];
      assert lines[j..][1..] == lines[j + 1..];
      j := j + 1;
    }
    hide DeeperCount;
    var taken := lines[i..][..j - i];
    assert forall k :: 0 <= k < j - i ==> taken[k] == lines[i + k];
    assert body == Cut(taken, indent + 2);
  }

  method ParseSequenceAt(lines: seq<RawLine>, i: nat, indent: nat, inherited: set<string>)
    returns (r: Result<(seq<Node>, nat)>)
    requires i <= |lines|
    ensures At(r, lines, ParseItems(lines[i..], indent, [], inherited))
    decreases |lines| - i, 2
  {
    hide ParseItemMap;
    hide ScalarOf;
    hide KeyOk;
    hide LineText;
    hide ItemText;
    var out, k := [], i;
    ghost var spec := ParseItems(lines[i..], indent, [], inherited);
    while k < |lines|
      invariant i <= k <= |lines|
      invariant spec == ParseItems(lines[k..], indent, out, inherited)
      decreases |lines| - k
    {
      var line := lines[k];
      var text := LineText(line);
      if line.indent != indent || !IsDash(text) { break; }
      var item := ItemText(text);
      if item == "" { return Failure(EmptyItem(line.lineNo)); }
      var sep := KeyColon(item);
      if sep >= 0 {
        var key := Trim(item[..sep]);
        if !KeyOk(key) { return Failure(UnsupportedKey(line.lineNo)); }
        var m := ParseItemMapAt(lines, k, indent + 2, key, item[sep + 1..], inherited);
        match m {
          case Failure(e) => return Failure(e);
          case Success((fields, next)) => out, k := out + [Mapping(fields)], next;
        }
      } else {
        match ParseScalar(item, line.lineNo) {
          case Failure(e) => return Failure(e);
          case Success(s) =>
            assert lines[k..][1..] == lines[k + 1..];
            out, k := out + [Scalar(s)], k + 1;
        }
      }
    }
    return Success((out, k));
  }

  method ParseItemMapAt(lines: seq<RawLine>, i: nat, indent: nat, key: string, after: string, inherited: set<string>)
    returns (r: Result<(Fields, nat)>)
    requires i < |lines|
    ensures At(r, lines, ParseItemMap(lines[i..], indent, key, after, inherited))
    ensures r.Success? ==> r.value.1 > i
    decreases |lines| - i, 1, 1
  {
    hide ParseValue;
    hide ParseFields;
    var v := ParseValueAt(lines, i, indent, after, true, inherited);
    match v {
      case Failure(e) => return Failure(e);
      case Success((value, next)) =>
        r := ParseMappingAt(lines, next, indent, [Field(key, value)], true, inherited);
    }
  }

  method ParseDocumentText(src: string, inherited: set<string>) returns (r: Result<Node>)
    ensures r == ParseYamlSubset(src, inherited)
  {
    hide ParseBlock;
    var lines := TokenizeLoop(src);
    if lines == [] { return Success(Mapping([])); }
    assert lines[0..] == lines;
    var b := ParseBlockAt(lines, 0, lines[0].indent, inherited);
    match b {
      case Failure(e) => return Failure(e);
      case Success((node, next)) =>
        if next != |lines| { return Failure(UnexpectedContent(lines[next].lineNo)); }
        if !node.Mapping? { return Failure(NotAMapping); }
        return Success(node);
    }
  }

  method ParseSequenceText(src: string, inherited: set<string>) returns (r: Result<seq<Node>>)
    ensures r == ParseYamlSequence(src, inherited)
  {
    hide ParseBlock;
    var lines := TokenizeLoop(src);
    if lines == [] { return Success([]); }
    assert lines[0..] == lines;
    var b := ParseBlockAt(lines, 0, lines[0].indent, inherited);
    match b {
      case Failure(e) => return Failure(e);
      case Success((node, next)) =>
        if next != |lines| { return Failure(UnexpectedContent(lines[next].lineNo)); }
        if !node.Sequence? { return Failure(NotASequence); }
        return Success(node.items);
    }
  }
}
