/** The YAML-subset parser of src/yaml-subset.ts. */
module YamlSubset {
  // The functions consume a suffix of the tokenized lines and return what is left. YamlParser.dfy has the source's own
  // loops over an index, proved to compute the same thing.

  import opened Text

  datatype Node =
    | Scalar(text: string)
    | Sequence(items: seq<Node>)
    | Mapping(fields: seq<Field>)

  datatype Field = Field(key: string, value: Node)

  type Fields = seq<Field>

  datatype RawLine = RawLine(raw: string, indent: nat, lineNo: nat)

  datatype ParseError =
    | UnexpectedEnd
    | UnterminatedQuote(line: nat)
    | QuoteInsideQuoted(line: nat)
    | FlowCollection(line: nat)
    | ExpectedKey(line: nat)
    | UnsupportedKey(line: nat)
    | DuplicateKey(line: nat)
    | EmptyItem(line: nat)
    | BlockScalarInItem(line: nat)
    | UnexpectedContent(line: nat)
    | NotAMapping
    | NotASequence

  // A parse result with the lines it did not consume.
  datatype Parsed<T> = Ok(value: T, rest: seq<RawLine>) | Bad(error: ParseError)

  datatype Result<T> = Success(value: T) | Failure(error: ParseError)

  // ---------------------------------------------------------------- lines

  // The position of the first comment '#': outside double quotes and first on the line or after a
  // blank or tab; |s| when there is none.
  function CommentStart(s: string, i: nat, inDouble: bool): (k: nat)
    requires i <= |s|
    ensures i <= k <= |s|
    decreases |s| - i
  {
    if i == |s| then i
    else if s[i] == '"' then CommentStart(s, i + 1, !inDouble)
    else if s[i] == '#' && !inDouble && (i == 0 || s[i - 1] == ' ' || s[i - 1] == '\t') then i
    else CommentStart(s, i + 1, inDouble)
  }

  function StripComment(s: string): string {
    s[..CommentStart(s, 0, false)]
  }

  predicate Significant(raw: string) {
    Trim(raw) != "" && Trim(StripComment(raw)) != ""
  }

  function Indent(raw: string): nat {
    |raw| - |TrimStart(raw)|
  }

  function Tokens(raws: seq<string>, lineNo: nat): (ls: seq<RawLine>)
    ensures forall l <- ls :: Significant(l.raw) && l.indent == Indent(l.raw)
  {
    if raws == [] then []
    else
      var rest := Tokens(raws[1..], lineNo + 1);
      if Significant(raws[0]) then [RawLine(raws[0], Indent(raws[0]), lineNo)] + rest else rest
  }

  function Tokenize(src: string): seq<RawLine> {
    Tokens(Split(src, '\n'), 1)
  }

  function LineText(l: RawLine): string {
    Trim(StripComment(l.raw))
  }

  // ---------------------------------------------------------------- scalars and keys

  function ParseScalar(raw: string, lineNo: nat): Result<string> {
    ScalarOf(Trim(StripComment(raw)), lineNo)
  }

  function ScalarOf(s: string, lineNo: nat): Result<string> {
    if StartsWith(s, "\"") then
      if |s| < 2 || s[|s| - 1] != '"' then Failure(UnterminatedQuote(lineNo))
      else if '"' in s[1..|s| - 1] then Failure(QuoteInsideQuoted(lineNo))
      else Success(s[1..|s| - 1])
    else if StartsWith(s, "[") || StartsWith(s, "{") || HasColonBlank(s) then Failure(FlowCollection(lineNo))
    else Success(s)
  }

  predicate HasColonBlank(s: string) {
    exists k :: 0 <= k < |s| - 1 && s[k] == ':' && s[k + 1] == ' '
  }

  predicate KeyChar(c: char) {
    'A' <= c <= 'Z' || 'a' <= c <= 'z' || '0' <= c <= '9' || c == '_' || c == '.' || c == '-'
  }

  predicate KeyOk(key: string) {
    key != "" && AllKeyChars(key)
  }

  predicate AllKeyChars(s: string)
    ensures AllKeyChars(s) ==> ':' !in s && '"' !in s && '#' !in s && '\n' !in s
  {
    s == "" || (KeyChar(s[0]) && AllKeyChars(s[1..]))
  }

  function Keys(fields: Fields): set<string> {
    set f <- fields :: f.key
  }

  // `key in out`: an own key, or one of the names every object literal inherits.
  predicate Taken(key: string, fields: Fields, inherited: set<string>) {
    key in Keys(fields) || key in inherited
  }

  predicate IsDash(text: string) {
    text == "-" || StartsWith(text, "- ")
  }

  predicate ColonAt(s: string, k: nat)
    requires k < |s|
  {
    s[k] == ':' && (k + 1 == |s| || s[k + 1] == ' ')
  }

  // The first ':' that a blank or the end follows, or -1.
  function KeyColon(s: string): (i: int)
    ensures -1 <= i < |s|
    ensures i >= 0 ==> ColonAt(s, i)
    ensures forall k :: 0 <= k < (if i < 0 then |s| else i) ==> !ColonAt(s, k)
  {
    if s == "" then -1
    else if ColonAt(s, 0) then 0
    else
      var r := KeyColon(s[1..]);
      assert forall k :: 1 <= k < |s| ==> ColonAt(s, k) == ColonAt(s[1..], k - 1);
      if r < 0 then -1 else r + 1
  }

  function ItemText(text: string): string
    requires IsDash(text)
  {
    if text == "-" then "" else Trim(text[2..])
  }

  // ---------------------------------------------------------------- blocks

  // How many of the next lines are indented deeper than `indent`.
  function DeeperCount(ls: seq<RawLine>, indent: nat): (n: nat)
    ensures n <= |ls|
  {
    if ls != [] && ls[0].indent > indent then 1 + DeeperCount(ls[1..], indent) else 0
  }

  function Cut(ls: seq<RawLine>, k: nat): (body: seq<string>)
    ensures |body| == |ls|
    ensures forall j :: 0 <= j < |ls| ==> body[j] == SliceFrom(ls[j].raw, k)
  {
    seq(|ls|, j requires 0 <= j < |ls| => SliceFrom(ls[j].raw, k))
  }

  function ParseBlock(ls: seq<RawLine>, indent: nat, inherited: set<string>): (r: Parsed<Node>)
    ensures r.Ok? ==> |r.rest| <= |ls|
    decreases |ls|, 3
  {
    if ls == [] then Bad(UnexpectedEnd)
    else if IsDash(LineText(ls[0])) then
      match ParseItems(ls, indent, [], inherited)
      case Bad(e) => Bad(e)
      case Ok(items, rest) => Ok(Sequence(items), rest)
    else
      match ParseFields(ls, indent, [], false, inherited)
      case Bad(e) => Bad(e)
      case Ok(fields, rest) => Ok(Mapping(fields), rest)
  }

  // The keys at `indent`, added to those in `acc`. Inside a sequence item a bare "-" does not end them.
  function ParseFields(ls: seq<RawLine>, indent: nat, acc: Fields, inItem: bool,
          inherited: set<string>): (r: Parsed<Fields>)
    ensures r.Ok? ==> |r.rest| <= |ls|
    decreases |ls|, 2
  {
    if ls == [] || EndsFields(ls[0], indent, inItem) then Ok(acc, ls)
    else
      match FieldHead(ls[0], acc, inherited)
      case Failure(e) => Bad(e)
      case Success((key, after)) =>
        match ParseValue(ls, indent, after, false, inherited)
        case Bad(e) => Bad(e)
        case Ok(value, rest) =>
          ParseFields(rest, indent, acc + [Field(key, value)], inItem, inherited)
  }

  // The key on a mapping line and the text after its colon.
  function FieldHead(l: RawLine, acc: Fields, inherited: set<string>): Result<(string, string)> {
    var text := LineText(l);
    var sep := IndexOf(text, ':');
    if sep <= 0 then Failure(ExpectedKey(l.lineNo))
    else
      var key := Trim(text[..sep]);
      if !KeyOk(key) then Failure(UnsupportedKey(l.lineNo))
      else if Taken(key, acc, inherited) then Failure(DuplicateKey(l.lineNo))
      else Success((key, text[sep + 1..]))
  }

  predicate EndsFields(l: RawLine, indent: nat, inItem: bool) {
    var text := LineText(l);
    l.indent != indent || text == "" || StartsWith(text, "- ") || (!inItem && text == "-")
  }

  // The value of the key on ls[0], whose text after the colon is `after`.
  function ParseValue(ls: seq<RawLine>, indent: nat, after: string, itemHead: bool,
          inherited: set<string>): (r: Parsed<Node>)
    requires ls != []
    ensures r.Ok? ==> |r.rest| < |ls|
    decreases |ls|, 1, 0
  {
    var rest := Trim(after);
    if rest == "|" then
      if itemHead then Bad(BlockScalarInItem(ls[0].lineNo))
      else
        var n := DeeperCount(ls[1..], indent);
        Ok(Scalar(Join(Cut(ls[1..][..n], indent + 2), "\n")), ls[1..][n..])
    else if rest == "" then
      if |ls| > 1 && ls[1].indent > indent then ParseBlock(ls[1..], ls[1].indent, inherited)
      else Ok(Mapping([]), ls[1..])
    else
      match ParseScalar(after, ls[0].lineNo)
      case Failure(e) => Bad(e)
      case Success(s) => Ok(Scalar(s), ls[1..])
  }

  // The "- " items at `indent`, added to those in `acc`.
  function ParseItems(ls: seq<RawLine>, indent: nat, acc: seq<Node>, inherited: set<string>): (r: Parsed<seq<Node>>)
    ensures r.Ok? ==> |r.rest| <= |ls|
    decreases |ls|, 2
  {
    if ls == [] || ls[0].indent != indent || !IsDash(LineText(ls[0])) then Ok(acc, ls)
    else
      match ItemHead(ls[0])
      case Failure(e) => Bad(e)
      case Success(KeyItem(key, after)) =>
        (match ParseItemMap(ls, indent + 2, key, after, inherited)
         case Bad(e) => Bad(e)
         case Ok(fields, rest) =>
           ParseItems(rest, indent, acc + [Mapping(fields)], inherited))
      case Success(ScalarItem(s)) => ParseItems(ls[1..], indent, acc + [Scalar(s)], inherited)
  }

  // A "- key: ..." item: its first key, then the keys that continue it at `indent`.
  function ParseItemMap(ls: seq<RawLine>, indent: nat, key: string, after: string, inherited: set<string>)
    : (r: Parsed<Fields>)
    requires ls != []
    ensures r.Ok? ==> |r.rest| < |ls|
    decreases |ls|, 1, 1
  {
    match ParseValue(ls, indent, after, true, inherited)
    case Bad(e) => Bad(e)
    case Ok(value, rest) =>
      ParseFields(rest, indent, [Field(key, value)], true, inherited)
  }

  datatype ItemShape = KeyItem(key: string, after: string) | ScalarItem(text: string)

  // What a "- " line holds: a first key and the text after its colon, or a scalar.
  function ItemHead(l: RawLine): Result<ItemShape>
    requires IsDash(LineText(l))
  {
    var item := ItemText(LineText(l));
    if item == "" then Failure(EmptyItem(l.lineNo))
    else
      var sep := KeyColon(item);
      if sep >= 0 then
        var key := Trim(item[..sep]);
        if KeyOk(key) then Success(KeyItem(key, item[sep + 1..])) else Failure(UnsupportedKey(l.lineNo))
      else
        match ParseScalar(item, l.lineNo)
        case Failure(e) => Failure(e)
        case Success(s) => Success(ScalarItem(s))
  }

  // ---------------------------------------------------------------- documents

  function ParseDocument(src: string, inherited: set<string>): Result<Option<Node>> {
    var ls := Tokenize(src);
    if ls == [] then Success(None)
    else
      match ParseBlock(ls, ls[0].indent, inherited)
      case Bad(e) => Failure(e)
      case Ok(node, rest) => if rest != [] then Failure(UnexpectedContent(rest[0].lineNo)) else Success(Some(node))
  }

  function ParseYamlSubset(src: string, inherited: set<string>): Result<Node> {
    match ParseDocument(src, inherited)
    case Failure(e) => Failure(e)
    case Success(None) => Success(Mapping([]))
    case Success(Some(node)) => if node.Mapping? then Success(node) else Failure(NotAMapping)
  }

  function ParseYamlSequence(src: string, inherited: set<string>): Result<seq<Node>> {
    match ParseDocument(src, inherited)
    case Failure(e) => Failure(e)
    case Success(None) => Success([])
    case Success(Some(node)) => if node.Sequence? then Success(node.items) else Failure(NotASequence)
  }

  // On tokenized lines a block that starts at its own first line always consumes that line.
  lemma BlockAdvances(ls: seq<RawLine>, inherited: set<string>)
    requires ls != [] && Significant(ls[0].raw)
    ensures var r := ParseBlock(ls, ls[0].indent, inherited); r.Ok? ==> |r.rest| < |ls|
  {
    if IsDash(LineText(ls[0])) {
      ItemsAdvance(ls, ls[0].indent, [], inherited);
    } else {
      FieldsAdvance(ls, ls[0].indent, [], false, inherited);
    }
  }

  lemma FieldsAdvance(ls: seq<RawLine>, indent: nat, acc: Fields, inItem: bool, inherited: set<string>)
    requires ls != [] && !EndsFields(ls[0], indent, inItem)
    ensures var r := ParseFields(ls, indent, acc, inItem, inherited); r.Ok? ==> |r.rest| < |ls|
  {
  }

  lemma ItemsAdvance(ls: seq<RawLine>, indent: nat, acc: seq<Node>, inherited: set<string>)
    requires ls != [] && ls[0].indent == indent && IsDash(LineText(ls[0]))
    ensures var r := ParseItems(ls, indent, acc, inherited); r.Ok? ==> |r.rest| < |ls|
  {
  }
}
