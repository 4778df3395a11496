/** The knowledge-base chunker of src/kb/ingest.ts, from plain text to bounded chunks. */
module Chunker {
  import opened Text
  import opened WordRuns

  datatype Section = Section(heading: Option<string>, blocks: seq<string>)

  // ---------------------------------------------------------------- sections

  // text.replace(/\r\n?/g, "\n")
  function Newlines(s: string): string
    decreases |s|
  {
    if s == "" then ""
    else if s[0] == '\r' then "\n" + Newlines(if |s| > 1 && s[1] == '\n' then s[2..] else s[1..])
    else [s[0]] + Newlines(s[1..])
  }

  predicate BlankOrTab(c: char) {
    c == ' ' || c == '\t'
  }

  function DropBlanks(s: string): (t: string)
    ensures |t| <= |s|
  {
    if s != "" && BlankOrTab(s[0]) then DropBlanks(s[1..]) else s
  }

  // replace(/[ \t]+/g, " ")
  function Collapse(s: string): string
    decreases |s|
  {
    if s == "" then ""
    else if BlankOrTab(s[0]) then " " + Collapse(DropBlanks(s[1..]))
    else [s[0]] + Collapse(s[1..])
  }

  function Hashes(s: string): (n: nat)
    ensures n <= |s|
  {
    if s != "" && s[0] == '#' then 1 + Hashes(s[1..]) else 0
  }

  // /^#{1,6}\s+\S/
  predicate IsHeading(line: string) {
    var n := Hashes(line);
    1 <= n <= 6 && n < |line| && IsSpace(line[n]) && TrimStart(line[n..]) != ""
  }

  function Line(raw: string): string {
    Collapse(Trim(raw))
  }

  function FlushParagraph(blocks: seq<string>, paragraph: seq<string>): seq<string> {
    if paragraph == [] then blocks else blocks + [Join(paragraph, " ")]
  }

  function FlushSection(heading: Option<string>, blocks: seq<string>): seq<Section> {
    if heading.Some? || blocks != [] then [Section(heading, blocks)] else []
  }

  function Sections(raws: seq<string>, heading: Option<string>, blocks: seq<string>,
          paragraph: seq<string>): seq<Section>
    decreases |raws|
  {
    if raws == [] then FlushSection(heading, FlushParagraph(blocks, paragraph))
    else
      var line := Line(raws[0]);
      if line == "" then Sections(raws[1..], heading, FlushParagraph(blocks, paragraph), [])
      else if IsHeading(line) then
        FlushSection(heading, FlushParagraph(blocks, paragraph)) + Sections(raws[1..], Some(line), [], [])
      else Sections(raws[1..], heading, blocks, paragraph + [line])
  }

  function TextSections(text: string): seq<Section> {
    Sections(Split(Newlines(text), '\n'), None, [], [])
  }

  // ---------------------------------------------------------------- splitting one block

  function DropWord(s: string): (t: string)
    ensures |t| <= |s| && t == s[..|t|] && (t == "" || IsSpace(t[|t| - 1]))
  {
    if s != "" && !IsSpace(s[|s| - 1]) then DropWord(s[..|s| - 1]) else s
  }

  // search(/\s+\S*$/): the start of the last run of whitespace, or -1.
  function LastBreak(s: string): (b: int)
    ensures -1 <= b < |s| || (b == -1 && s == "")
  {
    var h := DropWord(s);
    if h == "" then -1 else (BreakIsSpace(h); |TrimEnd(h)|)
  }

  lemma BreakIsSpace(h: string)
    requires h != "" && IsSpace(h[|h| - 1])
    ensures |TrimEnd(h)| < |h|
  {
  }

  function SplitBlock(block: string, limit: nat): seq<string>
    requires limit > 0
    decreases |block|
  {
    if |block| <= limit then if block == "" then [] else [block]
    else
      var take := Take(block, limit);
      [TrimEnd(block[..take])] + SplitBlock(TrimStart(block[take..]), limit)
  }

  function Take(block: string, limit: nat): (n: nat)
    requires 0 < limit < |block|
    ensures 0 < n <= limit
  {
    var b := LastBreak(block[..limit]);
    if b > 0 then b else limit
  }

  // ---------------------------------------------------------------- chunks

  function FlushBody(body: string): seq<string> {
    if body == "" then [] else [body]
  }

  function Candidate(body: string, block: string): string {
    if body == "" then block else body + "\n\n" + block
  }

  // The bodies of one section's chunks.
  function Bodies(blocks: seq<string>, limit: nat, body: string): seq<string>
    requires limit > 0
    decreases |blocks|
  {
    if blocks == [] then FlushBody(body)
    else
      var block := blocks[0];
      if |block| > limit then FlushBody(body) + SplitBlock(block, limit) + Bodies(blocks[1..], limit, "")
      else
        var candidate := Candidate(body, block);
        if |candidate| > limit then FlushBody(body) + Bodies(blocks[1..], limit, block)
        else Bodies(blocks[1..], limit, candidate)
  }

  function Prefix(heading: Option<string>, maxChars: nat): string
    requires maxChars >= 16
  {
    match heading
    case None => ""
    case Some(h) =>
      var n := (maxChars - 2) / 2;
      var cut := if |h| > n then h[..n] else h;
      if cut == "" then "" else cut + "\n\n"
  }

  // At least 7 characters are left for the body.
  lemma BodyLimit(heading: Option<string>, maxChars: nat)
    requires maxChars >= 16
    ensures |Prefix(heading, maxChars)| + 7 <= maxChars
  {
  }

  function SectionBodies(s: Section, maxChars: nat): seq<string>
    requires maxChars >= 16
  {
    if s.blocks == [] then
      if s.heading.Some? && s.heading.value != "" then SplitBlock(s.heading.value, maxChars) else []
    else
      BodyLimit(s.heading, maxChars);
      Bodies(s.blocks, maxChars - |Prefix(s.heading, maxChars)|, "")
  }

  function SectionPrefix(s: Section, maxChars: nat): string
    requires maxChars >= 16
  {
    if s.blocks == [] then "" else Prefix(s.heading, maxChars)
  }

  function WithPrefix(prefix: string, bodies: seq<string>): seq<string> {
    seq(|bodies|, k requires 0 <= k < |bodies| => prefix + bodies[k])
  }

  function SectionChunks(sections: seq<Section>, maxChars: nat): seq<string>
    requires maxChars >= 16
  {
    if sections == [] then []
    else WithPrefix(SectionPrefix(sections[0], maxChars), SectionBodies(sections[0], maxChars))
         + SectionChunks(sections[1..], maxChars)
  }

  // None where the source throws.
  function ChunkText(text: string, maxChars: nat): Option<seq<string>> {
    if maxChars < 16 then None else Some(SectionChunks(TextSections(text), maxChars))
  }

  // ---------------------------------------------------------------- a block keeps its words

  lemma {:induction false} DropWordAll(s: string)
    requires DropWord(s) == ""
    ensures s == "" || (!IsSpace(s[0]) && !IsSpace(s[|s| - 1]) && WordEnd(s) == |s|)
    decreases |s|
  {
    if s != "" {
      var t := s[..|s| - 1];
      DropWordAll(t);
      WordEndExtend(t, s[|s| - 1]);
      assert s == t + [s[|s| - 1]];
    }
  }

  lemma {:induction false} WordEndExtend(s: string, c: char)
    requires WordEnd(s) == |s| && !IsSpace(c)
    ensures WordEnd(s + [c]) == |s| + 1
    decreases |s|
  {
    if s == "" {
      assert s + [c] == [c] && [c][1..] == "";
    } else {
      assert (s + [c])[1..] == s[1..] + [c];
      WordEndExtend(s[1..], c);
    }
  }

  // A break is taken at whitespace inside the limit; else the first `limit` characters are all of one word.
  lemma TakeAtSpace(block: string, limit: nat)
    requires 0 < limit < |block| && !IsSpace(block[0])
    ensures var n := Take(block, limit); IsSpace(block[n]) || (n == limit && WordEnd(block[..limit]) == limit)
    ensures TrimEnd(block[..Take(block, limit)]) == block[..Take(block, limit)]
  {
    var s := block[..limit];
    var h := DropWord(s);
    if h == "" {
      DropWordAll(s);
    } else {
      var b := |TrimEnd(h)|;
      BreakIsSpace(h);
      TrimEndDrops(h);
      assert h[b..] != "" && IsSpace(h[b..][0]) && h[b] == block[b];
      assert h[..b] == block[..b];
      KeepsHead(h);
      TrimEndTwice(h);
    }
  }

  lemma {:induction false} KeepsHead(s: string)
    requires s != "" && !IsSpace(s[0])
    ensures TrimEnd(s) != ""
  {
    if IsSpace(s[|s| - 1]) { KeepsHead(s[..|s| - 1]); }
  }

  lemma TrimEndTwice(s: string)
    ensures TrimEnd(TrimEnd(s)) == TrimEnd(s)
  {
  }

  lemma {:induction false} WordEndPrefix(s: string, n: nat)
    requires n <= |s| && WordEnd(s[..n]) == n
    ensures WordEnd(s) == n + WordEnd(s[n..])
    decreases n
  {
    if n == 0 {
      assert s[n..] == s;
    } else {
      assert s[..n][1..] == s[1..][..n - 1];
      assert s[1..][n - 1..] == s[n..];
      WordEndPrefix(s[1..], n - 1);
    }
  }

  // The words of the parts are the words of the block, those longer than the limit cut into pieces of it.
  lemma {:induction false} SplitWords(block: string, limit: nat)
    requires limit > 0 && (block == "" || !IsSpace(block[0]))
    ensures FlatWords(SplitBlock(block, limit)) == ChopAll(Words(block), limit)
    decreases |block|
  {
    if |block| <= limit {
      FitWords(block, limit);
      FlatOne(block);
    } else {
      var n := Take(block, limit);
      var head, rest := block[..n], TrimStart(block[n..]);
      TakeAtSpace(block, limit);
      SplitWords(rest, limit);
      TrimStartWords(block[n..]);
      FitWords(head, limit);
      var parts := SplitBlock(rest, limit);
      assert ([head] + parts)[1..] == parts;
      if IsSpace(block[n]) {
        assert block == head + block[n..];
        WordsApart(head, block[n..]);
        ChopAppend(Words(head), Words(block[n..]), limit);
      } else {
        LongWord(block, limit);
      }
    }
  }

  lemma LongWord(block: string, limit: nat)
    requires 0 < limit < |block| && WordEnd(block[..limit]) == limit && !IsSpace(block[limit])
    ensures TrimStart(block[limit..]) == block[limit..]
    ensures ChopAll(Words(block), limit) == Words(block[..limit]) + ChopAll(Words(block[limit..]), limit)
  {
    var head, rest := block[..limit], block[limit..];
    WordEndPrefix(block, limit);
    OneWord(head);
    assert head[0] == block[0];
    ChopFirst(block, limit);
    ChopFirst(rest, limit);
    var k, j := WordEnd(block), WordEnd(rest);
    ChopLong(block[..k], limit, ChopAll(Words(block[k..]), limit));
    hide Words;
    hide WordEnd;
    hide ChopAll;
    hide Chop;
    hide TrimStart;
    CutTwice(block, limit, k);
  }

  lemma CutTwice(s: string, n: nat, k: nat)
    requires n <= k <= |s|
    ensures s[..k][..n] == s[..n] && s[..k][n..] == s[n..][..k - n] && s[n..][k - n..] == s[k..]
  {
  }

  // Every part holds 1 to `limit` characters.
  lemma {:induction false} SplitBounds(block: string, limit: nat)
    requires limit > 0 && (block == "" || !IsSpace(block[0]))
    ensures forall p <- SplitBlock(block, limit) :: 1 <= |p| <= limit
    decreases |block|
  {
    if |block| > limit {
      TakeAtSpace(block, limit);
      SplitBounds(TrimStart(block[Take(block, limit)..]), limit);
    }
  }

  // ---------------------------------------------------------------- a section keeps its words

  predicate StartsWithWord(s: string) {
    s != "" && !IsSpace(s[0])
  }

  lemma Appended(body: string, block: string)
    ensures Words(Candidate(body, block)) == Words(body) + Words(block)
  {
    assert Blank("\n\n") by { assert "\n\n"[1..] == "\n" && "\n"[1..] == ""; }
    BetweenWords(body, "\n\n", block);
  }

  // The chunk bodies of a section carry exactly the words of its blocks, in order; only words longer than the body
  // limit are cut.
  lemma {:induction false} BodyWords(blocks: seq<string>, limit: nat, body: string)
    requires limit > 0 && |body| <= limit && forall t <- blocks :: StartsWithWord(t)
    ensures FlatWords(Bodies(blocks, limit, body)) == Words(body) + ChopAll(FlatWords(blocks), limit)
    decreases |blocks|
  {
    if blocks == [] {
      EndsBodies(limit, body);
      FlushWords(body);
      ChopTexts(blocks, limit);
    } else {
      var block, rest := blocks[0], blocks[1..];
      assert block in blocks && forall t <- rest :: t in blocks;
      hide StartsWithWord;
      if |block| > limit {
        BodyWords(rest, limit, "");
        BigStep(blocks, limit, body);
      } else {
        BodyWords(rest, limit, block);
        if |Candidate(body, block)| <= limit { BodyWords(rest, limit, Candidate(body, block)); }
        SmallStep(blocks, limit, body);
      }
    }
  }

  lemma BigStep(blocks: seq<string>, limit: nat, body: string)
    requires limit > 0 && blocks != [] && |blocks[0]| > limit && StartsWithWord(blocks[0])
    requires FlatWords(Bodies(blocks[1..], limit, "")) == Words("") + ChopAll(FlatWords(blocks[1..]), limit)
    ensures FlatWords(Bodies(blocks, limit, body)) == Words(body) + ChopAll(FlatWords(blocks), limit)
  {
    BigBlock(blocks, limit, body);
    FlushWords(body);
    EmptyWords();
    ChopTexts(blocks, limit);
    SplitWords(blocks[0], limit);
    Three(FlushBody(body), SplitBlock(blocks[0], limit), Bodies(blocks[1..], limit, ""));
    hide Words;
    hide FlatWords;
    hide ChopAll;
    hide Bodies;
    hide SplitBlock;
    hide FlushBody;
    assert [] + ChopAll(FlatWords(blocks[1..]), limit) == ChopAll(FlatWords(blocks[1..]), limit);
  }

  lemma SmallStep(blocks: seq<string>, limit: nat, body: string)
    requires limit > 0 && blocks != [] && |blocks[0]| <= limit
    requires FlatWords(Bodies(blocks[1..], limit, blocks[0])) ==
        Words(blocks[0]) + ChopAll(FlatWords(blocks[1..]), limit)
    requires var candidate := Candidate(body, blocks[0]);
             |candidate| <= limit ==>
               FlatWords(Bodies(blocks[1..], limit, candidate)) ==
                   Words(candidate) + ChopAll(FlatWords(blocks[1..]), limit)
    ensures FlatWords(Bodies(blocks, limit, body)) == Words(body) + ChopAll(FlatWords(blocks), limit)
  {
    hide Words;
    hide FlatWords;
    hide ChopAll;
    hide Bodies;
    hide Candidate;
    hide FlushBody;
    var block, rest := blocks[0], blocks[1..];
    var x := ChopAll(FlatWords(rest), limit);
    SmallBlock(blocks, limit, body);
    FlushWords(body);
    ChopTexts(blocks, limit);
    FitWords(block, limit);
    FlatAppend(FlushBody(body), Bodies(rest, limit, block));
    Appended(body, block);
    Associates(Words(body), Words(block), x);
  }

  lemma EndsBodies(limit: nat, body: string)
    requires limit > 0
    ensures Bodies([], limit, body) == FlushBody(body)
  {
  }

  lemma BigBlock(blocks: seq<string>, limit: nat, body: string)
    requires limit > 0 && blocks != [] && |blocks[0]| > limit
    ensures Bodies(blocks, limit, body) ==
        FlushBody(body) + SplitBlock(blocks[0], limit) + Bodies(blocks[1..], limit, "")
  {
  }

  lemma SmallBlock(blocks: seq<string>, limit: nat, body: string)
    requires limit > 0 && blocks != [] && |blocks[0]| <= limit
    ensures Bodies(blocks, limit, body)
         == if |Candidate(body, blocks[0])| > limit then FlushBody(body) + Bodies(blocks[1..], limit, blocks[0])
            else Bodies(blocks[1..], limit, Candidate(body, blocks[0]))
  {
  }

  lemma EmptyWords()
    ensures Words("") == []
  {
  }

  lemma Three(a: seq<string>, b: seq<string>, c: seq<string>)
    ensures FlatWords(a + b + c) == FlatWords(a) + (FlatWords(b) + FlatWords(c))
  {
    FlatAppend(a + b, c);
    FlatAppend(a, b);
    hide FlatWords;
    assert FlatWords(a) + FlatWords(b) + FlatWords(c) == FlatWords(a) + (FlatWords(b) + FlatWords(c));
  }

  lemma FlushWords(body: string)
    ensures FlatWords(FlushBody(body)) == Words(body)
  {
    FlatOne(body);
  }

  lemma {:induction false} BodyBounds(blocks: seq<string>, limit: nat, body: string)
    requires limit > 0 && |body| <= limit && forall t <- blocks :: StartsWithWord(t)
    ensures forall c <- Bodies(blocks, limit, body) :: 1 <= |c| <= limit
    decreases |blocks|
  {
    if blocks != [] {
      var block, rest := blocks[0], blocks[1..];
      assert block in blocks;
      if |block| > limit {
        SplitBounds(block, limit);
        BodyBounds(rest, limit, "");
      } else {
        var candidate := Candidate(body, block);
        if |candidate| > limit { BodyBounds(rest, limit, block); } else { BodyBounds(rest, limit, candidate); }
      }
    }
  }

  // ---------------------------------------------------------------- a text keeps its words

  lemma {:induction false} NewlinesWords(s: string)
    ensures Respaced(s, Newlines(s))
    decreases |s|
  {
    hide Respaced;
    if s == "" {
      Empty();
    } else if s[0] == '\r' {
      var rest := if |s| > 1 && s[1] == '\n' then s[2..] else s[1..];
      NewlinesWords(rest);
      SameWords(rest, Newlines(rest));
      if |s| > 1 && s[1] == '\n' {
        BlankFirst('\n', rest);
        assert s[1..] == ['\n'] + rest;
      }
      RespacedBlank('\r', '\n', s[1..], Newlines(rest));
      assert s == [s[0]] + s[1..];
    } else if IsSpace(s[0]) {
      NewlinesWords(s[1..]);
      SameWords(s[1..], Newlines(s[1..]));
      RespacedBlank(s[0], s[0], s[1..], Newlines(s[1..]));
      assert s == [s[0]] + s[1..];
    } else {
      NewlinesWord(s);
      NewlinesWords(s[WordEnd(s)..]);
      RespacedWord(s, Newlines(s[WordEnd(s)..]));
    }
  }

  lemma CutTail(s: string, k: nat)
    requires 0 < k <= |s|
    ensures s[..k] == [s[0]] + s[1..][..k - 1] && s[k..] == s[1..][k - 1..]
  {
  }

  lemma {:induction false} NewlinesWord(s: string)
    ensures var k := WordEnd(s); Newlines(s) == s[..k] + Newlines(s[k..])
    decreases |s|
  {
    var k := WordEnd(s);
    if k > 0 {
      assert k == 1 + WordEnd(s[1..]) && Newlines(s) == [s[0]] + Newlines(s[1..]);
      NewlinesWord(s[1..]);
      hide Newlines;
      hide WordEnd;
      CutTail(s, k);
    } else {
      assert s[k..] == s;
    }
  }

  lemma {:induction false} DropBlanksWords(s: string)
    ensures Words(DropBlanks(s)) == Words(s)
    ensures DropBlanks(s) == "" || !BlankOrTab(DropBlanks(s)[0])
    decreases |s|
  {
    if s != "" && BlankOrTab(s[0]) { DropBlanksWords(s[1..]); }
  }

  // Two texts with the same words that agree on whether they start with whitespace.
  predicate Respaced(s: string, t: string) {
    Words(s) == Words(t) && (s == "" <==> t == "") && (s != "" ==> (IsSpace(s[0]) <==> IsSpace(t[0])))
  }

  lemma RespacedWord(s: string, t: string)
    requires s != "" && !IsSpace(s[0]) && Respaced(s[WordEnd(s)..], t)
    ensures Respaced(s, s[..WordEnd(s)] + t)
  {
    var k := WordEnd(s);
    WordEndStops(s);
    SameWord(s[..k], s[k..], t);
    assert s == s[..k] + s[k..];
  }

  lemma RespacedBlank(c: char, d: char, s: string, t: string)
    requires IsSpace(c) && IsSpace(d) && Words(s) == Words(t)
    ensures Respaced([c] + s, [d] + t)
  {
    BlankFirst(c, s);
    BlankFirst(d, t);
  }

  lemma {:induction false} CollapseWords(s: string)
    ensures Respaced(s, Collapse(s))
    decreases |s|
  {
    hide Respaced;
    if s == "" {
      Empty();
    } else if BlankOrTab(s[0]) {
      var rest := DropBlanks(s[1..]);
      DropBlanksWords(s[1..]);
      CollapseWords(rest);
      SameWords(rest, Collapse(rest));
      RespacedBlank(s[0], ' ', s[1..], Collapse(rest));
      assert s == [s[0]] + s[1..];
    } else if IsSpace(s[0]) {
      CollapseWords(s[1..]);
      SameWords(s[1..], Collapse(s[1..]));
      RespacedBlank(s[0], s[0], s[1..], Collapse(s[1..]));
      assert s == [s[0]] + s[1..];
    } else {
      CollapseWord(s);
      CollapseWords(s[WordEnd(s)..]);
      RespacedWord(s, Collapse(s[WordEnd(s)..]));
    }
  }

  lemma Empty()
    ensures Respaced("", "")
  {
  }

  lemma SameWords(s: string, t: string)
    requires Respaced(s, t)
    ensures Words(s) == Words(t)
  {
  }

  lemma {:induction false} CollapseWord(s: string)
    ensures var k := WordEnd(s); Collapse(s) == s[..k] + Collapse(s[k..])
    decreases |s|
  {
    var k := WordEnd(s);
    if k > 0 {
      assert k == 1 + WordEnd(s[1..]) && Collapse(s) == [s[0]] + Collapse(s[1..]);
      CollapseWord(s[1..]);
      hide Collapse;
      hide WordEnd;
      CutTail(s, k);
    } else {
      assert s[k..] == s;
    }
  }

  // A normalized line keeps the words of its raw line, and starts with one unless it is empty.
  lemma LineWords(raw: string)
    ensures Words(Line(raw)) == Words(raw)
    ensures Line(raw) == "" || StartsWithWord(Line(raw))
  {
    TrimStartWords(raw);
    TrimEndWords(TrimStart(raw));
    TrimIsSnug(raw);
    CollapseWords(Trim(raw));
  }

  function HeadingTexts(heading: Option<string>): seq<string> {
    match heading case None => [] case Some(h) => [h]
  }

  function SectionTexts(sections: seq<Section>): seq<string> {
    if sections == [] then [] else HeadingTexts(sections[0].heading) + sections[0].blocks + SectionTexts(sections[1..])
  }

  lemma FlushParagraphWords(blocks: seq<string>, paragraph: seq<string>)
    ensures FlatWords(FlushParagraph(blocks, paragraph)) == FlatWords(blocks) + FlatWords(paragraph)
  {
    if paragraph != [] {
      assert Blank(" ") by { assert " "[1..] == ""; }
      JoinWords(paragraph, " ");
      FlatOne(Join(paragraph, " "));
      FlatAppend(blocks, [Join(paragraph, " ")]);
    }
  }

  lemma FlushSectionWords(heading: Option<string>, blocks: seq<string>, rest: seq<Section>)
    ensures FlatWords(SectionTexts(FlushSection(heading, blocks) + rest))
         == FlatWords(HeadingTexts(heading)) + FlatWords(blocks) + FlatWords(SectionTexts(rest))
  {
    var s := FlushSection(heading, blocks);
    if s != [] {
      assert (s + rest)[1..] == rest;
      FlatAppend(HeadingTexts(heading) + blocks, SectionTexts(rest));
      FlatAppend(HeadingTexts(heading), blocks);
    } else {
      assert s + rest == rest;
    }
  }

  // Sectioning loses no word and moves none: headings and blocks in order carry the words of the lines.
  lemma {:induction false} SectionWords(raws: seq<string>, heading: Option<string>, blocks: seq<string>,
          paragraph: seq<string>)
    ensures FlatWords(SectionTexts(Sections(raws, heading, blocks, paragraph)))
         == FlatWords(HeadingTexts(heading)) + FlatWords(blocks) + FlatWords(paragraph) + FlatWords(raws)
    decreases |raws|
  {
    hide Words;
    hide FlatWords;
    hide IsHeading;
    hide FlushParagraph;
    hide FlushSection;
    hide Sections;
    hide SectionTexts;
    hide HeadingTexts;
    var flushed := FlushParagraph(blocks, paragraph);
    FlushParagraphWords(blocks, paragraph);
    SectionsUnfold(raws, heading, blocks, paragraph);
    NoTexts();
    if raws == [] {
      FlushSectionWords(heading, flushed, []);
      assert FlushSection(heading, flushed) + [] == FlushSection(heading, flushed);
    } else {
      var line, rest := Line(raws[0]), raws[1..];
      LineWords(raws[0]);
      FlatOne(line);
      FlatFirst(heading, blocks, paragraph, raws);
      hide Line;
      if line == "" {
        SectionWords(rest, heading, flushed, []);
      } else if IsHeading(line) {
        SectionWords(rest, Some(line), [], []);
        HeadingWords(line);
        FlushSectionWords(heading, flushed, Sections(rest, Some(line), [], []));
      } else {
        SectionWords(rest, heading, blocks, paragraph + [line]);
        FlatAppend(paragraph, [line]);
      }
    }
  }

  lemma NoTexts()
    ensures FlatWords([]) == [] && SectionTexts([]) == [] && Words("") == []
  {
  }

  lemma HeadingWords(line: string)
    ensures FlatWords(HeadingTexts(Some(line))) == Words(line)
  {
    FlatOne(line);
  }

  lemma SectionsUnfold(raws: seq<string>, heading: Option<string>, blocks: seq<string>, paragraph: seq<string>)
    ensures Sections(raws, heading, blocks, paragraph)
         == if raws == [] then FlushSection(heading, FlushParagraph(blocks, paragraph))
            else if Line(raws[0]) == "" then Sections(raws[1..], heading, FlushParagraph(blocks, paragraph), [])
            else if IsHeading(Line(raws[0])) then
              FlushSection(heading, FlushParagraph(blocks, paragraph)) +
                  Sections(raws[1..], Some(Line(raws[0])), [], [])
            else Sections(raws[1..], heading, blocks, paragraph + [Line(raws[0])])
  {
    hide IsHeading;
    hide Line;
    hide FlushSection;
    hide FlushParagraph;
  }

  lemma FlatFirst(heading: Option<string>, blocks: seq<string>, paragraph: seq<string>, raws: seq<string>)
    requires raws != []
    ensures FlatWords(HeadingTexts(heading)) + FlatWords(blocks) + FlatWords(paragraph) + FlatWords(raws)
         == FlatWords(HeadingTexts(heading)) + (FlatWords(blocks) + FlatWords(paragraph)) + Words(raws[0]) +
             FlatWords(raws[1..])
  {
    assert FlatWords(raws) == Words(raws[0]) + FlatWords(raws[1..]);
    Regroup(FlatWords(HeadingTexts(heading)), FlatWords(blocks), FlatWords(paragraph), Words(raws[0]),
        FlatWords(raws[1..]));
  }

  lemma Regroup(a: seq<string>, b: seq<string>, c: seq<string>, d: seq<string>, e: seq<string>)
    ensures a + b + c + (d + e) == a + (b + c) + d + e
  {
  }

  lemma TextWords(text: string)
    ensures FlatWords(SectionTexts(TextSections(text))) == Words(text)
  {
    var lines := Split(Newlines(text), '\n');
    SectionWords(lines, None, [], []);
    JoinSplit(Newlines(text), '\n');
    assert Blank("\n") by { assert "\n"[1..] == ""; }
    JoinWords(lines, "\n");
    NewlinesWords(text);
  }

  // Every heading and block of a text starts with a word.
  predicate SectionOk(s: Section) {
    (s.heading.Some? ==> StartsWithWord(s.heading.value)) && forall t <- s.blocks :: StartsWithWord(t)
  }

  predicate WordTexts(texts: seq<string>) {
    forall t <- texts :: StartsWithWord(t)
  }

  lemma {:induction false} SectionsOk(raws: seq<string>, heading: Option<string>, blocks: seq<string>,
          paragraph: seq<string>)
    requires SectionOk(Section(heading, blocks)) && WordTexts(paragraph)
    ensures forall s <- Sections(raws, heading, blocks, paragraph) :: SectionOk(s)
    decreases |raws|
  {
    var flushed := FlushParagraph(blocks, paragraph);
    if paragraph != [] {
      assert paragraph[0] in paragraph;
      assert StartsWithWord(Join(paragraph, " "));
    }
    if raws != [] {
      var line, rest := Line(raws[0]), raws[1..];
      LineWords(raws[0]);
      if line == "" {
        SectionsOk(rest, heading, flushed, []);
      } else if IsHeading(line) {
        SectionsOk(rest, Some(line), [], []);
      } else {
        SectionsOk(rest, heading, blocks, paragraph + [line]);
      }
    }
  }

  // ---------------------------------------------------------------- the chunks of a text

  lemma OneSection(s: Section, maxChars: nat)
    requires maxChars >= 16 && SectionOk(s)
    ensures forall c <- WithPrefix(SectionPrefix(s, maxChars), SectionBodies(s, maxChars)) :: 1 <= |c| <= maxChars
    ensures var limit := maxChars - |SectionPrefix(s, maxChars)|;
            && limit >= 7
            && FlatWords(SectionBodies(s, maxChars))
            == ChopAll(FlatWords(if s.blocks == [] then HeadingTexts(s.heading) else s.blocks), limit)
  {
    BodyLimit(s.heading, maxChars);
    if s.blocks == [] {
      HeadingOnly(s, maxChars);
    } else {
      var limit := maxChars - |Prefix(s.heading, maxChars)|;
      BodyBounds(s.blocks, limit, "");
      BodyWords(s.blocks, limit, "");
      EmptyWords();
      hide SplitBlock;
      hide Bodies;
      hide Words;
      hide FlatWords;
      hide ChopAll;
      assert [] + ChopAll(FlatWords(s.blocks), limit) == ChopAll(FlatWords(s.blocks), limit);
    }
  }

  lemma HeadingOnly(s: Section, maxChars: nat)
    requires maxChars >= 16 && SectionOk(s) && s.blocks == []
    ensures forall c <- SectionBodies(s, maxChars) :: 1 <= |c| <= maxChars
    ensures FlatWords(SectionBodies(s, maxChars)) == ChopAll(FlatWords(HeadingTexts(s.heading)), maxChars)
  {
    ChopTexts([], maxChars);
    if s.heading.Some? {
      SplitBounds(s.heading.value, maxChars);
      SplitWords(s.heading.value, maxChars);
      HeadingWords(s.heading.value);
      hide SplitBlock;
      hide Words;
      hide ChopAll;
    }
  }

  lemma {:induction false} ChunksBounded(sections: seq<Section>, maxChars: nat)
    requires maxChars >= 16 && forall s <- sections :: SectionOk(s)
    ensures forall c <- SectionChunks(sections, maxChars) :: 1 <= |c| <= maxChars
    decreases |sections|
  {
    if sections != [] {
      assert sections[0] in sections;
      OneSection(sections[0], maxChars);
      hide SectionBodies;
      hide SectionPrefix;
      hide WithPrefix;
      hide SectionOk;
      ChunksBounded(sections[1..], maxChars);
    }
  }

  // Every chunk of a text has 1 to maxChars characters. Per section the chunk bodies carry, in order, exactly the
  // words of its blocks (of its heading when it has none), with only words longer than the body limit cut; and the
  // sections carry, in order, exactly the words of the text.
  lemma ChunkTextExact(text: string, maxChars: nat)
    requires maxChars >= 16
    ensures forall c <- ChunkText(text, maxChars).value :: 1 <= |c| <= maxChars
    ensures FlatWords(SectionTexts(TextSections(text))) == Words(text)
    ensures forall s <- TextSections(text) ::
              var limit := maxChars - |SectionPrefix(s, maxChars)|;
              && limit >= 7
              && FlatWords(SectionBodies(s, maxChars))
              == ChopAll(FlatWords(if s.blocks == [] then HeadingTexts(s.heading) else s.blocks), limit)
  {
    var sections := TextSections(text);
    SectionsOk(Split(Newlines(text), '\n'), None, [], []);
    ChunksBounded(sections, maxChars);
    TextWords(text);
    forall s | s in sections
      ensures var limit := maxChars - |SectionPrefix(s, maxChars)|;
              && limit >= 7
              && FlatWords(SectionBodies(s, maxChars))
              == ChopAll(FlatWords(if s.blocks == [] then HeadingTexts(s.heading) else s.blocks), limit)
    {
      OneSection(s, maxChars);
    }
  }

  // ---------------------------------------------------------------- the loops

  method SplitBlockLoop(block: string, limit: nat) returns (parts: seq<string>)
    requires limit > 0
    ensures parts == SplitBlock(block, limit)
  {
    hide LastBreak;
    hide TrimEnd;
    hide TrimStart;
    parts := [];
    var remaining := block;
    while |remaining| > limit
      invariant parts + SplitBlock(remaining, limit) == SplitBlock(block, limit)
      decreases |remaining|
    {
      var breakAt := LastBreak(remaining[..limit]);
      var take := if breakAt > 0 then breakAt else limit;
      parts := parts + [TrimEnd(remaining[..take])];
      remaining := TrimStart(remaining[take..]);
    }
    if remaining != "" { parts := parts + [remaining]; }
  }

  method TextSectionsLoop(text: string) returns (sections: seq<Section>)
    ensures sections == TextSections(text)
  {
    hide Line;
    hide IsHeading;
    hide Newlines;
    sections := [];
    var heading: Option<string>, blocks, paragraph := None, [], [];
    var raws := Split(Newlines(text), '\n');
    for i := 0 to |raws|
      invariant sections + Sections(raws[i..], heading, blocks, paragraph) == TextSections(text)
    {
      assert raws[i..][1..] == raws[i + 1..];
      var line := Line(raws[i]);
      if line == "" {
        blocks, paragraph := FlushParagraph(blocks, paragraph), [];
      } else if IsHeading(line) {
        sections := sections + FlushSection(heading, FlushParagraph(blocks, paragraph));
        heading, blocks, paragraph := Some(line), [], [];
      } else {
        paragraph := paragraph + [line];
      }
    }
    sections := sections + FlushSection(heading, FlushParagraph(blocks, paragraph));
  }

  method BodiesLoop(blocks: seq<string>, limit: nat) returns (bodies: seq<string>)
    requires limit > 0
    ensures bodies == Bodies(blocks, limit, "")
  {
    hide SplitBlock;
    bodies := [];
    var body := "";
    for i := 0 to |blocks|
      invariant bodies + Bodies(blocks[i..], limit, body) == Bodies(blocks, limit, "")
    {
      assert blocks[i..][1..] == blocks[i + 1..];
      var block := blocks[i];
      if |block| > limit {
        var parts := SplitBlockLoop(block, limit);
        ghost var rest := Bodies(blocks[i + 1..], limit, "");
        assert bodies + (FlushBody(body) + parts + rest) == bodies + FlushBody(body) + parts + rest;
        bodies, body := bodies + FlushBody(body) + parts, "";
      } else {
        var candidate := Candidate(body, block);
        if |candidate| > limit {
          bodies, body := bodies + FlushBody(body), block;
        } else {
          body := candidate;
        }
      }
    }
    bodies := bodies + FlushBody(body);
  }

  method ChunkTextLoop(text: string, maxChars: nat) returns (r: Option<seq<string>>)
    ensures r == ChunkText(text, maxChars)
  {
    if maxChars < 16 { return None; }
    hide Bodies;
    hide SplitBlock;
    hide Prefix;
    hide WithPrefix;
    hide TextSections;
    hide SectionBodies;
    hide SectionPrefix;
    var chunks := [];
    var sections := TextSectionsLoop(text);
    for i := 0 to |sections|
      invariant chunks + SectionChunks(sections[i..], maxChars) == SectionChunks(sections, maxChars)
    {
      assert sections[i..][1..] == sections[i + 1..];
      var bodies := SectionLoop(sections[i], maxChars);
      ghost var rest := SectionChunks(sections[i + 1..], maxChars);
      var more := WithPrefix(SectionPrefix(sections[i], maxChars), bodies);
      assert chunks + (more + rest) == chunks + more + rest;
      chunks := chunks + more;
    }
    assert chunks + [] == chunks;
    return Some(chunks);
  }

  method SectionLoop(s: Section, maxChars: nat) returns (bodies: seq<string>)
    requires maxChars >= 16
    ensures bodies == SectionBodies(s, maxChars)
  {
    if s.blocks == [] {
      bodies := [];
      if s.heading.Some? && s.heading.value != "" { bodies := SplitBlockLoop(s.heading.value, maxChars); }
    } else {
      BodyLimit(s.heading, maxChars);
      bodies := BodiesLoop(s.blocks, maxChars - |Prefix(s.heading, maxChars)|);
    }
  }
}
