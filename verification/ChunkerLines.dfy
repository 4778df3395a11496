/** The lines, headings and breaks of src/kb/ingest.ts, by their characters. */
module ChunkerLines {
  import opened Text
  import opened WordRuns
  import opened Chunker

  lemma DropAppend(a: string, b: string, k: nat)
    requires k <= |a|
    ensures (a + b)[k..] == a[k..] + b
  {
  }

  lemma Associates(a: string, b: string, c: string)
    ensures a + (b + c) == a + b + c
  {
  }

  // ---------------------------------------------------------------- line endings

  lemma {:induction false} NewlinesKeep(s: string)
    ensures '\r' !in Newlines(s) && ('\r' !in s ==> Newlines(s) == s)
    decreases |s|
  {
    if s != "" {
      var k := if s[0] == '\r' && |s| > 1 && s[1] == '\n' then 2 else 1;
      NewlinesKeep(s[k..]);
      assert s == s[..k] + s[k..];
    }
  }

  // How many characters a line ending at the start takes.
  predicate FeedAfter(s: string) {
    |s| > 1 && s[0] == '\r' && s[1] == '\n'
  }

  lemma NewlinesFirst(s: string)
    requires s != ""
    ensures Newlines(s) == if FeedAfter(s) then ['\n'] + Newlines(s[2..])
                           else [if s[0] == '\r' then '\n' else s[0]] + Newlines(s[1..])
  {
  }

  // A carriage return, with the line feed after it if there is one, becomes one line feed.
  lemma NewlinesAt(a: string, b: string)
    ensures Newlines(a + ['\r', '\n'] + b) == Newlines(a) + ['\n'] + Newlines(b)
    ensures b == "" || b[0] != '\n' ==> Newlines(a + ['\r'] + b) == Newlines(a) + ['\n'] + Newlines(b)
  {
    var long, short := ['\r', '\n'] + b, ['\r'] + b;
    assert long[2..] == b && long[1] == '\n' && short[1..] == b && (b != "" ==> short[1] == b[0]);
    hide Newlines;
    NewlinesFirst(long);
    NewlinesFirst(short);
    NewlinesBefore(a, long);
    NewlinesBefore(a, short);
    Associates(a, ['\r', '\n'], b);
    Associates(a, ['\r'], b);
    Associates(Newlines(a), ['\n'], Newlines(b));
  }

  lemma NewlinesNone()
    ensures Newlines("") == "" && Collapse("") == ""
  {
  }

  lemma {:induction false} NewlinesBefore(a: string, rest: string)
    requires rest != "" && rest[0] == '\r'
    ensures Newlines(a + rest) == Newlines(a) + Newlines(rest)
    decreases |a|
  {
    hide Newlines;
    var s := a + rest;
    if a == "" {
      NewlinesNone();
      assert s == rest && Newlines(a) + Newlines(rest) == Newlines(rest);
    } else {
      assert s[0] == a[0] && s[1] == (if |a| > 1 then a[1] else '\r');
      NewlinesFirst(a);
      NewlinesFirst(s);
      if FeedAfter(a) {
        DropAppend(a, rest, 2);
        NewlinesBefore(a[2..], rest);
        Associates(['\n'], Newlines(a[2..]), Newlines(rest));
      } else {
        DropAppend(a, rest, 1);
        NewlinesBefore(a[1..], rest);
        Associates([if a[0] == '\r' then '\n' else a[0]], Newlines(a[1..]), Newlines(rest));
      }
    }
  }

  // ---------------------------------------------------------------- blanks and tabs

  predicate AllBlank(s: string) {
    forall c <- s :: c == ' ' || c == '\t'
  }

  lemma CollapseFirst(s: string)
    requires s != ""
    ensures Collapse(s) == if BlankOrTab(s[0]) then [' '] + Collapse(DropBlanks(s[1..])) else [s[0]] + Collapse(s[1..])
  {
  }

  // Each run of blanks and tabs becomes one blank.
  lemma CollapseAt(a: string, run: string, b: string)
    requires run != "" && AllBlank(run)
    requires (a == "" || !BlankOrTab(a[|a| - 1])) && (b == "" || !BlankOrTab(b[0]))
    ensures Collapse(a + run + b) == Collapse(a) + [' '] + Collapse(b)
  {
    hide Collapse;
    CollapseBefore(a, run + b);
    Associates(a, run, b);
    assert (run + b)[0] == run[0] && run[0] in run && forall c <- run[1..] :: c in run;
    DropAppend(run, b, 1);
    CollapseFirst(run + b);
    DropRun(run[1..], b);
    Associates(Collapse(a), [' '], Collapse(b));
  }

  lemma {:induction false} CollapseBefore(a: string, rest: string)
    requires a == "" || !BlankOrTab(a[|a| - 1])
    ensures Collapse(a + rest) == Collapse(a) + Collapse(rest)
    decreases |a|
  {
    hide Collapse;
    if a == "" {
      NewlinesNone();
      assert a + rest == rest && Collapse(a) + Collapse(rest) == Collapse(rest);
    } else {
      CollapseFirst(a);
      CollapseFirst(a + rest);
      DropAppend(a, rest, 1);
      assert (a + rest)[0] == a[0] && (|a| > 1 ==> a[1..][|a| - 2] == a[|a| - 1]);
      if BlankOrTab(a[0]) {
        DropBlanksAt(a[1..], rest);
        CollapseBefore(DropBlanks(a[1..]), rest);
        Associates([' '], Collapse(DropBlanks(a[1..])), Collapse(rest));
      } else {
        CollapseBefore(a[1..], rest);
        Associates([a[0]], Collapse(a[1..]), Collapse(rest));
      }
    }
  }

  lemma {:induction false} DropRun(run: string, b: string)
    requires AllBlank(run) && (b == "" || !BlankOrTab(b[0]))
    ensures DropBlanks(run + b) == b
  {
    if run == "" {
      assert run + b == b;
    } else {
      assert run[0] in run && (run + b)[1..] == run[1..] + b && forall c <- run[1..] :: c in run;
      DropRun(run[1..], b);
    }
  }

  lemma {:induction false} DropBlanksAt(a: string, b: string)
    requires a != "" && !BlankOrTab(a[|a| - 1])
    ensures var t := DropBlanks(a);
            DropBlanks(a + b) == t + b && t != "" && t[|t| - 1] == a[|a| - 1]
  {
    if BlankOrTab(a[0]) {
      assert (a + b)[1..] == a[1..] + b && |a| > 1;
      DropBlanksAt(a[1..], b);
    }
  }

  lemma {:induction false} CollapseKeeps(s: string)
    requires forall k :: 0 <= k < |s| ==> s[k] != '\t' && (k > 0 ==> s[k - 1] != ' ' || s[k] != ' ')
    ensures Collapse(s) == s
    decreases |s|
  {
    if s != "" {
      assert forall k :: 0 <= k < |s[1..]| ==> s[1..][k] == s[k + 1];
      CollapseKeeps(s[1..]);
      assert s == [s[0]] + s[1..];
      if s[0] == ' ' && |s| > 1 { assert !BlankOrTab(s[1..][0]); }
    }
  }

  // ---------------------------------------------------------------- headings

  // One to six '#' at the start, whitespace after them, and something after that.
  predicate Marked(line: string, n: int, m: int) {
    && 1 <= n <= 6 && n < m < |line| && (forall k :: 0 <= k < n ==> line[k] == '#')
    && IsSpace(line[n]) && !IsSpace(line[m])
  }

  lemma HeadingExact(line: string)
    ensures IsHeading(line) <==> exists n, m :: Marked(line, n, m)
  {
    HashesExact(line);
    var h := Hashes(line);
    if IsHeading(line) {
      var m := FirstNonSpace(line[h..]);
      assert line[h..][m] == line[h + m] && m > 0;
      assert Marked(line, h, h + m);
    }
    if n, m :| Marked(line, n, m) {
      assert h == n;
      NotAllTrimmed(line[n..], m - n);
    }
  }

  lemma {:induction false} HashesExact(s: string)
    ensures var n := Hashes(s); (forall k :: 0 <= k < n ==> s[k] == '#') && (n < |s| ==> s[n] != '#')
  {
    if s != "" && s[0] == '#' {
      HashesExact(s[1..]);
      assert forall k :: 0 < k < |s| ==> s[k] == s[1..][k - 1];
    }
  }

  lemma {:induction false} FirstNonSpace(s: string) returns (m: nat)
    requires TrimStart(s) != ""
    ensures m < |s| && !IsSpace(s[m])
  {
    if IsSpace(s[0]) {
      var k := FirstNonSpace(s[1..]);
      m := k + 1;
    } else {
      m := 0;
    }
  }

  lemma {:induction false} NotAllTrimmed(s: string, m: nat)
    requires m < |s| && !IsSpace(s[m])
    ensures TrimStart(s) != ""
  {
    if IsSpace(s[0]) { NotAllTrimmed(s[1..], m - 1); }
  }

  // ---------------------------------------------------------------- where a block is cut

  // Whitespace that follows something else.
  predicate BreakAt(s: string, p: int) {
    0 < p < |s| && IsSpace(s[p]) && !IsSpace(s[p - 1])
  }

  // A block that is too long is cut at its last such place within the limit, and at the limit where there is none.
  lemma TakeExact(block: string, limit: nat)
    requires 0 < limit < |block|
    ensures var s, n := block[..limit], Take(block, limit);
            if exists p :: BreakAt(s, p) then BreakAt(s, n) && forall p :: BreakAt(s, p) ==> p <= n else n == limit
  {
    var s := block[..limit];
    var h := DropWord(s);
    DropWordExact(s);
    if h == "" {
      assert forall p :: !BreakAt(s, p);
    } else {
      BreakIsSpace(h);
      TrimEndDrops(h);
      var b := |TrimEnd(h)|;
      AllSpace(h[b..]);
      assert forall k :: b <= k < |h| ==> s[k] == h[b..][k - b];
      assert b > 0 ==> s[b - 1] == TrimEnd(h)[b - 1];
      assert b > 0 ==> BreakAt(s, b);
    }
  }

  lemma {:induction false} DropWordExact(s: string)
    ensures forall k :: |DropWord(s)| <= k < |s| ==> !IsSpace(s[k])
    decreases |s|
  {
    if s != "" && !IsSpace(s[|s| - 1]) { DropWordExact(s[..|s| - 1]); }
  }

  lemma {:induction false} AllSpace(s: string)
    requires Blank(s)
    ensures forall k :: 0 <= k < |s| ==> IsSpace(s[k])
  {
    if s != "" {
      AllSpace(s[1..]);
      assert forall k :: 0 < k < |s| ==> s[k] == s[1..][k - 1];
    }
  }

  // ---------------------------------------------------------------- the sections, read from the end

  datatype Below = Below(paragraph: seq<string>, blocks: seq<string>, sections: seq<Section>)

  function Paragraph(lines: seq<string>): seq<string> {
    if lines == [] then [] else [Join(lines, " ")]
  }

  // What some lines are for whatever stands above them: lines that go on its paragraph, then blocks of its section,
  // then sections of their own. An empty line ends a paragraph, a heading a section.
  function Read(raws: seq<string>): Below {
    if raws == [] then Below([], [], [])
    else
      var line, below := Line(raws[0]), Read(raws[1..]);
      var blocks := Paragraph(below.paragraph) + below.blocks;
      if line == "" then Below([], blocks, below.sections)
      else if IsHeading(line) then Below([], [], [Section(Some(line), blocks)] + below.sections)
      else below.(paragraph := [line] + below.paragraph)
  }

  lemma ReadUnfold(raws: seq<string>)
    requires raws != []
    ensures var line, below := Line(raws[0]), Read(raws[1..]);
            var blocks := Paragraph(below.paragraph) + below.blocks;
            Read(raws) == if line == "" then Below([], blocks, below.sections)
                          else if IsHeading(line) then Below([], [], [Section(Some(line), blocks)] + below.sections)
                          else below.(paragraph := [line] + below.paragraph)
  {
  }

  // What the lines add to a section that has a heading, blocks and the lines of a paragraph already.
  function Joined(heading: Option<string>, blocks: seq<string>, paragraph: seq<string>, below: Below): seq<Section> {
    FlushSection(heading, blocks + Paragraph(paragraph + below.paragraph) + below.blocks) + below.sections
  }

  lemma FlushedParagraph(blocks: seq<string>, paragraph: seq<string>)
    ensures FlushParagraph(blocks, paragraph) == blocks + Paragraph(paragraph)
  {
  }

  lemma JoinedEmpty(heading: Option<string>, blocks: seq<string>, paragraph: seq<string>, below: Below)
    ensures Joined(heading, blocks + Paragraph(paragraph), [], below)
         == Joined(heading, blocks, paragraph, Below([], Paragraph(below.paragraph) + below.blocks, below.sections))
  {
    hide Paragraph, FlushSection;
    assert [] + below.paragraph == below.paragraph && paragraph + [] == paragraph;
    var head, mid := blocks + Paragraph(paragraph), Paragraph(below.paragraph);
    assert head + mid + below.blocks == head + (mid + below.blocks);
  }

  lemma JoinedHeading(heading: Option<string>, blocks: seq<string>, paragraph: seq<string>, line: string, below: Below)
    ensures var own := Section(Some(line), Paragraph(below.paragraph) + below.blocks);
            FlushSection(heading, blocks + Paragraph(paragraph)) + Joined(Some(line), [], [], below)
            == Joined(heading, blocks, paragraph, Below([], [], [own] + below.sections))
  {
    assert [] + below.paragraph == below.paragraph && paragraph + [] == paragraph;
    assert [] + Paragraph(below.paragraph) == Paragraph(below.paragraph);
    var first := FlushSection(heading, blocks + Paragraph(paragraph));
    var own := Section(Some(line), Paragraph(below.paragraph) + below.blocks);
    assert blocks + Paragraph(paragraph) + [] == blocks + Paragraph(paragraph);
    assert FlushSection(Some(line), own.blocks) == [own];
    hide Paragraph, FlushSection;
    assert first + ([own] + below.sections) == first + [own] + below.sections;
  }

  lemma JoinedText(heading: Option<string>, blocks: seq<string>, paragraph: seq<string>, line: string, below: Below)
    ensures Joined(heading, blocks, paragraph + [line], below)
         == Joined(heading, blocks, paragraph, below.(paragraph := [line] + below.paragraph))
  {
    hide Paragraph, FlushSection;
    assert paragraph + [line] + below.paragraph == paragraph + ([line] + below.paragraph);
  }

  lemma {:induction false} SectionsRead(raws: seq<string>, heading: Option<string>, blocks: seq<string>,
          paragraph: seq<string>)
    ensures Sections(raws, heading, blocks, paragraph) == Joined(heading, blocks, paragraph, Read(raws))
    decreases |raws|
  {
    FlushedParagraph(blocks, paragraph);
    SectionsUnfold(raws, heading, blocks, paragraph);
    if raws == [] {
      assert paragraph + [] == paragraph && blocks + Paragraph(paragraph) + [] == blocks + Paragraph(paragraph);
    } else {
      ReadUnfold(raws);
      hide Line, IsHeading, Sections, Read, Paragraph, Joined, FlushParagraph, FlushSection;
      var line, below := Line(raws[0]), Read(raws[1..]);
      if line == "" {
        SectionsRead(raws[1..], heading, blocks + Paragraph(paragraph), []);
        JoinedEmpty(heading, blocks, paragraph, below);
      } else if IsHeading(line) {
        SectionsRead(raws[1..], Some(line), [], []);
        JoinedHeading(heading, blocks, paragraph, line, below);
      } else {
        SectionsRead(raws[1..], heading, blocks, paragraph + [line]);
        JoinedText(heading, blocks, paragraph, line, below);
      }
    }
  }

  // The sections of a text: what stands before the first heading, if anything, and then one for each heading.
  lemma TextSectionsRead(text: string)
    ensures var below := Read(Split(Newlines(text), '\n'));
            var first := Paragraph(below.paragraph) + below.blocks;
            TextSections(text) == (if first == [] then [] else [Section(None, first)]) + below.sections
  {
    var raws := Split(Newlines(text), '\n');
    SectionsRead(raws, None, [], []);
    var below := Read(raws);
    hide Sections, Read, Newlines, Split, Paragraph;
    assert [] + below.paragraph == below.paragraph;
    assert [] + Paragraph(below.paragraph) + below.blocks == Paragraph(below.paragraph) + below.blocks;
  }
}
