/** How src/kb/ingest.ts lays the blocks of a text out in chunks. */
module ChunkerLayout {
  import opened Text
  import opened WordRuns
  import opened Chunker

  function Concat(runs: seq<seq<string>>): seq<string> {
    if runs == [] then [] else runs[0] + Concat(runs[1..])
  }

  // ---------------------------------------------------------------- the chunks of a section

  // What every chunk of the section starts with: its heading, cut to half of what two newlines leave, if it has blocks.
  function Lead(s: Section, maxChars: nat): string
    requires maxChars >= 16
  {
    if s.heading.None? || s.blocks == [] then ""
    else
      var h, half := s.heading.value, (maxChars - 2) / 2;
      h[..if |h| <= half then |h| else half] + ['\n', '\n']
  }

  // Each chunk starts with the lead and goes on, within the limit; and what goes on carries exactly the words, in
  // order, with only those longer than what is left cut.
  predicate CarriesWords(lead: string, words: seq<string>, run: seq<string>, maxChars: nat)
    requires |lead| < maxChars
  {
    && (forall c <- run :: |lead| < |c| <= maxChars && c[..|lead|] == lead)
    && FlatWords(seq(|run|, k requires 0 <= k < |run| => if |lead| <= |run[k]| then run[k][|lead|..] else ""))
       == ChopAll(words, maxChars - |lead|)
  }

  // The chunks of one section carry the words of its blocks, or of its heading where there are none.
  predicate Carries(s: Section, run: seq<string>, maxChars: nat)
    requires maxChars >= 16 && |Lead(s, maxChars)| < maxChars
  {
    var texts := if s.blocks == [] then HeadingTexts(s.heading) else s.blocks;
    CarriesWords(Lead(s, maxChars), FlatWords(texts), run, maxChars)
  }

  lemma LeadIsPrefix(s: Section, maxChars: nat)
    requires maxChars >= 16 && SectionOk(s)
    ensures Lead(s, maxChars) == SectionPrefix(s, maxChars) && |Lead(s, maxChars)| + 7 <= maxChars
  {
    if s.blocks != [] {
      BodyLimit(s.heading, maxChars);
      if s.heading.Some? {
        var h, half := s.heading.value, (maxChars - 2) / 2;
        assert h != "" && half >= 7;
        assert (if |h| > half then h[..half] else h) == h[..if |h| <= half then |h| else half];
      }
    }
  }

  lemma RunOfBodies(lead: string, words: seq<string>, bodies: seq<string>, maxChars: nat)
    requires |lead| < maxChars && forall b <- bodies :: 1 <= |b| && |lead| + |b| <= maxChars
    requires FlatWords(bodies) == ChopAll(words, maxChars - |lead|)
    ensures CarriesWords(lead, words, WithPrefix(lead, bodies), maxChars)
  {
    hide FlatWords, ChopAll;
    var run := WithPrefix(lead, bodies);
    forall k | 0 <= k < |run|
      ensures |lead| < |run[k]| <= maxChars && run[k][..|lead|] == lead && run[k][|lead|..] == bodies[k]
    {
      assert run[k] == lead + bodies[k] && bodies[k] in bodies;
    }
    assert seq(|run|, k requires 0 <= k < |run| => if |lead| <= |run[k]| then run[k][|lead|..] else "") == bodies;
  }

  lemma SectionCarries(s: Section, maxChars: nat)
    requires maxChars >= 16 && SectionOk(s)
    ensures |Lead(s, maxChars)| < maxChars
    ensures Carries(s, WithPrefix(SectionPrefix(s, maxChars), SectionBodies(s, maxChars)), maxChars)
  {
    hide SectionBodies, ChopAll, FlatWords, Lead, SectionPrefix, SectionOk, WithPrefix, CarriesWords, HeadingTexts;
    LeadIsPrefix(s, maxChars);
    OneSection(s, maxChars);
    BodiesFit(s, maxChars);
    var words := FlatWords(if s.blocks == [] then HeadingTexts(s.heading) else s.blocks);
    RunOfBodies(Lead(s, maxChars), words, SectionBodies(s, maxChars), maxChars);
  }

  lemma BodiesFit(s: Section, maxChars: nat)
    requires maxChars >= 16 && SectionOk(s)
    ensures forall b <- SectionBodies(s, maxChars) :: 1 <= |b| && |SectionPrefix(s, maxChars)| + |b| <= maxChars
  {
    BodyLimit(s.heading, maxChars);
    if s.blocks == [] {
      HeadingOnly(s, maxChars);
      hide SectionBodies;
    } else {
      BodyBounds(s.blocks, maxChars - |Prefix(s.heading, maxChars)|, "");
      hide Bodies, Prefix;
    }
  }

  // The returned chunks split, in order, into one run for each section, that carries it.
  lemma ChunksCarry(text: string, maxChars: nat) returns (runs: seq<seq<string>>)
    requires maxChars >= 16
    ensures var sections := TextSections(text);
            && ChunkText(text, maxChars) == Some(Concat(runs)) && |runs| == |sections|
            && forall i :: 0 <= i < |sections| ==>
                 |Lead(sections[i], maxChars)| < maxChars && Carries(sections[i], runs[i], maxChars)
  {
    SectionsOk(Split(Newlines(text), '\n'), None, [], []);
    hide SectionOk;
    runs := SectionRuns(TextSections(text), maxChars);
  }

  lemma {:induction false} SectionRuns(sections: seq<Section>, maxChars: nat) returns (runs: seq<seq<string>>)
    requires maxChars >= 16 && forall s <- sections :: SectionOk(s)
    ensures SectionChunks(sections, maxChars) == Concat(runs) && |runs| == |sections|
    ensures forall i :: 0 <= i < |sections| ==>
              |Lead(sections[i], maxChars)| < maxChars && Carries(sections[i], runs[i], maxChars)
    decreases |sections|
  {
    if sections == [] {
      runs := [];
    } else {
      assert sections[0] in sections;
      SectionCarries(sections[0], maxChars);
      hide SectionOk, Carries, Lead, WithPrefix, SectionPrefix, SectionBodies;
      var rest := SectionRuns(sections[1..], maxChars);
      runs := [WithPrefix(SectionPrefix(sections[0], maxChars), SectionBodies(sections[0], maxChars))] + rest;
      assert runs[1..] == rest;
      forall i | 0 <= i < |sections|
        ensures |Lead(sections[i], maxChars)| < maxChars && Carries(sections[i], runs[i], maxChars)
      {
        if i > 0 { assert sections[i] == sections[1..][i - 1] && runs[i] == rest[i - 1]; }
      }
    }
  }

  // ---------------------------------------------------------------- packing

  // The bodies that a group of blocks becomes: the parts of one block that is too long, or the blocks in one body.
  function GroupBodies(group: seq<string>, limit: nat): seq<string>
    requires limit > 0
  {
    if |group| == 1 && |group[0]| > limit then SplitBlock(group[0], limit) else [Join(group, "\n\n")]
  }

  predicate Packed(group: seq<string>, limit: nat) {
    group != [] && forall b <- group :: b != "" && |b| <= limit
  }

  predicate GroupOk(group: seq<string>, limit: nat) {
    (|group| == 1 && |group[0]| > limit) || (Packed(group, limit) && |Join(group, "\n\n")| <= limit)
  }

  // A group that another packed one follows has no room for its first block.
  predicate Full(group: seq<string>, next: seq<string>, limit: nat) {
    Packed(group, limit) && Packed(next, limit) ==> |Join(group, "\n\n")| + 2 + |next[0]| > limit
  }

  function GroupsBodies(groups: seq<seq<string>>, limit: nat): seq<string>
    requires limit > 0
  {
    if groups == [] then [] else GroupBodies(groups[0], limit) + GroupsBodies(groups[1..], limit)
  }

  predicate Layout(groups: seq<seq<string>>, blocks: seq<string>, limit: nat) {
    && Concat(groups) == blocks && (forall g <- groups :: GroupOk(g, limit))
    && forall i :: 0 < i < |groups| ==> Full(groups[i - 1], groups[i], limit)
  }

  lemma {:induction false} JoinMore(group: seq<string>, b: string)
    ensures Join(group + [b], "\n\n") == if group == [] then b else Join(group, "\n\n") + "\n\n" + b
    decreases |group|
  {
    if group == [] {
      assert group + [b] == [b];
    } else {
      assert (group + [b])[1..] == group[1..] + [b];
      JoinMore(group[1..], b);
      if |group| > 1 {
        assert group[0] + "\n\n" + (Join(group[1..], "\n\n") + "\n\n" + b)
            == group[0] + "\n\n" + Join(group[1..], "\n\n") + "\n\n" + b;
      }
    }
  }

  lemma OneGroup(groups: seq<seq<string>>, g: seq<string>, limit: nat)
    requires limit > 0
    ensures Concat([g] + groups) == g + Concat(groups)
    ensures GroupsBodies([g] + groups, limit) == GroupBodies(g, limit) + GroupsBodies(groups, limit)
  {
    assert ([g] + groups)[1..] == groups;
  }

  predicate NoneEmpty(blocks: seq<string>) {
    forall b <- blocks :: b != ""
  }

  lemma RestNotEmpty(blocks: seq<string>)
    requires NoneEmpty(blocks) && blocks != []
    ensures blocks[0] != "" && NoneEmpty(blocks[1..]) && blocks == [blocks[0]] + blocks[1..]
  {
    assert blocks[0] in blocks && forall b <- blocks[1..] :: b in blocks;
  }

  lemma JoinNone()
    ensures Join([], "\n\n") == ""
  {
  }

  // A group in front of a layout.
  lemma InFront(g: seq<string>, groups: seq<seq<string>>, blocks: seq<string>, limit: nat)
    requires limit > 0 && GroupOk(g, limit) && Layout(groups, blocks, limit)
    requires groups != [] ==> Full(g, groups[0], limit)
    ensures Layout([g] + groups, g + blocks, limit)
  {
    OneGroup(groups, g, limit);
    var all := [g] + groups;
    hide GroupOk, Full;
    forall i | 0 < i < |all| ensures Full(all[i - 1], all[i], limit) {
      if i > 1 { assert all[i - 1] == groups[i - 2] && all[i] == groups[i - 1]; }
    }
    forall x <- all ensures GroupOk(x, limit) { assert x == g || x in groups; }
  }

  // The bodies of a section are those of groups of consecutive blocks: a block that is too long is a group of its own
  // and is split; the others are packed, joined by an empty line, as many as fit.
  lemma {:induction false} PackBlocks(blocks: seq<string>, limit: nat, group: seq<string>)
    returns (groups: seq<seq<string>>)
    requires limit > 0 && NoneEmpty(blocks)
    requires group != [] ==> GroupOk(group, limit) && Packed(group, limit) && Join(group, "\n\n") != ""
    ensures Bodies(blocks, limit, Join(group, "\n\n")) == GroupsBodies(groups, limit)
    ensures Layout(groups, group + blocks, limit)
    ensures group != [] ==> groups != [] && group <= groups[0] && Packed(groups[0], limit)
    decreases |blocks|
  {
    var body := Join(group, "\n\n");
    if blocks == [] {
      groups := if group == [] then [] else [group];
      assert group + blocks == group;
      if group != [] {
        OneGroup([], group, limit);
        assert [group] + [] == [group] && group + [] == group;
      }
    } else {
      var block, rest := blocks[0], blocks[1..];
      RestNotEmpty(blocks);
      assert group + blocks == group + ([block] + rest);
      if |block| > limit {
        groups := PackLong(blocks, limit, group);
      } else if |Candidate(body, block)| > limit {
        assert group != [];
        groups := PackNext(blocks, limit, group);
      } else {
        JoinMore(group, block);
        assert group + blocks == group + [block] + rest;
        assert Packed(group + [block], limit) && Join(group + [block], "\n\n") == Candidate(body, block);
        groups := PackBlocks(rest, limit, group + [block]);
        assert group <= group + [block];
      }
    }
  }

  lemma {:induction false} PackLong(blocks: seq<string>, limit: nat, group: seq<string>)
    returns (groups: seq<seq<string>>)
    requires limit > 0 && NoneEmpty(blocks) && blocks != [] && |blocks[0]| > limit
    requires group != [] ==> GroupOk(group, limit) && Packed(group, limit) && Join(group, "\n\n") != ""
    ensures Bodies(blocks, limit, Join(group, "\n\n")) == GroupsBodies(groups, limit)
    ensures Layout(groups, group + blocks, limit)
    ensures group != [] ==> groups != [] && group <= groups[0] && Packed(groups[0], limit)
    decreases |blocks|, 0
  {
    var block, rest := blocks[0], blocks[1..];
    RestNotEmpty(blocks);
    hide SplitBlock, NoneEmpty, Join;
    assert Join([], "\n\n") == "" by { JoinNone(); }
    var more := PackBlocks(rest, limit, []);
    assert [] + rest == rest;
    assert !Packed([block], limit) by { assert block in [block]; }
    InFront([block], more, rest, limit);
    OneGroup(more, [block], limit);
    assert [block] + rest == blocks;
    groups := [[block]] + more;
    if group != [] {
      InFront(group, groups, blocks, limit);
      OneGroup(groups, group, limit);
      assert !(|group| == 1 && |group[0]| > limit) by { assert group[0] in group; }
      var tail := SplitBlock(block, limit) + Bodies(rest, limit, "");
      assert [Join(group, "\n\n")] + SplitBlock(block, limit) + Bodies(rest, limit, "")
          == [Join(group, "\n\n")] + tail;
      groups := [group] + groups;
    } else {
      assert [] + blocks == blocks;
      assert [] + SplitBlock(block, limit) == SplitBlock(block, limit);
    }
  }

  lemma {:induction false} PackNext(blocks: seq<string>, limit: nat, group: seq<string>)
    returns (groups: seq<seq<string>>)
    requires limit > 0 && NoneEmpty(blocks) && blocks != [] && |blocks[0]| <= limit
    requires group != [] && GroupOk(group, limit) && Packed(group, limit) && Join(group, "\n\n") != ""
    requires |Candidate(Join(group, "\n\n"), blocks[0])| > limit
    ensures Bodies(blocks, limit, Join(group, "\n\n")) == GroupsBodies(groups, limit)
    ensures Layout(groups, group + blocks, limit)
    ensures groups != [] && group <= groups[0] && Packed(groups[0], limit)
    decreases |blocks|, 0
  {
    var block, rest := blocks[0], blocks[1..];
    RestNotEmpty(blocks);
    assert Packed([block], limit) && Join([block], "\n\n") == block;
    hide SplitBlock, NoneEmpty, Join;
    var more := PackBlocks(rest, limit, [block]);
    assert [block] + rest == blocks && more[0][0] == block;
    InFront(group, more, blocks, limit);
    OneGroup(more, group, limit);
    assert !(|group| == 1 && |group[0]| > limit) by { assert group[0] in group; }
    groups := [group] + more;
  }

  lemma BodiesOf(s: Section, maxChars: nat)
    requires maxChars >= 16 && s.blocks != []
    ensures |Prefix(s.heading, maxChars)| < maxChars
    ensures SectionBodies(s, maxChars) == Bodies(s.blocks, maxChars - |Prefix(s.heading, maxChars)|, "")
  {
    hide Prefix, Bodies, SplitBlock;
    BodyLimit(s.heading, maxChars);
  }

  lemma SamePrefix(s: Section, maxChars: nat)
    requires maxChars >= 16 && s.blocks != []
    ensures SectionPrefix(s, maxChars) == Prefix(s.heading, maxChars)
  {
  }

  lemma BlocksNotEmpty(s: Section)
    requires SectionOk(s)
    ensures NoneEmpty(s.blocks)
  {
    hide IsSpace;
    forall b <- s.blocks ensures b != "" { assert StartsWithWord(b); }
  }

  // So are the bodies of every section that has blocks.
  lemma BodiesPacked(s: Section, maxChars: nat) returns (groups: seq<seq<string>>)
    requires maxChars >= 16 && SectionOk(s) && s.blocks != []
    ensures var limit := maxChars - |Lead(s, maxChars)|;
            limit > 0 && SectionBodies(s, maxChars) == GroupsBodies(groups, limit) && Layout(groups, s.blocks, limit)
  {
    hide *;
    BodiesOf(s, maxChars);
    BlocksNotEmpty(s);
    LeadIsPrefix(s, maxChars);
    SamePrefix(s, maxChars);
    JoinNone();
    groups := PackBlocks(s.blocks, maxChars - |Lead(s, maxChars)|, []);
    assert [] + s.blocks == s.blocks;
  }
}
