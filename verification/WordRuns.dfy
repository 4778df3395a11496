/** Words: the maximal runs of non-whitespace of a text.
 *
 * A chunker may break lines, trim ends, collapse blanks and pack paragraphs, and for all of that it must keep the
 * words: none lost, none split, none joined to its neighbour and none moved. Words that do not fit a chunk are the one
 * exception; they are cut into pieces of the limit, the last piece being what is left. The lemmas say what the words of
 * a text are after each rearrangement of its whitespace.
 */
module WordRuns {
  import opened Text

  function WordEnd(s: string): (k: nat)
    ensures k <= |s|
    ensures s != "" && !IsSpace(s[0]) ==> k > 0
  {
    if s == "" || IsSpace(s[0]) then 0 else 1 + WordEnd(s[1..])
  }

  function Words(s: string): seq<string>
    decreases |s|
  {
    if s == "" then []
    else if IsSpace(s[0]) then Words(s[1..])
    else [s[..WordEnd(s)]] + Words(s[WordEnd(s)..])
  }

  function FlatWords(texts: seq<string>): seq<string> {
    if texts == [] then [] else Words(texts[0]) + FlatWords(texts[1..])
  }

  lemma {:induction false} FlatAppend(a: seq<string>, b: seq<string>)
    ensures FlatWords(a + b) == FlatWords(a) + FlatWords(b)
    decreases |a|
  {
    if a == [] {
      assert a + b == b;
    } else {
      assert (a + b)[1..] == a[1..] + b;
      FlatAppend(a[1..], b);
    }
  }

  lemma FlatOne(t: string)
    ensures FlatWords([t]) == Words(t)
  {
    assert [t][1..] == [];
    assert FlatWords([]) == [];
  }

  // No word runs across from a to b.
  predicate Apart(a: string, b: string) {
    a == "" || b == "" || IsSpace(a[|a| - 1]) || IsSpace(b[0])
  }

  lemma {:induction false} WordEndApart(a: string, b: string)
    requires a != "" && Apart(a, b)
    ensures WordEnd(a + b) == WordEnd(a)
    decreases |a|
  {
    if !IsSpace(a[0]) {
      assert (a + b)[1..] == a[1..] + b;
      if |a| > 1 {
        WordEndApart(a[1..], b);
      } else {
        assert a[1..] + b == b;
      }
    }
  }

  lemma FirstWord(s: string)
    requires s != "" && !IsSpace(s[0])
    ensures Words(s) == [s[..WordEnd(s)]] + Words(s[WordEnd(s)..])
  {
  }

  lemma {:induction false} WordsApart(a: string, b: string)
    requires Apart(a, b)
    ensures Words(a + b) == Words(a) + Words(b)
    decreases |a|
  {
    if a == "" {
      assert a + b == b;
    } else if IsSpace(a[0]) {
      assert (a + b)[1..] == a[1..] + b;
      WordsApart(a[1..], b);
    } else {
      WordsApart(a[WordEnd(a)..], b);
      FirstApart(a, b);
    }
  }

  lemma FirstApart(a: string, b: string)
    requires a != "" && !IsSpace(a[0]) && Apart(a, b)
    requires Words(a[WordEnd(a)..] + b) == Words(a[WordEnd(a)..]) + Words(b)
    ensures Words(a + b) == Words(a) + Words(b)
  {
    var k := WordEnd(a);
    WordEndApart(a, b);
    FirstWord(a + b);
    FirstWord(a);
    hide Words;
    hide WordEnd;
    hide Apart;
    CutFirst(a, b, k);
    Associates([a[..k]], Words(a[k..]), Words(b));
  }

  lemma CutFirst(a: string, b: string, k: nat)
    requires k <= |a|
    ensures (a + b)[..k] == a[..k] && (a + b)[k..] == a[k..] + b
  {
  }

  lemma Associates(a: seq<string>, b: seq<string>, c: seq<string>)
    ensures a + (b + c) == a + b + c
  {
  }

  lemma {:induction false} BlankWords(s: string)
    requires Blank(s)
    ensures Words(s) == []
    decreases |s|
  {
    if s != "" { BlankWords(s[1..]); }
  }

  lemma {:induction false} BlankEnds(s: string)
    requires Blank(s) && s != ""
    ensures IsSpace(s[0]) && IsSpace(s[|s| - 1])
    decreases |s|
  {
    if |s| > 1 { BlankEnds(s[1..]); }
  }

  lemma TrimStartWords(s: string)
    ensures Words(TrimStart(s)) == Words(s)
  {
    var n := |s| - |TrimStart(s)|;
    TrimStartDrops(s);
    BlankWords(s[..n]);
    if n > 0 { BlankEnds(s[..n]); }
    assert s == s[..n] + s[n..];
    WordsApart(s[..n], s[n..]);
  }

  lemma TrimEndWords(s: string)
    ensures Words(TrimEnd(s)) == Words(s)
  {
    var n := |TrimEnd(s)|;
    TrimEndDrops(s);
    BlankWords(s[n..]);
    if n < |s| { BlankEnds(s[n..]); }
    assert s == s[..n] + s[n..];
    WordsApart(s[..n], s[n..]);
  }

  // A word, and after it texts with the same words.
  lemma SameWord(w: string, r: string, t: string)
    requires (r == "" || IsSpace(r[0])) && (t == "" || IsSpace(t[0])) && Words(r) == Words(t)
    ensures Words(w + r) == Words(w + t)
  {
    WordsApart(w, r);
    WordsApart(w, t);
  }

  lemma BlankFirst(c: char, s: string)
    requires IsSpace(c)
    ensures Words([c] + s) == Words(s)
  {
    assert ([c] + s)[1..] == s;
  }

  lemma {:induction false} WordEndStops(s: string)
    ensures WordEnd(s) < |s| ==> IsSpace(s[WordEnd(s)])
    decreases |s|
  {
    if s != "" { WordEndStops(s[1..]); }
  }

  // Text between whitespace separators: the words of the pieces, in order.
  lemma {:induction false} JoinWords(parts: seq<string>, sep: string)
    requires Blank(sep) && sep != ""
    ensures Words(Join(parts, sep)) == FlatWords(parts)
    decreases |parts|
  {
    if parts == [] {
    } else if |parts| == 1 {
      FlatOne(parts[0]);
      assert parts == [parts[0]];
    } else {
      var rest := Join(parts[1..], sep);
      JoinWords(parts[1..], sep);
      BetweenWords(parts[0], sep, rest);
    }
  }

  lemma BetweenWords(a: string, sep: string, b: string)
    requires Blank(sep) && sep != ""
    ensures Words(a + sep + b) == Words(a) + Words(b)
  {
    BlankEnds(sep);
    BlankWords(sep);
    WordsApart(a, sep);
    WordsApart(a + sep, b);
  }

  // ---------------------------------------------------------------- cutting long words

  function Chop(w: string, limit: nat): seq<string>
    requires limit > 0
    decreases |w|
  {
    if |w| <= limit then [w] else [w[..limit]] + Chop(w[limit..], limit)
  }

  // Words longer than the limit cut into pieces of it; the others left whole.
  function ChopAll(ws: seq<string>, limit: nat): seq<string>
    requires limit > 0
  {
    if ws == [] then [] else Chop(ws[0], limit) + ChopAll(ws[1..], limit)
  }

  lemma {:induction false} ChopAppend(a: seq<string>, b: seq<string>, limit: nat)
    requires limit > 0
    ensures ChopAll(a + b, limit) == ChopAll(a, limit) + ChopAll(b, limit)
    decreases |a|
  {
    if a == [] {
      assert a + b == b;
    } else {
      assert (a + b)[1..] == a[1..] + b;
      ChopAppend(a[1..], b, limit);
    }
  }

  lemma ChopFirst(s: string, limit: nat)
    requires limit > 0 && s != "" && !IsSpace(s[0])
    ensures var k := WordEnd(s);
            ChopAll(Words(s), limit) == Chop(s[..k], limit) + ChopAll(Words(s[k..]), limit)
  {
    var k := WordEnd(s);
    assert Words(s)[0] == s[..k] && Words(s)[1..] == Words(s[k..]);
  }

  lemma ChopLong(w: string, limit: nat, more: seq<string>)
    requires 0 < limit < |w|
    ensures Chop(w, limit) + more == [w[..limit]] + (Chop(w[limit..], limit) + more)
  {
  }

  // The chopped words of a list of texts, from its first text.
  lemma ChopTexts(texts: seq<string>, limit: nat)
    requires limit > 0
    ensures texts != [] ==>
      ChopAll(FlatWords(texts), limit) == ChopAll(Words(texts[0]), limit) + ChopAll(FlatWords(texts[1..]), limit)
    ensures texts == [] ==> ChopAll(FlatWords(texts), limit) == []
  {
    if texts != [] { ChopAppend(Words(texts[0]), FlatWords(texts[1..]), limit); }
  }

  lemma OneWord(s: string)
    requires s != "" && WordEnd(s) == |s|
    ensures Words(s) == [s]
  {
    assert s[..|s|] == s && s[|s|..] == "";
    assert Words("") == [];
  }

  // The words of a text that fits are left whole.
  lemma {:induction false} FitWords(s: string, limit: nat)
    requires 0 < limit && |s| <= limit
    ensures ChopAll(Words(s), limit) == Words(s)
    decreases |s|
  {
    if s != "" {
      if IsSpace(s[0]) {
        FitWords(s[1..], limit);
      } else {
        var k := WordEnd(s);
        FitWords(s[k..], limit);
        assert Words(s)[1..] == Words(s[k..]);
      }
    }
  }

  // Cutting leaves the characters of a word alone, and cuts no word that fits.
  lemma {:induction false} ChopKeeps(w: string, limit: nat)
    requires limit > 0
    ensures Join(Chop(w, limit), "") == w
    ensures |w| <= limit ==> Chop(w, limit) == [w]
    ensures forall p <- Chop(w, limit) :: |p| <= limit
    decreases |w|
  {
    if |w| > limit {
      ChopKeeps(w[limit..], limit);
      var rest := Chop(w[limit..], limit);
      assert ([w[..limit]] + rest)[1..] == rest;
      assert w == w[..limit] + "" + w[limit..];
    }
  }
}
