/** The JavaScript string operations that the modelled files call, with the facts proved about them.
 *
 * A string is a sequence of Dafny characters where JavaScript has UTF-16 code units. Whitespace is what String.trim and
 * the regular-expression class \s take it to be. Splitting, joining, slicing and searching for one character follow
 * String.split, Array.join, String.slice and String.indexOf on the arguments that occur: a one-character separator, and
 * indexes that are not negative.
 *
 * Two groups of facts are used throughout: trimming takes whitespace off the ends and nothing else, and splitting and
 * joining undo each other.
 */
module Text {
  datatype Option<+T> = None | Some(value: T)

  // ECMAScript WhiteSpace and LineTerminator: what trim() removes and \s matches.
  predicate IsSpace(c: char) {
    c == ' ' || c == '\t' || c == '\n' || c == '\r' || c == '\U{0B}' || c == '\U{0C}' ||
    c == '\U{A0}' || c == '\U{1680}' || '\U{2000}' <= c <= '\U{200A}' || c == '\U{2028}' ||
    c == '\U{2029}' || c == '\U{202F}' || c == '\U{205F}' || c == '\U{3000}' || c == '\U{FEFF}'
  }

  // The white space and line terminators of ECMAScript, by their code points.
  lemma SpaceExact(c: char)
    ensures IsSpace(c) <==>
              var n := c as int;
              9 <= n <= 13 || 0x2000 <= n <= 0x200A
              || n in {0x20, 0xA0, 0x1680, 0x2028, 0x2029, 0x202F, 0x205F, 0x3000, 0xFEFF}
  {
  }

  function TrimStart(s: string): (t: string)
    ensures |t| <= |s| && (t == "" || !IsSpace(t[0]))
  {
    if s != "" && IsSpace(s[0]) then TrimStart(s[1..]) else s
  }

  function TrimEnd(s: string): (t: string)
    ensures |t| <= |s| && (t == "" || !IsSpace(t[|t| - 1]))
  {
    if s != "" && IsSpace(s[|s| - 1]) then TrimEnd(s[..|s| - 1]) else s
  }

  function Trim(s: string): string {
    TrimEnd(TrimStart(s))
  }

  // A string that neither starts nor ends with whitespace.
  predicate Snug(s: string) {
    s != "" && !IsSpace(s[0]) && !IsSpace(s[|s| - 1])
  }

  predicate Blank(s: string) {
    s == "" || (IsSpace(s[0]) && Blank(s[1..]))
  }

  // Trimming takes whitespace off one end and nothing else.
  lemma {:induction false} TrimStartDrops(s: string)
    ensures var n := |s| - |TrimStart(s)|; Blank(s[..n]) && s[n..] == TrimStart(s)
  {
    var n := |s| - |TrimStart(s)|;
    if s != "" && IsSpace(s[0]) {
      TrimStartDrops(s[1..]);
      assert s[..n][1..] == s[1..][..n - 1];
    }
  }

  lemma {:induction false} TrimEndDrops(s: string)
    ensures var n := |TrimEnd(s)|; Blank(s[n..]) && s[..n] == TrimEnd(s)
  {
    if s != "" && IsSpace(s[|s| - 1]) {
      var p, n := s[..|s| - 1], |TrimEnd(s)|;
      TrimEndDrops(p);
      BlankAppend(p[n..], s[|s| - 1]);
      assert s[n..] == p[n..] + [s[|s| - 1]];
    }
  }

  lemma {:induction false} BlankAppend(s: string, c: char)
    requires Blank(s) && IsSpace(c)
    ensures Blank(s + [c])
  {
    if s == "" {
      assert s + [c] == [c];
    } else {
      BlankAppend(s[1..], c);
      assert (s + [c])[1..] == s[1..] + [c];
    }
  }

  lemma TrimSnug(s: string)
    requires Snug(s)
    ensures TrimStart(s) == s && Trim(s) == s
  {
  }

  // What trim() returns starts and ends with something else, or is empty.
  lemma TrimIsSnug(s: string)
    ensures Trim(s) == "" || Snug(Trim(s))
  {
    var t := TrimStart(s);
    TrimEndDrops(t);
  }

  lemma {:induction false} TrimPadded(pad: string, s: string)
    requires Blank(pad) && Snug(s)
    ensures TrimStart(pad + s) == s && Trim(pad + s) == s
  {
    if pad == "" {
      assert pad + s == s;
    } else {
      assert (pad + s)[1..] == pad[1..] + s;
      TrimPadded(pad[1..], s);
    }
  }

  lemma {:induction false} TrimEndPadded(s: string, pad: string)
    requires Snug(s) && Blank(pad)
    ensures TrimEnd(s + pad) == s
    decreases |pad|
  {
    if pad == "" {
      assert s + pad == s;
    } else {
      BlankButLast(pad);
      assert (s + pad)[..|s + pad| - 1] == s + pad[..|pad| - 1];
      TrimEndPadded(s, pad[..|pad| - 1]);
    }
  }

  lemma {:induction false} BlankButLast(pad: string)
    requires Blank(pad) && pad != ""
    ensures Blank(pad[..|pad| - 1]) && IsSpace(pad[|pad| - 1])
  {
    if |pad| > 1 {
      BlankButLast(pad[1..]);
      assert pad[..|pad| - 1][1..] == pad[1..][..|pad| - 2];
    }
  }

  // Trimming takes off exactly the whitespace around a text that has none at its ends.
  lemma TrimSurrounded(before: string, s: string, after: string)
    requires Blank(before) && Snug(s) && Blank(after)
    ensures Trim(before + s + after) == s
  {
    assert TrimStart(s + after) == s + after by { assert (s + after)[0] == s[0]; }
    hide IsSpace, Blank, TrimStart, TrimEnd, Snug;
    TrimPad(before, s + after);
    assert before + s + after == before + (s + after);
    TrimEndPadded(s, after);
  }

  function Spaces(n: nat): (s: string)
    ensures |s| == n && Blank(s)
  {
    if n == 0 then "" else " " + Spaces(n - 1)
  }

  lemma {:induction false} TrimPad(pad: string, s: string)
    requires Blank(pad)
    ensures TrimStart(pad + s) == TrimStart(s) && Trim(pad + s) == Trim(s)
  {
    if pad == "" {
      assert pad + s == s;
    } else {
      assert (pad + s)[1..] == pad[1..] + s;
      TrimPad(pad[1..], s);
    }
  }

  // Text with something in it still has something in it when more follows.
  lemma {:induction false} TrimExtend(s: string, more: string)
    requires Trim(s) != ""
    ensures Trim(s + more) != ""
  {
    if IsSpace(s[0]) {
      assert (s + more)[1..] == s[1..] + more;
      TrimExtend(s[1..], more);
    } else {
      TrimNonBlank(s + more);
    }
  }

  lemma {:induction false} TrimNonBlank(s: string)
    requires s != "" && !IsSpace(s[0])
    ensures Trim(s) != ""
  {
    if IsSpace(s[|s| - 1]) { TrimNonBlank(s[..|s| - 1]); }
  }

  predicate StartsWith(s: string, p: string) {
    |p| <= |s| && s[..|p|] == p
  }

  // String.prototype.slice(k) for a non-negative k.
  function SliceFrom(s: string, k: nat): string {
    if k <= |s| then s[k..] else ""
  }

  // indexOf for one character: the first occurrence, or -1.
  function IndexOf(s: string, c: char): (i: int)
    ensures -1 <= i < |s|
    ensures i >= 0 ==> s[i] == c && forall k :: 0 <= k < i ==> s[k] != c
    ensures i < 0 ==> c !in s
  {
    if s == "" then -1
    else if s[0] == c then 0
    else var r := IndexOf(s[1..], c); if r < 0 then -1 else r + 1
  }

  predicate SepFree(parts: seq<string>, sep: char) {
    forall p <- parts :: sep !in p
  }

  // split() on one character: never empty, and no part contains the separator.
  function Split(s: string, sep: char): (parts: seq<string>)
    ensures |parts| >= 1 && SepFree(parts, sep)
  {
    var i := IndexOf(s, sep);
    if i < 0 then [s]
    else
      var rest := Split(s[i + 1..], sep);
      assert sep !in s[..i];
      [s[..i]] + rest
  }

  function Join(parts: seq<string>, sep: string): string {
    if parts == [] then "" else if |parts| == 1 then parts[0] else parts[0] + sep + Join(parts[1..], sep)
  }

  lemma {:induction false} SplitHead(a: string, b: string, sep: char)
    requires sep !in a
    ensures IndexOf(a + [sep] + b, sep) == |a|
    ensures Split(a + [sep] + b, sep) == [a] + Split(b, sep)
  {
    var s := a + [sep] + b;
    assert s[|a|] == sep && forall k :: 0 <= k < |a| ==> s[k] == a[k];
    assert s[..|a|] == a && s[|a| + 1..] == b;
  }

  // Splitting a joined list of separator-free parts gives the parts back.
  lemma {:induction false} SplitJoin(parts: seq<string>, sep: char)
    requires parts != [] && SepFree(parts, sep)
    ensures Split(Join(parts, [sep]), sep) == parts
    decreases |parts|
  {
    if |parts| == 1 {
      assert parts[0] in parts;
    } else {
      assert parts[0] in parts && parts == [parts[0]] + parts[1..];
      SplitJoin(parts[1..], sep);
      SplitHead(parts[0], Join(parts[1..], [sep]), sep);
    }
  }

  // And the other way round: joining a split gives the text back.
  lemma {:induction false} JoinSplit(s: string, sep: char)
    ensures Join(Split(s, sep), [sep]) == s
    decreases |s|
  {
    var i := IndexOf(s, sep);
    if i >= 0 {
      var rest := Split(s[i + 1..], sep);
      JoinSplit(s[i + 1..], sep);
      assert ([s[..i]] + rest)[1..] == rest;
      assert s == s[..i] + [sep] + s[i + 1..];
    }
  }

  // ---------------------------------------------------------------- nothing but white space

  lemma TrimNothing(s: string)
    ensures Trim(s) == "" <==> forall c <- s :: IsSpace(c)
  {
    hide IsSpace;
    var t := TrimStart(s);
    StartNothing(s);
    if t != "" {
      assert t[0] == s[|s| - |t|] by { TrimStartDrops(s); }
      TrimEndDrops(t);
      hide TrimEnd, TrimStart;
      if TrimEnd(t) == "" { AllBlank(t); }
    }
  }

  lemma {:induction false} StartNothing(s: string)
    ensures TrimStart(s) == "" <==> forall c <- s :: IsSpace(c)
  {
    hide IsSpace;
    if s != "" {
      StartNothing(s[1..]);
      assert s == [s[0]] + s[1..];
    }
  }

  lemma {:induction false} AllBlank(s: string)
    ensures Blank(s) <==> forall c <- s :: IsSpace(c)
  {
    hide IsSpace;
    if s != "" {
      AllBlank(s[1..]);
      assert s == [s[0]] + s[1..];
    }
  }
}
