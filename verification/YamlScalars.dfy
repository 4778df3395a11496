/** Scalars, comments and keys of the YAML subset, by their characters. */
module YamlScalars {
  import opened Text
  import opened YamlSubset

  // ---------------------------------------------------------------- comments

  // A '#' outside double quotes that starts the line or follows a blank or tab.
  predicate StartsComment(s: string, k: nat) {
    && k < |s| && s[k] == '#' && multiset(s[..k])['"'] % 2 == 0
    && (k > 0 ==> s[k - 1] in {' ', '\t'})
  }

  // Stripping keeps what comes before the first comment, and everything when there is none.
  lemma StripExact(s: string)
    ensures var n := |StripComment(s)|;
            && StripComment(s) == s[..n] && (n < |s| ==> StartsComment(s, n))
            && forall k :: 0 <= k < n ==> !StartsComment(s, k)
  {
    assert s[..0] == [];
    CommentFrom(s, 0, false);
  }

  lemma {:induction false} CommentFrom(s: string, i: nat, inDouble: bool)
    requires i <= |s| && inDouble == (multiset(s[..i])['"'] % 2 == 1)
    ensures var n := CommentStart(s, i, inDouble);
            && (n < |s| ==> StartsComment(s, n)) && forall k :: i <= k < n ==> !StartsComment(s, k)
    decreases |s| - i
  {
    if i < |s| {
      assert s[..i + 1] == s[..i] + [s[i]];
      assert StartsComment(s, i) <==> s[i] == '#' && !inDouble && (i == 0 || s[i - 1] == ' ' || s[i - 1] == '\t');
      if !StartsComment(s, i) {
        assert multiset(s[..i + 1])['"'] == multiset(s[..i])['"'] + if s[i] == '"' then 1 else 0;
        hide StartsComment;
        CommentFrom(s, i + 1, if s[i] == '"' then !inDouble else inDouble);
      }
    }
  }

  // ---------------------------------------------------------------- scalars

  // A scalar that is its own text.
  predicate PlainText(t: string) {
    && t != "" && t[0] !in {'"', '[', '{'}
    && forall k :: 0 <= k < |t| - 1 ==> !(t[k] == ':' && t[k + 1] == ' ')
  }

  // A scalar between two double quotes, with none inside.
  predicate QuotedText(t: string) {
    |t| >= 2 && t[0] == '"' && t[|t| - 1] == '"' && '"' !in t[1..|t| - 1]
  }

  // What a scalar spelling stands for.
  function Meaning(t: string): string {
    if QuotedText(t) then t[1..|t| - 1] else t
  }

  // A scalar spelling is accepted exactly when it is plain, quoted or empty, and read as what it stands for. The other
  // spellings fail at their line: an open quote, a quote inside quotes, or a flow collection.
  lemma ScalarExact(t: string, lineNo: nat)
    ensures t == "" || PlainText(t) || QuotedText(t) ==> ScalarOf(t, lineNo) == Success(Meaning(t))
    ensures !(t == "" || PlainText(t) || QuotedText(t)) ==>
              ScalarOf(t, lineNo) == Failure(if t[0] != '"' then FlowCollection(lineNo)
                                             else if |t| > 1 && t[|t| - 1] == '"' then QuoteInsideQuoted(lineNo)
                                             else UnterminatedQuote(lineNo))
  {
    if t != "" {
      assert t[..1] == [t[0]];
      if !StartsWith(t, "\"") && HasColonBlank(t) {
        var k :| 0 <= k < |t| - 1 && t[k] == ':' && t[k + 1] == ' ';
        assert !PlainText(t);
      }
    }
  }

  // ---------------------------------------------------------------- keys

  // An ASCII letter, digit, underscore, dot or dash, by its code.
  predicate KeyCode(c: int) {
    65 <= c <= 90 || 97 <= c <= 122 || 48 <= c <= 57 || c == 95 || c == 46 || c == 45
  }

  lemma KeyExact(key: string)
    ensures KeyOk(key) <==> key != "" && forall k :: 0 <= k < |key| ==> KeyCode(key[k] as int)
  {
    KeyCharsExact(key);
  }

  lemma {:induction false} KeyCharsExact(s: string)
    ensures AllKeyChars(s) <==> forall k :: 0 <= k < |s| ==> KeyCode(s[k] as int)
  {
    if s != "" {
      KeyCharExact(s[0]);
      var rest := s[1..];
      KeyCharsExact(rest);
      hide KeyCode, KeyChar;
      assert forall k :: 0 <= k < |rest| ==> rest[k] == s[k + 1];
      if AllKeyChars(s) {
        forall k | 0 <= k < |s| ensures KeyCode(s[k] as int) { if k > 0 { assert KeyCode(rest[k - 1] as int); } }
      } else if AllKeyChars(rest) {
        assert !KeyCode(s[0] as int);
      } else {
        var k :| 0 <= k < |rest| && !KeyCode(rest[k] as int);
        assert !KeyCode(s[k + 1] as int);
      }
    }
  }

  lemma KeyCharExact(c: char)
    ensures KeyChar(c) <==> KeyCode(c as int)
  {
  }
}
