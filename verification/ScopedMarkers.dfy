/** The marker pair of the generated proxy config.
 *
 * The lemmas about splicing hold for any two marker texts that are not empty, hold no newline and cannot overlap. This
 * module shows that the two texts of src/extensions/boundary.ts are such a pair: each starts with eight blanks and a
 * number sign, holds no other two blanks in a row, and they differ in their last word.
 */
module ScopedMarkers {
  import opened ScopedRegion

  const BEGIN: string := "        # bottega:scoped-authorizations begin"
  const END: string := "        # bottega:scoped-authorizations end"

  // Texts that start with eight blanks and a '#', have no two blanks in a row after those, end in no blank and
  // differ at some place both reach, cannot overlap.
  lemma NoOverlap(b: string, e: string, k: nat, d: nat)
    requires |b| > 9 && |e| > 9 && k < |b| && d < |b| && d < |e| && b[d] != e[d] && b[|b| - 1] != ' '
    requires b[8] == '#' && (forall j :: 0 <= j < 8 ==> e[j] == ' ')
    requires forall j :: 8 <= j < |b| - 1 ==> b[j] != ' ' || b[j + 1] != ' '
    ensures !Overlaps(b, e, k)
  {
    var n := if |b| - k < |e| then |b| - k else |e|;
    var at := if k == 0 then d else if k < 8 then 8 - k else 0;
    if Overlaps(b, e, k) {
      OverlapAt(b, e, k, at);
      if k >= 8 && k + 1 < |b| { OverlapAt(b, e, k, 1); }
    }
  }

  lemma OverlapAt(b: string, e: string, k: nat, at: nat)
    requires k + at < |b| && at < |e| && Overlaps(b, e, k)
    ensures b[k + at] == e[at]
  {
    var n := if |b| - k < |e| then |b| - k else |e|;
    assert b[k..k + n][at] == b[k + at] && e[..n][at] == e[at];
  }

  lemma BeginNoNewline()
    ensures '\n' !in BEGIN
  {
    BeginPieces();
    assert '\n' !in "        " && '\n' !in "# bottega:" && '\n' !in "scoped-auth" && '\n' !in "orizations ";
    assert '\n' !in "begin";
    NoneOf("        ", "# bottega:", "scoped-auth", "orizations ", "begin", '\n');
  }

  lemma EndNoNewline()
    ensures '\n' !in END
  {
    EndPieces();
    assert '\n' !in "        " && '\n' !in "# bottega:" && '\n' !in "scoped-auth" && '\n' !in "orizations ";
    assert '\n' !in "end";
    NoneOf("        ", "# bottega:", "scoped-auth", "orizations ", "end", '\n');
  }

  lemma BeginPieces()
    ensures BEGIN == "        " + "# bottega:" + "scoped-auth" + "orizations " + "begin"
  {
  }

  lemma EndPieces()
    ensures END == "        " + "# bottega:" + "scoped-auth" + "orizations " + "end"
  {
  }

  lemma NoneOf(p: string, q: string, r: string, s: string, t: string, c: char)
    requires c !in p && c !in q && c !in r && c !in s && c !in t
    ensures c !in p + q + r + s + t
  {
  }

  lemma BeginBlanks()
    ensures |BEGIN| == 45 && BEGIN[8] == '#' && BEGIN[40] == 'b' && BEGIN[44] == 'n'
    ensures forall j :: 8 <= j < 44 ==> BEGIN[j] != ' ' || BEGIN[j + 1] != ' '
  {
  }

  lemma EndBlanks()
    ensures |END| == 43 && END[40] == 'e' && forall j :: 0 <= j < 8 ==> END[j] == ' '
  {
    assert END[0] == END[1] == END[2] == END[3] == END[4] == END[5] == END[6] == END[7] == ' ';
  }

  lemma MarkersFrom(b: string, e: string)
    requires |b| == 45 && b[8] == '#' && b[40] == 'b' && b[44] == 'n' && '\n' !in b
    requires forall j :: 8 <= j < 44 ==> b[j] != ' ' || b[j + 1] != ' '
    requires |e| == 43 && e[40] == 'e' && '\n' !in e && forall j :: 0 <= j < 8 ==> e[j] == ' '
    ensures Markers(b, e)
  {
    forall k | 0 <= k < |b| ensures !Overlaps(b, e, k) { NoOverlap(b, e, k, 40); }
  }

  // The source's own markers qualify.
  lemma MarkersApply()
    ensures Markers(BEGIN, END)
  {
    BeginNoNewline();
    EndNoNewline();
    BeginBlanks();
    EndBlanks();
    MarkersFrom(BEGIN, END);
  }
}
