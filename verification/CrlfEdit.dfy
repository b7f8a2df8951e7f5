/**
 The edit preview of the diff editor: oldText is searched in the text with CRLF
 read as LF, and the match is mapped back to the original text by two cursor
 loops, so that untouched lines keep their line endings.
*/
module CrlfEdit {
  import opened Sequences

  const NOT_FOUND := "\n// [edit_file: old_text not found in current file]\n"

  predicate CrlfAt(s: string, i: nat) {
    i + 1 < |s| && s[i] == '\r' && s[i + 1] == '\n'
  }

  /** s.replace(/\r\n/g, '\n') */
  function Normalize(s: string): string {
    if s == "" then ""
    else if CrlfAt(s, 0) then ['\n'] + Normalize(s[2..])
    else [s[0]] + Normalize(s[1..])
  }

  /** i is not between the two characters of a CRLF. */
  predicate Boundary(s: string, i: nat) {
    i <= |s| && (i > 0 ==> !CrlfAt(s, i - 1))
  }

  predicate MatchAt(s: string, t: string, i: nat) {
    i + |t| <= |s| && s[i..i + |t|] == t
  }

  /** s.indexOf(t, from), or |s| + 1 when there is none. */
  function IndexFrom(s: string, t: string, from: nat): (i: nat)
    requires from <= |s| + 1
    ensures from <= i <= |s| + 1
    ensures i <= |s| ==> MatchAt(s, t, i)
    ensures forall j :: from <= j < i && j <= |s| ==> !MatchAt(s, t, j)
    decreases |s| + 1 - from
  {
    if from > |s| || MatchAt(s, t, from) then from else IndexFrom(s, t, from + 1)
  }

  // ----- normalising at and across cuts ----------------------------------------------

  /** Joining a and b makes a new CRLF. */
  predicate Seam(a: string, b: string) {
    a != "" && b != "" && a[|a| - 1] == '\r' && b[0] == '\n'
  }

  lemma CrlfStep(a: string, b: string)
    requires CrlfAt(a, 0)
    ensures Normalize(a + b) == ['\n'] + Normalize(a[2..] + b) && Normalize(a) == ['\n'] + Normalize(a[2..])
    ensures Seam(a, b) <==> Seam(a[2..], b)
  {
    assert (a + b)[2..] == a[2..] + b;
  }

  lemma PlainStep(a: string, b: string)
    requires |a| >= 2 && !CrlfAt(a, 0)
    ensures Normalize(a + b) == [a[0]] + Normalize(a[1..] + b) && Normalize(a) == [a[0]] + Normalize(a[1..])
    ensures Seam(a, b) <==> Seam(a[1..], b)
  {
    assert (a + b)[1..] == a[1..] + b;
  }

  lemma CrlfIsLong(a: string)
    ensures CrlfAt(a, 0) ==> |a| >= 2
  {
  }

  lemma OneCharacter(a: string, b: string)
    requires |a| == 1
    ensures !Seam(a, b) ==> Normalize(a + b) == Normalize(a) + Normalize(b)
    ensures Seam(a, b) ==> |Normalize(a + b)| == |Normalize(a)| + |Normalize(b)| - 1
  {
    assert (a + b)[1..] == b && a[1..] == "";
    if Seam(a, b) {
      assert (a + b)[2..] == b[1..];
    }
  }

  lemma {:induction false} NormalizeConcat(a: string, b: string)
    ensures !Seam(a, b) ==> Normalize(a + b) == Normalize(a) + Normalize(b)
    ensures Seam(a, b) ==> |Normalize(a + b)| == |Normalize(a)| + |Normalize(b)| - 1
    decreases |a|
  {
    if a == "" {
      assert a + b == b && Normalize(a) + Normalize(b) == Normalize(b);
    } else {
      hide Normalize, Seam, CrlfAt;
      CrlfIsLong(a);
      if CrlfAt(a, 0) {
        CrlfStep(a, b);
        NormalizeConcat(a[2..], b);
        Assoc(['\n'], Normalize(a[2..]), Normalize(b));
      } else if |a| == 1 {
        OneCharacter(a, b);
      } else {
        PlainStep(a, b);
        NormalizeConcat(a[1..], b);
        Assoc([a[0]], Normalize(a[1..]), Normalize(b));
      }
    }
  }

  lemma NormalizeAtBoundary(s: string, i: nat)
    requires Boundary(s, i)
    ensures Normalize(s) == Normalize(s[..i]) + Normalize(s[i..])
  {
    assert s == s[..i] + s[i..];
    NormalizeConcat(s[..i], s[i..]);
  }

  /** One token further, in the original and in the normalised text. */
  lemma NextToken(s: string, i: nat)
    requires Boundary(s, i) && i < |s|
    ensures var j := if CrlfAt(s, i) then i + 2 else i + 1;
      j <= |s| && Boundary(s, j) && |Normalize(s[..j])| == |Normalize(s[..i])| + 1
  {
    var j := if CrlfAt(s, i) then i + 2 else i + 1;
    assert Boundary(s[..j], i);
    NormalizeAtBoundary(s[..j], i);
    assert s[..j][..i] == s[..i];
    var token := s[..j][i..];
    assert token == if CrlfAt(s, i) then "\r\n" else [s[i]];
    assert Normalize(token[1..]) == if CrlfAt(s, i) then "\n" else "";
    assert token[|token|..] == "";
  }

  // ----- the code ----------------------------------------------------------------------

  /** The cut at c reads as the first k characters of the normalised text. */
  ghost predicate CutsAt(s: string, c: nat, k: nat) {
    Boundary(s, c) && k <= |Normalize(s)| && Normalize(s[..c]) == Normalize(s)[..k] && Normalize(s[c..]) == Normalize(s)[k..]
  }

  lemma CutFromLength(s: string, c: nat, k: nat)
    requires Boundary(s, c) && |Normalize(s[..c])| == k
    ensures CutsAt(s, c, k)
  {
    NormalizeAtBoundary(s, c);
  }

  /** The cursor loop, shared by both searches: from a cut at origIdx to the cut at target. */
  method Advance(original: string, orig0: nat, norm0: nat, target: nat) returns (origIdx: nat)
    requires CutsAt(original, orig0, norm0) && norm0 <= target <= |Normalize(original)|
    ensures orig0 <= origIdx && CutsAt(original, origIdx, target)
  {
    hide Normalize;
    origIdx := orig0;
    var normIdx := norm0;
    while normIdx < target
      invariant orig0 <= origIdx && normIdx <= target
      invariant Boundary(original, origIdx) && |Normalize(original[..origIdx])| == normIdx
    {
      AllConsumed(original, origIdx);
      NextToken(original, origIdx);
      if CrlfAt(original, origIdx) {
        origIdx := origIdx + 2;
        normIdx := normIdx + 1;
      } else {
        origIdx := origIdx + 1;
        normIdx := normIdx + 1;
      }
    }
    CutFromLength(original, origIdx, target);
  }

  lemma AllConsumed(s: string, i: nat)
    requires i <= |s| && |Normalize(s[..i])| < |Normalize(s)|
    ensures i < |s|
  {
    assert s[..|s|] == s;
  }

  ghost predicate Replaces(original: string, oldText: string, start: nat, end: nat) {
    var text, old' := Normalize(original), Normalize(oldText);
    var idx := IndexFrom(text, old', 0);
    && idx <= |text|
    && start <= end <= |original|
    && CutsAt(original, start, idx)
    && CutsAt(original, end, idx + |old'|)
  }

  /** The original with one piece replaced: the one the first match maps to. */
  ghost predicate IsReplacement(original: string, oldText: string, newText: string, modified: string) {
    exists start: nat, end: nat :: Replaces(original, oldText, start, end) && modified == original[..start] + newText + original[end..]
  }

  method ProposeEdit(original: string, oldText: string, newText: string) returns (modified: string)
    ensures var text, old' := Normalize(original), Normalize(oldText);
      if old' != "" && IndexFrom(text, old', 0) <= |text| then IsReplacement(original, oldText, newText, modified)
      else modified == original + "\n// [edit_file: old_text not found in current file]\n" + newText
  {
    var normalizedOriginal := Normalize(original);
    var normalizedOldText := Normalize(oldText);
    var idx := IndexFrom(normalizedOriginal, normalizedOldText, 0);
    if idx <= |normalizedOriginal| && |normalizedOldText| > 0 {
      CutFromLength(original, 0, 0);
      var origIdx := Advance(original, 0, 0, idx);
      var origEnd := Advance(original, origIdx, idx, idx + |normalizedOldText|);
      modified := original[..origIdx] + newText + original[origEnd..];
      assert Replaces(original, oldText, origIdx, origEnd);
    } else {
      modified := original + NOT_FOUND + newText;
    }
  }

  /** There is only one cut that reads as k characters, so the replaced piece is determined. */
  lemma CutIsUnique(s: string, c: nat, d: nat, k: nat)
    requires CutsAt(s, c, k) && CutsAt(s, d, k)
    ensures c == d
  {
    if c < d {
      LongerCutReadsMore(s, c, d);
    } else if d < c {
      LongerCutReadsMore(s, d, c);
    }
  }

  lemma LongerCutReadsMore(s: string, c: nat, d: nat)
    requires Boundary(s, c) && Boundary(s, d) && c < d
    ensures |Normalize(s[..c])| < |Normalize(s[..d])|
  {
    NextToken(s, c);
    var j := if CrlfAt(s, c) then c + 2 else c + 1;
    assert s[..d] == s[..c] + s[c..d];
    assert s[c..d] != "";
    NormalizeConcat(s[..c], s[c..d]);
    NormalizeNonEmpty(s[c..d]);
  }

  lemma NormalizeNonEmpty(s: string)
    requires s != ""
    ensures Normalize(s) != ""
  {
  }

  // ----- what the preview means ------------------------------------------------------------

  /** The replaced piece reads as oldText, and no earlier piece of the text does. */
  lemma ReplacedPieceIsFirstMatch(original: string, oldText: string, start: nat, end: nat)
    requires Replaces(original, oldText, start, end)
    ensures Normalize(original[start..end]) == Normalize(oldText)
    ensures forall j :: 0 <= j < |Normalize(original[..start])| ==> !MatchAt(Normalize(original), Normalize(oldText), j)
  {
    var text := Normalize(original);
    var idx := IndexFrom(text, Normalize(oldText), 0);
    assert Boundary(original[..end], start);
    NormalizeAtBoundary(original[..end], start);
    assert original[..end][..start] == original[..start] && original[..end][start..] == original[start..end];
    assert text[..idx + |Normalize(oldText)|] == text[..idx] + text[idx..idx + |Normalize(oldText)|];
  }

  /** The inserted text makes no CRLF with its neighbours. */
  predicate NoSeam(before: string, newText: string, after: string) {
    !Seam(before, newText + after) && !Seam(before + newText, after)
  }

  /**
   The proposed file reads as the normalised file with its first match replaced
   if and only if the new text forms no new CRLF at either end.
  */
  lemma ProposalReadsAsReplacement(original: string, oldText: string, newText: string, start: nat, end: nat)
    requires Replaces(original, oldText, start, end)
    ensures var text := Normalize(original);
      var idx := IndexFrom(text, Normalize(oldText), 0);
      Normalize(original[..start] + newText + original[end..])
        == text[..idx] + Normalize(newText) + text[idx + |Normalize(oldText)|..]
      <==> NoSeam(original[..start], newText, original[end..])
  {
    hide Normalize, IndexFrom;
    ThreePieces(original[..start], newText, original[end..]);
  }

  lemma ThreePieces(before: string, newText: string, after: string)
    ensures Normalize(before + newText + after) == Normalize(before) + Normalize(newText) + Normalize(after)
      <==> NoSeam(before, newText, after)
  {
    hide Normalize;
    NormalizeConcat(before + newText, after);
    NormalizeConcat(before, newText);
    if newText == "" {
      assert before + newText == before && newText + after == after;
      NormalizeEmpty();
    }
  }

  lemma NormalizeEmpty()
    ensures Normalize("") == ""
  {
  }

  /** The condition is needed: inserting a line feed after a lone carriage return loses it. */
  lemma SeamExample()
    ensures var original, oldText, newText := "\rX", "X", "\n";
      Replaces(original, oldText, 1, 2) && Normalize(original[..1] + newText + original[2..]) == "\n"
  {
    var original := "\rX";
    assert original[1..] == "X" && "X"[1..] == "" && original[..1] == "\r" && original[..2] == original && original[2..] == "";
    assert "\r"[1..] == "";
    assert Normalize("") == "" && Normalize("X") == "X" && Normalize("\r") == "\r" && Normalize(original) == "\rX";
    assert !MatchAt("\rX", "X", 0);
    assert MatchAt("\rX", "X", 1);
    assert IndexFrom("\rX", "X", 0) == 1;
    assert original[..1] + "\n" + original[2..] == "\r\n";
    assert "\r\n"[2..] == "";
  }
}
