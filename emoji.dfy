/**
 * `CharSequence.splitEmoji` from core/utils/Emoji.kt: cut a UTF-16 string into
 * the pieces a user sees, pairing a high surrogate with the low surrogate that
 * follows it (section 2.2 of RFC 2781) and dropping LEFT-TO-RIGHT MARK (U+200E).
 */
module Emoji {

  /** One UTF-16 code unit, as a Kotlin `Char`. */
  newtype CodeUnit = i: int | 0 <= i < 0x1_0000

  const LeftToRightMark: CodeUnit := 0x200E

  predicate IsHighSurrogate(c: CodeUnit) { 0xD800 <= c <= 0xDBFF }

  predicate IsLowSurrogate(c: CodeUnit) { 0xDC00 <= c <= 0xDFFF }

  /** The reference definition: one step of the loop per recursive call. */
  function Split(s: seq<CodeUnit>): (r: seq<seq<CodeUnit>>)
    ensures |r| <= |s|
    decreases |s|
  {
    if |s| == 0 then []
    else if s[0] == LeftToRightMark then Split(s[1..])
    else if IsHighSurrogate(s[0]) && 1 < |s| && IsLowSurrogate(s[1]) then [s[..2]] + Split(s[2..])
    else [s[..1]] + Split(s[1..])
  }

  /** Concatenation of all pieces. */
  function Flatten(parts: seq<seq<CodeUnit>>): seq<CodeUnit>
  {
    if |parts| == 0 then [] else parts[0] + Flatten(parts[1..])
  }

  /** The string with every U+200E removed. */
  function RemoveLeftToRightMarks(s: seq<CodeUnit>): seq<CodeUnit>
  {
    if |s| == 0 then []
    else if s[0] == LeftToRightMark then RemoveLeftToRightMarks(s[1..])
    else [s[0]] + RemoveLeftToRightMarks(s[1..])
  }

  /** A piece is a lone code unit other than U+200E, or a high/low surrogate pair. */
  predicate IsPiece(p: seq<CodeUnit>)
  {
    || (|p| == 1 && p[0] != LeftToRightMark)
    || (|p| == 2 && IsHighSurrogate(p[0]) && IsLowSurrogate(p[1]))
  }

  /** The loop of `splitEmoji`, proved to compute `Split`. */
  method SplitEmoji(s: seq<CodeUnit>) returns (result: seq<seq<CodeUnit>>)
    ensures result == Split(s)
    ensures Flatten(result) == RemoveLeftToRightMarks(s)
    ensures forall k :: 0 <= k < |result| ==> IsPiece(result[k])
    ensures |result| <= |s|
  {
    result := [];
    var index := 0;
    while index < |s|
      invariant 0 <= index <= |s|
      invariant result + Split(s[index..]) == Split(s)
    {
      var firstChar := s[index];
      SplitUnfold(s, index);
      if firstChar == LeftToRightMark {
        // left-to-right mark: nothing is added
        StepKeepsSplit(s, index, index + 1, result, []);
      } else if IsHighSurrogate(firstChar) && index + 1 < |s| {
        var secondChar := s[index + 1];
        if IsLowSurrogate(secondChar) {
          StepKeepsSplit(s, index, index + 2, result, [[firstChar, secondChar]]);
          result := result + [[firstChar, secondChar]];
          index := index + 1;
        } else {
          StepKeepsSplit(s, index, index + 1, result, [[firstChar]]);
          result := result + [[firstChar]];
        }
      } else {
        StepKeepsSplit(s, index, index + 1, result, [[firstChar]]);
        result := result + [[firstChar]];
      }
      index := index + 1;
    }
    assert s[|s|..] == [];
    SplitRoundTrip(s);
    SplitPieces(s);
  }

  /** The loop invariant survives emitting `pieces` and moving from `i` to `j`. */
  lemma StepKeepsSplit(s: seq<CodeUnit>, i: nat, j: nat, done: seq<seq<CodeUnit>>, pieces: seq<seq<CodeUnit>>)
    requires i <= j <= |s|
    requires done + Split(s[i..]) == Split(s)
    requires Split(s[i..]) == pieces + Split(s[j..])
    ensures (done + pieces) + Split(s[j..]) == Split(s)
  {
    assert (done + pieces) + Split(s[j..]) == done + (pieces + Split(s[j..]));
  }

  /** One step of `Split` at position `i` of `s`. */
  lemma SplitUnfold(s: seq<CodeUnit>, i: nat)
    requires i < |s|
    ensures Split(s[i..]) ==
      if s[i] == LeftToRightMark then Split(s[i + 1..])
      else if IsHighSurrogate(s[i]) && i + 1 < |s| && IsLowSurrogate(s[i + 1]) then [[s[i], s[i + 1]]] + Split(s[i + 2..])
      else [[s[i]]] + Split(s[i + 1..])
  {
    var t := s[i..];
    assert t[0] == s[i];
    assert t[1..] == s[i + 1..];
    if 1 < |t| {
      assert t[1] == s[i + 1];
      assert t[2..] == s[i + 2..];
      assert t[..2] == [s[i], s[i + 1]];
    }
    assert t[..1] == [s[i]];
  }

  /** Joining the pieces gives back the input without its U+200E marks. */
  lemma {:induction false} SplitRoundTrip(s: seq<CodeUnit>)
    ensures Flatten(Split(s)) == RemoveLeftToRightMarks(s)
    decreases |s|
  {
    if |s| == 0 {
    } else if s[0] == LeftToRightMark {
      SplitRoundTrip(s[1..]);
    } else if IsHighSurrogate(s[0]) && 1 < |s| && IsLowSurrogate(s[1]) {
      var rest := s[2..];
      SplitRoundTrip(rest);
      FlattenCons(s[..2], Split(rest));
      assert s[1..][1..] == rest;
      assert RemoveLeftToRightMarks(s[1..]) == [s[1]] + RemoveLeftToRightMarks(rest);
      assert s[..2] == [s[0], s[1]];
    } else {
      SplitRoundTrip(s[1..]);
      FlattenCons(s[..1], Split(s[1..]));
      assert s[..1] == [s[0]];
    }
  }

  /** One step of `RemoveLeftToRightMarks` at position `i` of `s`. */
  lemma RemoveMarksUnfold(s: seq<CodeUnit>, i: nat)
    requires i < |s|
    ensures RemoveLeftToRightMarks(s[i..]) ==
      if s[i] == LeftToRightMark then RemoveLeftToRightMarks(s[i + 1..])
      else [s[i]] + RemoveLeftToRightMarks(s[i + 1..])
  {
    var t := s[i..];
    assert t[0] == s[i];
    assert t[1..] == s[i + 1..];
  }

  lemma FlattenCons(p: seq<CodeUnit>, parts: seq<seq<CodeUnit>>)
    ensures Flatten([p] + parts) == p + Flatten(parts)
  {
    assert ([p] + parts)[1..] == parts;
  }

  /** Every piece has one or two units, is never U+200E, and pairs only surrogates;
      there are never more pieces than input units. */
  lemma {:induction false} SplitPieces(s: seq<CodeUnit>)
    ensures forall k :: 0 <= k < |Split(s)| ==> IsPiece(Split(s)[k])
    ensures |Split(s)| <= |s|
    decreases |s|
  {
    if |s| == 0 {
    } else if s[0] == LeftToRightMark {
      SplitPieces(s[1..]);
    } else if IsHighSurrogate(s[0]) && 1 < |s| && IsLowSurrogate(s[1]) {
      SplitPieces(s[2..]);
    } else {
      SplitPieces(s[1..]);
    }
  }

  /** One step of `Split` on the range `s[i..j]`. */
  lemma SplitUnfoldRange(s: seq<CodeUnit>, i: nat, j: nat)
    requires i < j <= |s|
    ensures Split(s[i..j]) ==
      if s[i] == LeftToRightMark then Split(s[i + 1..j])
      else if IsHighSurrogate(s[i]) && i + 1 < j && IsLowSurrogate(s[i + 1]) then [[s[i], s[i + 1]]] + Split(s[i + 2..j])
      else [[s[i]]] + Split(s[i + 1..j])
  {
    var t := s[i..j];
    assert t[0] == s[i];
    assert t[1..] == s[i + 1..j];
    if i + 1 < j {
      assert t[1] == s[i + 1];
      assert t[2..] == s[i + 2..j];
      assert t[..2] == [s[i], s[i + 1]];
    }
    assert t[..1] == [s[i]];
  }

  /** A position `k` is a piece boundary of every range around it unless it splits a
      high surrogate from the low surrogate right after it. */
  lemma {:induction false} SplitAt(s: seq<CodeUnit>, i: nat, k: nat, j: nat)
    requires i <= k <= j <= |s|
    requires k == 0 || k == j || !IsHighSurrogate(s[k - 1]) || !IsLowSurrogate(s[k])
    ensures Split(s[i..j]) == Split(s[i..k]) + Split(s[k..j])
    decreases k - i
  {
    if i == k {
      assert s[i..k] == [];
    } else {
      SplitUnfoldRange(s, i, j);
      SplitUnfoldRange(s, i, k);
      var pair := IsHighSurrogate(s[i]) && i + 1 < k && IsLowSurrogate(s[i + 1]);
      var n := if s[i] != LeftToRightMark && pair then 2 else 1;
      var pieces := if s[i] == LeftToRightMark then [] else if pair then [[s[i], s[i + 1]]] else [[s[i]]];
      SplitAt(s, i + n, k, j);
      StepAssoc(pieces, Split(s[i + n..k]), Split(s[k..j]));
    }
  }

  lemma StepAssoc(a: seq<seq<CodeUnit>>, b: seq<seq<CodeUnit>>, c: seq<seq<CodeUnit>>)
    ensures a + (b + c) == (a + b) + c
  {
  }

  /** When the prefix `p` does not end in a high surrogate, it is split on its own:
      the cut between `p` and `q` is a piece boundary. */
  lemma SplitAppend(p: seq<CodeUnit>, q: seq<CodeUnit>)
    requires |p| == 0 || !IsHighSurrogate(p[|p| - 1])
    ensures Split(p + q) == Split(p) + Split(q)
  {
    var s := p + q;
    SplitAt(s, 0, |p|, |s|);
    assert s[0..|s|] == s && s[0..|p|] == p && s[|p|..|s|] == q;
  }

  /** The cut before a suffix that starts with a high surrogate is a piece boundary,
      whatever the prefix ends in. */
  lemma SplitCutBefore(p: seq<CodeUnit>, r: seq<CodeUnit>)
    requires 0 < |r| && IsHighSurrogate(r[0])
    ensures Split(p + r) == Split(p) + Split(r)
  {
    var s := p + r;
    assert s[|p|] == r[0];
    SplitAt(s, 0, |p|, |s|);
    assert s[0..|s|] == s && s[0..|p|] == p && s[|p|..|s|] == r;
  }

  /** A high surrogate directly followed by a low surrogate becomes one two-unit piece,
      whatever comes before it. */
  lemma SplitSurrogatePair(p: seq<CodeUnit>, high: CodeUnit, low: CodeUnit, q: seq<CodeUnit>)
    requires IsHighSurrogate(high) && IsLowSurrogate(low)
    ensures Split(p + [high, low] + q) == Split(p) + [[high, low]] + Split(q)
  {
    var r := [high, low] + q;
    SplitUnfoldRange(r, 0, |r|);
    assert r[0] == high && r[1] == low;
    assert r[0..|r|] == r && r[2..|r|] == q;
    assert Split(r) == [[high, low]] + Split(q);
    SplitCutBefore(p, r);
    assert p + [high, low] + q == p + r;
    StepAssoc(Split(p), [[high, low]], Split(q));
  }

  /** A high surrogate that is last, or not followed by a low surrogate, becomes a
      one-unit piece and the next unit is split on its own, whatever comes before it. */
  lemma SplitLoneHighSurrogate(p: seq<CodeUnit>, high: CodeUnit, q: seq<CodeUnit>)
    requires IsHighSurrogate(high)
    requires |q| == 0 || !IsLowSurrogate(q[0])
    ensures Split(p + [high] + q) == Split(p) + [[high]] + Split(q)
  {
    var r := [high] + q;
    SplitLeadingLone(high, q);
    SplitCutBefore(p, r);
    assert p + [high] + q == p + r;
    StepAssoc(Split(p), [[high]], Split(q));
  }

  lemma SplitLeadingLone(high: CodeUnit, q: seq<CodeUnit>)
    requires IsHighSurrogate(high)
    requires |q| == 0 || !IsLowSurrogate(q[0])
    ensures Split([high] + q) == [[high]] + Split(q)
  {
    var r := [high] + q;
    SplitUnfoldRange(r, 0, |r|);
    assert r[0] == high;
    assert 1 < |r| ==> r[1] == q[0];
    assert r[0..|r|] == r && r[1..|r|] == q;
  }

  /** A mark between the two halves of a pair keeps them apart: the pieces are not
      those of the string with its marks removed. */
  lemma MarkSeparatesSurrogates()
    ensures Split([0xD83D, LeftToRightMark, 0xDE00]) == [[0xD83D], [0xDE00]]
    ensures Split(RemoveLeftToRightMarks([0xD83D, LeftToRightMark, 0xDE00])) == [[0xD83D, 0xDE00]]
  {
    var s: seq<CodeUnit> := [0xD83D, LeftToRightMark, 0xDE00];
    SplitUnfold(s, 2);
    assert s[3..] == [];
    SplitUnfold(s, 1);
    SplitUnfold(s, 0);
    assert s[0..] == s;
    RemoveMarksUnfold(s, 2);
    RemoveMarksUnfold(s, 1);
    RemoveMarksUnfold(s, 0);
    var t: seq<CodeUnit> := [0xD83D, 0xDE00];
    assert RemoveLeftToRightMarks(s) == t;
    SplitUnfold(t, 0);
    assert t[0..] == t && t[2..] == [];
  }
}
