/**
 * `toEpoxyCharSequence` and `toMessageTextEpoxyCharSequence` from
 * library/core-utils epoxy/charsequence/Extensions.kt: wrap a message text for
 * Epoxy, dropping one trailing newline and appending NARROW NO-BREAK SPACE (U+202F).
 */
module MessageText {

  const NarrowNoBreakSpace: char := '\U{202F}'

  /** `EpoxyCharSequence`: a wrapper around the text. */
  datatype EpoxyCharSequence = EpoxyCharSequence(charSequence: string)

  /** `toEpoxyCharSequence`. */
  function ToEpoxyCharSequence(s: string): (r: EpoxyCharSequence)
    ensures r.charSequence == s
  {
    EpoxyCharSequence(s)
  }

  predicate EndsWithNewline(s: string) { |s| > 0 && s[|s| - 1] == '\n' }

  /** `toMessageTextEpoxyCharSequence`, reassigning the local `m` as the source does. */
  method ToMessageTextEpoxyCharSequence(s: string) returns (r: EpoxyCharSequence)
    ensures |s| == 0 ==> r.charSequence == s
    ensures |s| > 0 ==>
      var t := r.charSequence;
      && |t| == |s| - (if EndsWithNewline(s) then 1 else 0) + 1
      && t[|t| - 1] == NarrowNoBreakSpace
      && t[..|t| - 1] == s[..|t| - 1]
      && (EndsWithNewline(t[..|t| - 1]) <==> |s| >= 2 && s[|s| - 2..] == "\n\n")
  {
    var m := s;
    if |m| > 0 {
      if m[|m| - 1] == '\n' {
        m := m[..|m| - 1];
      }
      m := m + [NarrowNoBreakSpace];
    }
    r := ToEpoxyCharSequence(m);
  }

  /** The text "a\n\n" keeps one of its two trailing newlines. */
  method OneNewlineRemoved() returns (r: EpoxyCharSequence)
    ensures r.charSequence == "a\n" + [NarrowNoBreakSpace]
  {
    r := ToMessageTextEpoxyCharSequence("a\n\n");
    assert |r.charSequence| == 3;
  }
}
