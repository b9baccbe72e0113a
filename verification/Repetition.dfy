/**
  The repeated-substring detector behind the verdict's pattern test.
 */
module Repetition {
  const LENGTH_CAP: nat := 48

  function Sub(text: string, i: nat, len: nat): (s: string)
    requires i + len <= |text|
    ensures |s| == len
  {
    text[i..i + len]
  }

  /** Some substring of length exactly `len` starts at two different places. */
  ghost predicate HasRepeat(text: string, len: nat) {
    exists i: nat, j: nat :: i < j && j + len <= |text| && Sub(text, i, len) == Sub(text, j, len)
  }

  /** What the detector is documented to decide: some substring at least `minLen` long occurs twice. */
  ghost predicate Repetitive(text: string, minLen: nat) {
    exists len: nat :: len >= minLen && HasRepeat(text, len)
  }

  /** A longer repeat contains a shorter one. */
  lemma ShorterRepeat(text: string, len: nat, shorter: nat)
    requires HasRepeat(text, len) && shorter <= len
    ensures HasRepeat(text, shorter)
  {
    var i: nat, j: nat :| i < j && j + len <= |text| && Sub(text, i, len) == Sub(text, j, len);
    assert Sub(text, i, shorter) == Sub(text, i, len)[..shorter];
    assert Sub(text, j, shorter) == Sub(text, j, len)[..shorter];
  }

  /** One length at a time: a set of the substrings already met. */
  method RepeatsAt(text: string, len: nat) returns (found: bool)
    requires len <= |text|
    ensures found <==> HasRepeat(text, len)
  {
    hide Sub;
    var seen: set<string> := {};
    for i := 0 to |text| - len + 1
      invariant forall s :: s in seen <==> exists m: nat :: m < i && m + len <= |text| && Sub(text, m, len) == s
      invariant forall a: nat, b: nat :: a < b < i && b + len <= |text| ==> Sub(text, a, len) != Sub(text, b, len)
    {
      var sub := Sub(text, i, len);
      if sub in seen {
        var m: nat :| m < i && m + len <= |text| && Sub(text, m, len) == sub;
        return true;
      }
      assert forall a: nat :: a < i && a + len <= |text| ==> Sub(text, a, len) != sub;
      seen := seen + {sub};
    }
    return false;
  }

  /** The detector, whose answer is exact on texts at least twice `minLen` long as long as
      `minLen` does not exceed the cap, and is no on every other text. */
  method LooksRepetitive(text: string, minLen: nat) returns (found: bool)
    ensures found == Detected(text, minLen)
  {
    var n := |text|;
    if n < minLen * 2 {
      return false;
    }
    var top := if n / 2 < LENGTH_CAP then n / 2 else LENGTH_CAP;
    var len := top;
    while len >= minLen
      invariant (len == top || minLen <= len + 1) && -1 <= len <= top
      invariant forall m: nat :: len < m <= top && minLen <= m ==> !HasRepeat(text, m)
    {
      var hit := RepeatsAt(text, len);
      if hit {
        ShorterRepeat(text, len, minLen);
        return true;
      }
      len := len - 1;
    }
    return false;
  }

  /** What the detector really decides. */
  ghost predicate Detected(text: string, minLen: nat) {
    |text| >= 2 * minLen && minLen <= LENGTH_CAP && HasRepeat(text, minLen)
  }

  /** The detector agrees with its documentation exactly when the text is long enough and the
      minimum within the cap, or there is no repeat to find. */
  lemma DetectorIsExact(text: string, minLen: nat)
    ensures Repetitive(text, minLen) <==> HasRepeat(text, minLen)
    ensures (Detected(text, minLen) <==> Repetitive(text, minLen)) <==>
            (|text| >= 2 * minLen && minLen <= LENGTH_CAP) || !HasRepeat(text, minLen)
  {
    if Repetitive(text, minLen) {
      var len: nat :| len >= minLen && HasRepeat(text, len);
      ShorterRepeat(text, len, minLen);
    }
  }

  /** Overlapping occurrences are occurrences: thirteen equal characters hold a repeat of
      length twelve that the length guard hides. */
  lemma OverlapIsMissed()
    ensures var text := "aaaaaaaaaaaaa"; Repetitive(text, 12) && !Detected(text, 12)
  {
    var text := "aaaaaaaaaaaaa";
    assert Sub(text, 0, 12) == Sub(text, 1, 12);
    assert HasRepeat(text, 12);
  }

  /** A phrase written twice in a row is always detected. */
  lemma DoubledPhrase(before: string, phrase: string, after: string, minLen: nat)
    requires minLen <= |phrase| && 1 <= minLen <= LENGTH_CAP
    ensures Detected(before + phrase + phrase + after, minLen)
  {
    var text := before + phrase + phrase + after;
    var i, j := |before|, |before| + |phrase|;
    assert Sub(text, i, |phrase|) == phrase && Sub(text, j, |phrase|) == phrase;
    assert HasRepeat(text, |phrase|);
    ShorterRepeat(text, |phrase|, minLen);
  }
}
