/**
 * ASCII case mapping as Rust's standard library defines it for `char` and
 * `str`: only the letters 'A'..'Z' change; every other character is kept.
 */
module Ascii {

  predicate IsUpper(c: char) {
    'A' <= c <= 'Z'
  }

  /** `char::to_ascii_lowercase`. */
  function ToLower(c: char): (r: char)
    ensures !IsUpper(r)
    ensures IsUpper(c) ==> r as int == c as int + 32
    ensures !IsUpper(c) ==> r == c
  {
    if IsUpper(c) then (c as int + 32) as char else c
  }

  /** `str::to_ascii_lowercase`: the text with ToLower applied to each character. */
  function Lowercase(s: seq<char>): (r: seq<char>)
    ensures |r| == |s|
    ensures forall i :: 0 <= i < |s| ==> r[i] == ToLower(s[i])
    ensures forall i :: 0 <= i < |r| ==> !IsUpper(r[i])
  {
    seq(|s|, i requires 0 <= i < |s| => ToLower(s[i]))
  }

  /** Two characters that differ at most in the case of an ASCII letter. */
  predicate SameIgnoringCase(x: char, y: char) {
    || x == y
    || (IsUpper(x) && y as int == x as int + 32)
    || (IsUpper(y) && x as int == y as int + 32)
  }

  /** `str::eq_ignore_ascii_case`, stated position by position. */
  predicate EqIgnoreCase(s: seq<char>, t: seq<char>) {
    |s| == |t| && forall i :: 0 <= i < |s| ==> SameIgnoringCase(s[i], t[i])
  }

  lemma ToLowerAgrees(x: char, y: char)
    ensures ToLower(x) == ToLower(y) <==> SameIgnoringCase(x, y)
  {
  }

  /** Lower-casing identifies two texts exactly when they differ only in ASCII letter case. */
  lemma LowercaseEqualIff(s: seq<char>, t: seq<char>)
    ensures Lowercase(s) == Lowercase(t) <==> EqIgnoreCase(s, t)
  {
    if Lowercase(s) == Lowercase(t) {
      forall i | 0 <= i < |s| ensures SameIgnoringCase(s[i], t[i]) {
        assert Lowercase(s)[i] == Lowercase(t)[i];
        ToLowerAgrees(s[i], t[i]);
      }
    }
    if EqIgnoreCase(s, t) {
      forall i | 0 <= i < |s| ensures Lowercase(s)[i] == Lowercase(t)[i] {
        ToLowerAgrees(s[i], t[i]);
      }
    }
  }

  /** Lower-casing character by character gives `t`, so `t` is the lower-case form. */
  lemma LowercaseIs(s: seq<char>, t: seq<char>)
    requires |s| == |t|
    requires forall i :: 0 <= i < |s| ==> ToLower(s[i]) == t[i]
    ensures Lowercase(s) == t
  {
  }
}
