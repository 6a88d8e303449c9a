/**
 * Case mapping and substring search on strings, as the task list uses them
 * for priority parsing (upper-casing) and for searching (lower-casing and
 * substring containment). Case mapping is ASCII-only.
 */
module Text {

  /** Maps 'A'..'Z' to 'a'..'z' and leaves every other character alone. */
  function LowerChar(c: char): char {
    if 'A' <= c <= 'Z' then (c as int - 'A' as int + 'a' as int) as char else c
  }

  /** Maps 'a'..'z' to 'A'..'Z' and leaves every other character alone. */
  function UpperChar(c: char): char {
    if 'a' <= c <= 'z' then (c as int - 'a' as int + 'A' as int) as char else c
  }

  function Lower(s: string): string {
    seq(|s|, i requires 0 <= i < |s| => LowerChar(s[i]))
  }

  function Upper(s: string): string {
    seq(|s|, i requires 0 <= i < |s| => UpperChar(s[i]))
  }

  /** Upper-casing forgets the case the string had: upper-casing the
      lower-cased or the upper-cased string gives the same as upper-casing
      the string itself. */
  lemma UpperForgetsCase(s: string)
    ensures Upper(Lower(s)) == Upper(s)
    ensures Upper(Upper(s)) == Upper(s)
  {
    assert forall i :: 0 <= i < |s| ==> Upper(Lower(s))[i] == Upper(s)[i];
    assert forall i :: 0 <= i < |s| ==> Upper(Upper(s))[i] == Upper(s)[i];
  }

  predicate IsPrefix(p: string, s: string) {
    |p| <= |s| && s[..|p|] == p
  }

  /** True when `needle` occurs in `hay` as a contiguous substring. */
  predicate Contains(hay: string, needle: string)
    decreases |hay|
  {
    IsPrefix(needle, hay) || (|hay| > 0 && Contains(hay[1..], needle))
  }

  /** The recursive search agrees with "there is a position at which the
      needle starts", in both directions. */
  lemma {:induction false} ContainsIffOccurs(hay: string, needle: string)
    ensures Contains(hay, needle) <==> exists i :: 0 <= i <= |hay| && IsPrefix(needle, hay[i..])
  {
    if Contains(hay, needle) {
      if IsPrefix(needle, hay) {
        assert hay[0..] == hay;
      } else {
        ContainsIffOccurs(hay[1..], needle);
        var i :| 0 <= i <= |hay[1..]| && IsPrefix(needle, hay[1..][i..]);
        assert hay[1..][i..] == hay[i + 1..];
      }
    }
    if exists i :: 0 <= i <= |hay| && IsPrefix(needle, hay[i..]) {
      var i :| 0 <= i <= |hay| && IsPrefix(needle, hay[i..]);
      if i == 0 {
        assert hay[0..] == hay;
      } else {
        assert hay[1..][i - 1..] == hay[i..];
        ContainsIffOccurs(hay[1..], needle);
      }
    }
  }

  /** The empty string occurs in every string. */
  lemma ContainsEmpty(hay: string)
    ensures Contains(hay, "")
  {
  }
}
