/**
 * Task priority: a closed three-valued enumeration with a canonical printed
 * form and a lenient, total parser.
 */
module Priorities {
  import opened Text

  datatype Priority = Low | Medium | High {

    /** The canonical upper-case name of the level. */
    function ToString(): string {
      match this
      case High => "HIGH"
      case Medium => "MEDIUM"
      case Low => "LOW"
    }
  }

  /** Parses a priority, ignoring case. Full names and the abbreviations
      H, MED, M and L are accepted; anything else, the empty string
      included, falls back to Medium, so parsing never fails. */
  function ParsePriority(s: string): Priority {
    var u := Upper(s);
    if u == "HIGH" || u == "H" then High
    else if u == "MEDIUM" || u == "MED" || u == "M" then Medium
    else if u == "LOW" || u == "L" then Low
    else Medium
  }

  /** Printing and then parsing gives back the level. */
  lemma ParseInvertsToString(p: Priority)
    ensures ParsePriority(p.ToString()) == p
  {
    var s := p.ToString();
    assert Upper(s) == s by {
      assert forall i :: 0 <= i < |s| ==> Upper(s)[i] == s[i];
    }
  }

  /** The three printed names are pairwise different, so printing loses
      nothing. */
  lemma ToStringInjective(p: Priority, q: Priority)
    ensures p.ToString() == q.ToString() ==> p == q
  {
    ParseInvertsToString(p);
    ParseInvertsToString(q);
  }

  /** Parsing is case-insensitive: the lower-cased and the upper-cased input
      parse to the same level as the input itself. */
  lemma ParseIgnoresCase(s: string)
    ensures ParsePriority(Lower(s)) == ParsePriority(s)
    ensures ParsePriority(Upper(s)) == ParsePriority(s)
  {
    UpperForgetsCase(s);
  }

  /** Parsing a lower-case name gives back the level too. */
  lemma ParseInvertsLowerCaseName(p: Priority)
    ensures ParsePriority(Lower(p.ToString())) == p
  {
    ParseIgnoresCase(p.ToString());
    ParseInvertsToString(p);
  }

  /** Every string that is not one of the seven accepted spellings, in any
      case, parses to Medium; so does each Medium spelling. */
  lemma ParseDefaultsToMedium(s: string)
    ensures ParsePriority(s) != Medium ==> Upper(s) in ["HIGH", "H", "LOW", "L"]
  {
  }

  /** The cases the parser is exercised with, including the default. */
  lemma ParseExamples()
    ensures ParsePriority("high") == High && ParsePriority("h") == High
    ensures ParsePriority("medium") == Medium && ParsePriority("MED") == Medium
    ensures ParsePriority("low") == Low && ParsePriority("l") == Low
    ensures ParsePriority("invalid") == Medium && ParsePriority("") == Medium
  {
    assert Upper("high") == "HIGH";
    assert Upper("h") == "H";
    assert Upper("low") == "LOW";
    assert Upper("l") == "L";
    assert Upper("MED") == "MED";
    assert Upper("medium") == "MEDIUM";
  }
}
