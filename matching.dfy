/**
 * The matcher of main.go: a case-insensitive keyword test over a title or
 * a page body, and a case-insensitive location test for one city.
 * Lower-casing is modelled over ASCII only.
 */
module Matching {

  /** The fixed keyword profile, already in lower case. */
  const Keywords: seq<string> :=
    ["devops", "cloud", "platform", "sre", "terraform", "azure", "kubernetes"]

  /** The city that a structured listing's location must mention. */
  const City: string := "halifax"

  function LowerChar(c: char): char {
    if 'A' <= c <= 'Z' then (c as int + 32) as char else c
  }

  function UpperChar(c: char): char {
    if 'a' <= c <= 'z' then (c as int - 32) as char else c
  }

  /** `strings.ToLower`, restricted to ASCII letters. */
  function Lower(s: string): string {
    seq(|s|, i requires 0 <= i < |s| => LowerChar(s[i]))
  }

  /** The ASCII upper-case spelling of `s`; used to state case insensitivity. */
  function Upper(s: string): string {
    seq(|s|, i requires 0 <= i < |s| => UpperChar(s[i]))
  }

  /** `sub` starts at index `i` of `s`. */
  predicate OccursAt(s: string, sub: string, i: int) {
    0 <= i && i + |sub| <= |s| && s[i..i + |sub|] == sub
  }

  /** `strings.Contains(s, sub)`: a plain substring test, true for an empty `sub`. */
  function Contains(s: string, sub: string): bool
    decreases |s|
  {
    if |s| < |sub| then false
    else if s[..|sub|] == sub then true
    else Contains(s[1..], sub)
  }

  /** The substring test finds `sub` exactly when it occurs at some index of `s`. */
  lemma {:induction false} ContainsIffOccurs(s: string, sub: string)
    ensures Contains(s, sub) <==> exists i :: OccursAt(s, sub, i)
    decreases |s|
  {
    if |s| < |sub| {
    } else if s[..|sub|] == sub {
      assert OccursAt(s, sub, 0);
    } else {
      ContainsIffOccurs(s[1..], sub);
      if Contains(s, sub) {
        var j :| OccursAt(s[1..], sub, j);
        assert s[1..][j..j + |sub|] == s[j + 1..j + 1 + |sub|];
        assert OccursAt(s, sub, j + 1);
      }
      if exists i :: OccursAt(s, sub, i) {
        var i :| OccursAt(s, sub, i);
        assert i != 0;
        assert s[1..][i - 1..i - 1 + |sub|] == s[i..i + |sub|];
        assert OccursAt(s[1..], sub, i - 1);
      }
    }
  }

  /** The keyword profile matches `text`: some keyword occurs in its lower-case form. */
  predicate MatchesKeywords(text: string) {
    exists k :: k in Keywords && Contains(Lower(text), k)
  }

  /** `containsKeywords`: lower-case the text once, then try each keyword in turn. */
  method ContainsKeywords(text: string) returns (found: bool)
    ensures found == MatchesKeywords(text)
  {
    var lower := Lower(text);
    var i := 0;
    while i < |Keywords|
      invariant 0 <= i <= |Keywords|
      invariant forall j :: 0 <= j < i ==> !Contains(lower, Keywords[j])
    {
      if Contains(lower, Keywords[i]) {
        return true;
      }
      i := i + 1;
    }
    return false;
  }

  /** `locationContainsHalifax`: the city occurs in the lower-case location. */
  function LocationContainsHalifax(loc: string): (r: bool)
    ensures r <==> exists i :: OccursAt(Lower(loc), City, i)
  {
    ContainsIffOccurs(Lower(loc), City);
    Contains(Lower(loc), City)
  }

  /** Changing the case of ASCII letters does not change the lower-case form. */
  lemma LowerIgnoresCase(s: string)
    ensures Lower(Upper(s)) == Lower(s)
    ensures Lower(Lower(s)) == Lower(s)
  {
  }

  /** Both matchers give the same answer for a text in upper, lower or mixed case. */
  lemma MatchersIgnoreCase(s: string)
    ensures MatchesKeywords(Upper(s)) == MatchesKeywords(s)
    ensures MatchesKeywords(Lower(s)) == MatchesKeywords(s)
    ensures LocationContainsHalifax(Upper(s)) == LocationContainsHalifax(s)
    ensures LocationContainsHalifax(Lower(s)) == LocationContainsHalifax(s)
  {
    LowerIgnoresCase(s);
  }

  /** The empty text matches no keyword (every keyword is non-empty). */
  lemma EmptyTextNeverMatches()
    ensures !MatchesKeywords("")
    ensures !LocationContainsHalifax("")
  {
  }

  /** A keyword inside a longer word is enough: no word boundary is needed. */
  lemma AzureWebsitesMatches()
    ensures MatchesKeywords("azurewebsites")
  {
    var lower := Lower("azurewebsites");
    assert lower[..5] == "azure";
    assert OccursAt(lower, "azure", 0);
    ContainsIffOccurs(lower, "azure");
    assert "azure" in Keywords;
  }

  /** A keyword written in mixed case inside a longer text matches. */
  lemma DevOpsEngineerMatches()
    ensures MatchesKeywords("Senior DevOps Engineer")
  {
    var text := "Senior DevOps Engineer";
    var lower := Lower(text);
    assert text[7..13] == "DevOps";
    assert lower[7] == 'd' && lower[8] == 'e' && lower[9] == 'v';
    assert lower[10] == 'o' && lower[11] == 'p' && lower[12] == 's';
    assert OccursAt(lower, "devops", 7);
    ContainsIffOccurs(lower, "devops");
    assert "devops" in Keywords;
  }

  /** None of the seven keywords occurs in "develops". */
  lemma KeywordNotInDevelops(k: string)
    requires k in Keywords
    ensures !Contains("develops", k)
  {
    if k == "devops" {
      assert "develops"[4] != k[4];
      assert "evelops"[0] != k[0] && "velops"[0] != k[0];
    } else if k == "cloud" || k == "azure" {
      assert "develops"[0] != k[0] && "evelops"[0] != k[0];
      assert "velops"[0] != k[0] && "elops"[0] != k[0];
    } else if k == "platform" {
      assert "develops"[0] != k[0];
    } else if k == "sre" {
      assert "develops"[0] != k[0] && "evelops"[0] != k[0] && "velops"[0] != k[0];
      assert "elops"[0] != k[0] && "lops"[0] != k[0] && "ops"[0] != k[0];
    }
  }

  /** "develops" matches no keyword, although it resembles "devops". */
  lemma DevelopsDoesNotMatch()
    ensures !MatchesKeywords("develops")
  {
    assert Lower("develops") == "develops";
    forall k | k in Keywords
      ensures !Contains(Lower("develops"), k)
    {
      KeywordNotInDevelops(k);
    }
  }

  /** The location test on two concrete locations: Halifax passes, Toronto does not. */
  lemma LocationExamples()
    ensures LocationContainsHalifax("Halifax, NS")
    ensures !LocationContainsHalifax("Toronto")
  {
    assert Contains(Lower("Halifax, NS"), City) by {
      assert Lower("Halifax, NS")[..7] == City;
    }
    assert Lower("Toronto") == "toronto";
    assert !Contains("toronto", City) by {
      assert "toronto"[0] != City[0];
    }
  }
}
