/**
 * The fingerprint of main.go's `makeHash`: every part is written into one
 * SHA-1 hasher, back to back and without a separator, and the digest is
 * hex-encoded. The digest itself (SHA-1 followed by hex encoding) is not
 * modelled: it is the parameter `digest`, an arbitrary function from the
 * bytes written to the key.
 */
module Fingerprint {

  /** The bytes written into the hasher: the parts, in order, with nothing between them. */
  function Concat(parts: seq<string>): string {
    if parts == [] then [] else Concat(parts[..|parts| - 1]) + parts[|parts| - 1]
  }

  /** The dedup key of a match: company, title and link only, never the location. */
  function Key(digest: string -> string, company: string, title: string, link: string): string {
    digest(Concat([company, title, link]))
  }

  /** `makeHash`: feed each part to the hasher in turn, then take the digest. */
  method MakeHash(digest: string -> string, parts: seq<string>) returns (key: string)
    ensures key == digest(Concat(parts))
  {
    var written: string := [];
    for i := 0 to |parts|
      invariant written == Concat(parts[..i])
    {
      assert parts[..i + 1][..i] == parts[..i];
      written := written + parts[i];
    }
    assert parts[..|parts|] == parts;
    key := digest(written);
  }

  /** Three parts are written as their plain concatenation. */
  lemma {:induction false} ConcatOfThree(a: string, b: string, c: string)
    ensures Concat([a, b, c]) == a + b + c
  {
    assert [a][..0] == [];
    assert Concat([a]) == a;
    assert [a, b][..1] == [a];
    assert Concat([a, b]) == a + b;
    assert [a, b, c][..2] == [a, b];
  }

  /** The key depends on the three fields only through their concatenation. */
  lemma KeyDependsOnlyOnConcatenation(digest: string -> string,
                                      c1: string, t1: string, l1: string,
                                      c2: string, t2: string, l2: string)
    requires c1 + t1 + l1 == c2 + t2 + l2
    ensures Key(digest, c1, t1, l1) == Key(digest, c2, t2, l2)
  {
    ConcatOfThree(c1, t1, l1);
    ConcatOfThree(c2, t2, l2);
  }

  /**
   * With no separator, moving text across a field boundary leaves the key
   * unchanged, whatever the digest: the company "ab" with an empty title and
   * the company "a" with the title "b" share a key for every link.
   */
  lemma ShiftedFieldsCollide(digest: string -> string, link: string)
    ensures Key(digest, "ab", "", link) == Key(digest, "a", "b", link)
  {
    KeyDependsOnlyOnConcatenation(digest, "ab", "", link, "a", "b", link);
  }
}
