/** Block hashes and parent-linked chains, as one JSON-RPC node reports them. */
module Chain {

  /** A block hash as the node prints it. Hex digits may come in either case. */
  type Hash = string

  function LowerChar(c: char): char {
    if 'A' <= c <= 'Z' then (c as int + 32) as char else c
  }

  /** ASCII lower case, on which `strings.EqualFold` and `strings.ToLower` agree for hex strings. */
  function Fold(h: string): string {
    seq(|h|, i requires 0 <= i < |h| => LowerChar(h[i]))
  }

  predicate SameHash(a: Hash, b: Hash) {
    Fold(a) == Fold(b)
  }

  /** The same character, or the two cases of one ASCII letter. */
  predicate SameLetter(c: char, d: char) {
    || c == d
    || ('A' <= c <= 'Z' && d as int == c as int + 32)
    || ('A' <= d <= 'Z' && c as int == d as int + 32)
  }

  predicate EqualButCase(a: string, b: string) {
    |a| == |b| && forall i :: 0 <= i < |a| ==> SameLetter(a[i], b[i])
  }

  /** Folding changes nothing but the case of letters, and leaves no upper-case letter. */
  lemma FoldMeaning(s: string)
    ensures EqualButCase(Fold(s), s)
    ensures forall i :: 0 <= i < |Fold(s)| ==> !('A' <= Fold(s)[i] <= 'Z')
  {
  }

  /** Two strings have one lower-case form exactly if they differ in nothing but the case of letters. */
  lemma FoldIff(a: string, b: string)
    ensures Fold(a) == Fold(b) <==> EqualButCase(a, b)
  {
    if Fold(a) == Fold(b) {
      forall i | 0 <= i < |a| ensures |a| == |b| && SameLetter(a[i], b[i]) {
        assert |Fold(a)| == |Fold(b)| && Fold(a)[i] == Fold(b)[i];
      }
    }
  }

  /**
   * A snapshot of the canonical chain: the hash at each height from 0 to the head.
   * `parent` stands for the parent field of the block a hash identifies, so two
   * snapshots that agree at a height agree below it.
   */
  ghost predicate Linked(parent: Hash -> Hash, c: seq<Hash>) {
    && (forall i :: 0 < i < |c| ==> parent(Fold(c[i])) == Fold(c[i - 1]))
    && (forall i :: 0 <= i < |c| ==> c[i] != "")
  }
}
