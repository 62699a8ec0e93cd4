/** Shared value types and the string-prefix test used by the cache. */
module Common {

  datatype Option<+T> = None | Some(value: T)

  newtype byte = x: int | 0 <= x < 256

  type Bytes = seq<byte>

  /** The test `len(key) >= len(prefix) && key[:len(prefix)] == prefix`. */
  predicate HasPrefix(prefix: string, key: string) {
    |key| >= |prefix| && key[..|prefix|] == prefix
  }

  /** Two prefixes have a key in common exactly when one extends the other. */
  predicate Overlap(p: string, q: string) {
    HasPrefix(p, q) || HasPrefix(q, p)
  }

  lemma SharedKeyMeansOverlap(p: string, q: string, k: string)
    requires HasPrefix(p, k) && HasPrefix(q, k)
    ensures Overlap(p, q)
  {
    if |p| <= |q| {
      assert q[..|p|] == k[..|q|][..|p|] == k[..|p|];
    } else {
      assert p[..|q|] == k[..|p|][..|q|] == k[..|q|];
    }
  }

  lemma LongerPrefixSelectsFewer(p: string, q: string, k: string)
    requires HasPrefix(p, q) && HasPrefix(q, k)
    ensures HasPrefix(p, k)
  {
    assert k[..|p|] == k[..|q|][..|p|];
  }

  /** Some element: the order in which a map is gone through is left open. */
  method Pick<T(==)>(s: set<T>) returns (x: T)
    requires s != {}
    ensures x in s
  {
    x :| x in s;
  }
}
