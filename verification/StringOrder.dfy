/** The byte-wise comparisons that order strings and keys (`memcmp`, `StringLessThan`, `strcmp`). */
module StringOrder {
  import opened Bytes

  /** The sign of the first difference among the first `n` bytes. */
  function Memcmp(a: bytes, b: bytes, n: nat): (c: int)
    requires n <= |a| && n <= |b|
    decreases n
  {
    if n == 0 then 0
    else if a[0] != b[0] then a[0] - b[0]
    else Memcmp(a[1..], b[1..], n - 1)
  }

  function Min(m: nat, n: nat): nat { if m < n then m else n }

  /** Lexicographic order on byte strings that may contain zeros (buffer.h). */
  predicate StringLessThan(a: bytes, b: bytes) {
    var cmp := Memcmp(a, b, Min(|a|, |b|));
    if cmp == 0 then |a| < |b| else cmp < 0
  }

  lemma LessStep(a: bytes, b: bytes)
    ensures a == [] ==> (StringLessThan(a, b) <==> b != [])
    ensures a != [] && b == [] ==> !StringLessThan(a, b)
    ensures a != [] && b != [] ==>
              (StringLessThan(a, b) <==> a[0] < b[0] || (a[0] == b[0] && StringLessThan(a[1..], b[1..])))
  {
  }

  /** Neither string precedes the other exactly when they are equal: what a set keyed by this order relies on. */
  lemma {:induction false} LessTrichotomy(a: bytes, b: bytes)
    ensures !StringLessThan(a, b) && !StringLessThan(b, a) <==> a == b
    ensures !(StringLessThan(a, b) && StringLessThan(b, a))
    decreases |a|
  {
    LessStep(a, b);
    LessStep(b, a);
    if a != [] && b != [] {
      LessTrichotomy(a[1..], b[1..]);
      assert a == [a[0]] + a[1..] && b == [b[0]] + b[1..];
    }
  }

  lemma {:induction false} LessTransitive(a: bytes, b: bytes, c: bytes)
    requires StringLessThan(a, b) && StringLessThan(b, c)
    ensures StringLessThan(a, c)
    decreases |a|
  {
    LessStep(a, b);
    LessStep(b, c);
    LessStep(a, c);
    if a != [] && b != [] && c != [] && a[0] == b[0] == c[0] { LessTransitive(a[1..], b[1..], c[1..]); }
  }

  /** The strings agree on `k` bytes, and then `a` ends or has the lesser byte. */
  predicate LessFrom(a: bytes, b: bytes, k: nat) {
    k <= |a| && k < |b| && a[..k] == b[..k] && (k == |a| || a[k] < b[k])
  }

  /** The order is that of a dictionary, bytes taken as unsigned. */
  lemma {:induction false} LessIsLexicographic(a: bytes, b: bytes)
    ensures StringLessThan(a, b) <==> exists k :: LessFrom(a, b, k)
    decreases |a|
  {
    LessStep(a, b);
    if a != [] && b != [] {
      LessIsLexicographic(a[1..], b[1..]);
      LessFromStep(a, b);
    } else if b != [] {
      assert LessFrom(a, b, 0);
    }
  }

  lemma LessFromStep(a: bytes, b: bytes)
    requires a != [] && b != []
    ensures (exists k :: LessFrom(a, b, k)) <==>
            a[0] < b[0] || (a[0] == b[0] && exists k :: LessFrom(a[1..], b[1..], k))
  {
    if a[0] < b[0] { assert LessFrom(a, b, 0); }
    forall k: nat | a[0] == b[0] && LessFrom(a[1..], b[1..], k) ensures LessFrom(a, b, k + 1) {
      assert a[..k + 1] == [a[0]] + a[1..][..k] && b[..k + 1] == [b[0]] + b[1..][..k];
    }
    forall k: nat | k > 0 && LessFrom(a, b, k) ensures a[0] == b[0] && LessFrom(a[1..], b[1..], k - 1) {
      assert a[..k][0] == a[0] && b[..k][0] == b[0];
      assert a[1..][..k - 1] == a[..k][1..] && b[1..][..k - 1] == b[..k][1..];
    }
  }
}
