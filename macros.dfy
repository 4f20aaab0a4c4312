/**
 * The expression macros of src/macros.h: VERCMP (version comparison used by
 * GNUC_AT_LEAST / CLANG_AT_LEAST), ALEN (array element count) and STRLEN
 * (length of a string literal).
 */
module Macros {

  /** VERCMP(x, y, cx, cy): the current version (cx, cy) is at least (x, y). */
  function VerCmp(x: int, y: int, cx: int, cy: int): (b: bool)
    ensures b <==> !LexLess((cx, cy), (x, y))
  {
    (cx > x) || ((cx == x) && (cy >= y))
  }

  /** Reference definition: strict lexicographic order on (major, minor). */
  predicate LexLess(a: (int, int), b: (int, int)) {
    a.0 < b.0 || (a.0 == b.0 && a.1 < b.1)
  }

  /** VERCMP holds exactly when (cx, cy) is not lexicographically below (x, y). */
  lemma VerCmpIsLexGe(x: int, y: int, cx: int, cy: int)
    ensures VerCmp(x, y, cx, cy) <==> !LexLess((cx, cy), (x, y))
  {
  }

  /** Every version is at least itself. */
  lemma VerCmpReflexive(x: int, y: int)
    ensures VerCmp(x, y, x, y)
  {
  }

  /** The major number decides whenever the two majors differ. */
  lemma VerCmpMajorDecides(x: int, y: int, cx: int, cy: int)
    ensures cx > x ==> VerCmp(x, y, cx, cy)
    ensures cx < x ==> !VerCmp(x, y, cx, cy)
  {
  }

  /** VERCMP is a total preorder: transitive, and any two versions compare one way. */
  lemma VerCmpTotalOrder(a: (int, int), b: (int, int), c: (int, int))
    ensures VerCmp(a.0, a.1, b.0, b.1) || VerCmp(b.0, b.1, a.0, a.1)
    ensures VerCmp(a.0, a.1, b.0, b.1) && VerCmp(b.0, b.1, c.0, c.1) ==> VerCmp(a.0, a.1, c.0, c.1)
    ensures VerCmp(a.0, a.1, b.0, b.1) && VerCmp(b.0, b.1, a.0, a.1) ==> a == b
  {
  }

  /**
   * The byte size of a C array of `v` elements of `elemSize` bytes each,
   * which is what `sizeof(v)` evaluates to.
   */
  function SizeOf<T>(v: seq<T>, elemSize: nat): nat {
    |v| * elemSize
  }

  /** ALEN(v) = sizeof(v) / sizeof(v[0]) is the number of elements. */
  function Alen<T>(v: seq<T>, elemSize: nat): (n: nat)
    requires elemSize > 0
    ensures n == |v|
  {
    MulDivCancel(|v|, elemSize);
    SizeOf(v, elemSize) / elemSize
  }

  lemma MulDivCancel(n: nat, e: nat)
    requires e > 0
    ensures (n * e) / e == n
  {
    var q := (n * e) / e;
    var r := (n * e) % e;
    assert (n - q) * e == r by {
      assert n * e == q * e + r;
      MulSubDistrib(n, q, e);
    }
    if n - q >= 1 {
      MulAtLeastOnce(n - q, e);
    } else if n - q <= -1 {
      MulAtLeastOnce(q - n, e);
      MulNeg(q - n, e);
    }
  }

  lemma MulSubDistrib(a: int, b: int, e: int)
    ensures (a - b) * e == a * e - b * e
  {
  }

  lemma MulNeg(k: int, e: int)
    ensures (-k) * e == -(k * e)
  {
  }

  lemma {:induction false} MulAtLeastOnce(k: int, e: nat)
    requires k >= 1
    ensures k * e >= e
    decreases k
  {
    if k > 1 {
      MulAtLeastOnce(k - 1, e);
      assert k * e == (k - 1) * e + e;
    }
  }

  /**
   * The storage of a string literal: its characters followed by the
   * terminating NUL, which is what `sizeof("" str "")` measures.
   */
  function LiteralStorage(s: string): seq<char> {
    s + ['\0']
  }

  /** STRLEN(s) = sizeof("" s "") - 1: the literal's length without the NUL. */
  function StrLen(s: string): (n: nat)
    ensures n == |s|
    ensures n + 1 == |LiteralStorage(s)|
  {
    |LiteralStorage(s)| - 1
  }
}
