/** Text helpers: Python's `str.strip()` and pandas' `unique()`. */
module Text {

  /**
   * The characters Python's `str.isspace()` accepts, which are the ones
   * `str.strip()` removes when it is called without arguments.
   */
  predicate IsSpace(c: char) {
    var n := c as int;
    || (9 <= n <= 13) || (0x1C <= n <= 0x20)
    || n == 0x85 || n == 0xA0 || n == 0x1680
    || (0x2000 <= n <= 0x200A)
    || n == 0x2028 || n == 0x2029 || n == 0x202F || n == 0x205F || n == 0x3000
  }

  /** Where the text starts: the number of leading whitespace characters. */
  function StartIndex(s: string): (i: nat)
    ensures i <= |s|
    ensures forall k :: 0 <= k < i ==> IsSpace(s[k])
    ensures i < |s| ==> !IsSpace(s[i])
  {
    if |s| > 0 && IsSpace(s[0]) then
      var i := 1 + StartIndex(s[1..]);
      assert forall k :: 1 <= k < |s| ==> s[k] == s[1..][k - 1];
      i
    else 0
  }

  /** Where the text ends, searching back from `hi` but not past `lo`: trailing whitespace is cut. */
  function EndIndex(s: string, lo: nat, hi: nat): (j: nat)
    requires lo <= hi <= |s|
    ensures lo <= j <= hi
    ensures forall k :: j <= k < hi ==> IsSpace(s[k])
    ensures j > lo ==> !IsSpace(s[j - 1])
    decreases hi
  {
    if hi > lo && IsSpace(s[hi - 1]) then EndIndex(s, lo, hi - 1) else hi
  }

  /** Python's `s.strip()`: the text between the leading and the trailing whitespace. */
  function Trim(s: string): string {
    var i := StartIndex(s);
    s[i..EndIndex(s, i, |s|)]
  }

  /** Trimming cuts only whitespace, from both ends, and leaves no whitespace at either end. */
  lemma TrimShape(s: string)
    ensures var r, i := Trim(s), StartIndex(s);
      && 0 <= i <= i + |r| <= |s| && r == s[i..i + |r|]
      && (forall k :: 0 <= k < i ==> IsSpace(s[k]))
      && (forall k :: i + |r| <= k < |s| ==> IsSpace(s[k]))
    ensures Trim(s) != [] ==> !IsSpace(Trim(s)[0]) && !IsSpace(Trim(s)[|Trim(s)| - 1])
  {
    var i := StartIndex(s);
    var j := EndIndex(s, i, |s|);
    assert |Trim(s)| == j - i;
    if j > i {
      assert Trim(s)[0] == s[i] && Trim(s)[j - i - 1] == s[j - 1];
    }
  }

  /** Stripping an already stripped string changes nothing. */
  lemma TrimIdempotent(s: string)
    ensures Trim(Trim(s)) == Trim(s)
  {
    var r := Trim(s);
    TrimShape(s);
    if r != [] {
      assert StartIndex(r) == 0;
      assert EndIndex(r, 0, |r|) == |r|;
      assert r[0..|r|] == r;
    }
  }

  /** No element occurs twice. */
  predicate Distinct<T(==)>(s: seq<T>) {
    forall i, j :: 0 <= i < j < |s| ==> s[i] != s[j]
  }

  /** pandas' `unique()`: each distinct value once, in order of first appearance. */
  function Unique<T(==)>(s: seq<T>): (r: seq<T>)
    ensures Distinct(r)
    ensures forall i :: 0 <= i < |r| ==> r[i] in s
    ensures forall i :: 0 <= i < |s| ==> s[i] in r
  {
    if s == [] then []
    else
      var u := Unique(s[..|s| - 1]);
      assert forall i :: 0 <= i < |s| - 1 ==> s[i] == s[..|s| - 1][i];
      if s[|s| - 1] in u then u else u + [s[|s| - 1]]
  }

  /**
   * Python's `a <= b` on strings, which orders sorted `groupby` keys: code
   * point by code point, a proper prefix before the longer string.
   */
  predicate TextNotAfter(a: string, b: string) {
    if a == [] then true
    else if b == [] then false
    else if a[0] != b[0] then a[0] < b[0]
    else TextNotAfter(a[1..], b[1..])
  }

  /** The string order is reflexive, total, antisymmetric and transitive. */
  lemma {:induction false} TextNotAfterIsTotalOrder(a: string, b: string, c: string)
    ensures TextNotAfter(a, a)
    ensures TextNotAfter(a, b) || TextNotAfter(b, a)
    ensures TextNotAfter(a, b) && TextNotAfter(b, a) ==> a == b
    ensures TextNotAfter(a, b) && TextNotAfter(b, c) ==> TextNotAfter(a, c)
  {
    if a != [] {
      TextNotAfterIsTotalOrder(a[1..], a[1..], a[1..]);
      if b != [] {
        TextNotAfterIsTotalOrder(a[1..], b[1..], if c != [] then c[1..] else a[1..]);
        if a[0] == b[0] && a[1..] == b[1..] {
          assert a == [a[0]] + a[1..] && b == [b[0]] + b[1..];
        }
      }
    }
  }
}
