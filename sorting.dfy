/**
 * The order of group-by results. pandas' `groupby` sorts its groups by key
 * unless it is told not to; this is an insertion sort on a key, proved to
 * permute its input and to leave it in key order.
 */
module Sorting {

  /** `le` relates any two keys one way or the other. */
  ghost predicate Total<K(!new)>(le: (K, K) -> bool) {
    forall a, b :: le(a, b) || le(b, a)
  }

  /** Neighbouring elements are in key order. */
  predicate SortedBy<T, K>(s: seq<T>, key: T -> K, le: (K, K) -> bool) {
    forall i :: 0 < i < |s| ==> le(key(s[i - 1]), key(s[i]))
  }

  /** No two elements share a key. */
  predicate KeysDistinct<T, K(==)>(s: seq<T>, key: T -> K) {
    forall i, j :: 0 <= i < j < |s| ==> key(s[i]) != key(s[j])
  }

  /** Puts `x` before the first element whose key it does not come after. */
  function InsertBy<T, K>(x: T, s: seq<T>, key: T -> K, le: (K, K) -> bool): seq<T> {
    if s == [] then [x]
    else if le(key(x), key(s[0])) then [x] + s
    else [s[0]] + InsertBy(x, s[1..], key, le)
  }

  /** The elements of `s` ordered by key. */
  function SortBy<T, K>(s: seq<T>, key: T -> K, le: (K, K) -> bool): seq<T> {
    if s == [] then [] else InsertBy(s[0], SortBy(s[1..], key, le), key, le)
  }

  lemma {:induction false} InsertByPermutes<T, K>(x: T, s: seq<T>, key: T -> K, le: (K, K) -> bool)
    ensures multiset(InsertBy(x, s, key, le)) == multiset(s) + multiset{x}
  {
    if s != [] && !le(key(x), key(s[0])) {
      InsertByPermutes(x, s[1..], key, le);
      assert s == [s[0]] + s[1..];
    }
  }

  /** Sorting keeps every element as often as it occurs, and adds none. */
  lemma {:induction false} SortByPermutes<T, K>(s: seq<T>, key: T -> K, le: (K, K) -> bool)
    ensures multiset(SortBy(s, key, le)) == multiset(s)
    ensures |SortBy(s, key, le)| == |s|
  {
    if s != [] {
      SortByPermutes(s[1..], key, le);
      InsertByPermutes(s[0], SortBy(s[1..], key, le), key, le);
      assert s == [s[0]] + s[1..];
    }
    assert |multiset(SortBy(s, key, le))| == |SortBy(s, key, le)|;
  }

  /** Every element of the sorted sequence comes from the input, and every input element is in it. */
  lemma SortByMembers<T, K>(s: seq<T>, key: T -> K, le: (K, K) -> bool)
    ensures |SortBy(s, key, le)| == |s|
    ensures forall j :: 0 <= j < |SortBy(s, key, le)| ==> SortBy(s, key, le)[j] in s
    ensures forall i :: 0 <= i < |s| ==> s[i] in SortBy(s, key, le)
  {
    SortByPermutes(s, key, le);
    var t := SortBy(s, key, le);
    forall j | 0 <= j < |t|
      ensures t[j] in s
    {
      assert t[j] in multiset(t);
    }
    forall i | 0 <= i < |s|
      ensures s[i] in t
    {
      assert s[i] in multiset(s);
    }
  }

  lemma {:induction false} InsertBySorted<T, K(!new)>(x: T, s: seq<T>, key: T -> K, le: (K, K) -> bool)
    requires Total(le) && SortedBy(s, key, le)
    ensures SortedBy(InsertBy(x, s, key, le), key, le)
    ensures |InsertBy(x, s, key, le)| == |s| + 1
    ensures s == [] || InsertBy(x, s, key, le)[0] == x || InsertBy(x, s, key, le)[0] == s[0]
  {
    if s != [] && !le(key(x), key(s[0])) {
      var rest := s[1..];
      assert SortedBy(rest, key, le) by {
        forall i | 0 < i < |rest|
          ensures le(key(rest[i - 1]), key(rest[i]))
        {
          assert rest[i - 1] == s[i] && rest[i] == s[i + 1];
        }
      }
      InsertBySorted(x, rest, key, le);
      var t := InsertBy(x, rest, key, le);
      assert le(key(s[0]), key(x));
      assert le(key(s[0]), key(t[0])) by {
        if rest != [] && t[0] != x {
          assert t[0] == s[1];
        }
      }
      var r := [s[0]] + t;
      forall i | 0 < i < |r|
        ensures le(key(r[i - 1]), key(r[i]))
      {
        if i > 1 {
          assert r[i - 1] == t[i - 2] && r[i] == t[i - 1];
        }
      }
    }
  }

  /** Given a total order on keys, the result is in key order. */
  lemma {:induction false} SortBySorted<T, K(!new)>(s: seq<T>, key: T -> K, le: (K, K) -> bool)
    ensures Total(le) ==> SortedBy(SortBy(s, key, le), key, le)
  {
    if s != [] && Total(le) {
      SortBySorted(s[1..], key, le);
      InsertBySorted(s[0], SortBy(s[1..], key, le), key, le);
    }
  }

  lemma {:induction false} InsertByKeysDistinct<T, K>(x: T, s: seq<T>, key: T -> K, le: (K, K) -> bool)
    requires KeysDistinct(s, key)
    requires forall i :: 0 <= i < |s| ==> key(s[i]) != key(x)
    ensures KeysDistinct(InsertBy(x, s, key, le), key)
  {
    if s != [] && !le(key(x), key(s[0])) {
      var rest := s[1..];
      InsertByKeysDistinct(x, rest, key, le);
      InsertByPermutes(x, rest, key, le);
      var t := InsertBy(x, rest, key, le);
      forall j | 0 <= j < |t|
        ensures key(s[0]) != key(t[j])
      {
        assert t[j] in multiset(t);
        if t[j] != x {
          assert t[j] in multiset(rest);
          var k :| 0 <= k < |rest| && rest[k] == t[j];
          assert s[k + 1] == t[j];
        }
      }
      var r := [s[0]] + t;
      forall i, j | 0 <= i < j < |r|
        ensures key(r[i]) != key(r[j])
      {
        assert r[j] == t[j - 1];
        if i > 0 {
          assert r[i] == t[i - 1];
        }
      }
    } else if s != [] {
      var r := [x] + s;
      forall i, j | 0 <= i < j < |r|
        ensures key(r[i]) != key(r[j])
      {
        assert r[j] == s[j - 1];
        if i > 0 {
          assert r[i] == s[i - 1];
        }
      }
    }
  }

  /** Sorting cannot bring two elements with the same key together. */
  lemma {:induction false} SortByKeysDistinct<T, K>(s: seq<T>, key: T -> K, le: (K, K) -> bool)
    requires KeysDistinct(s, key)
    ensures KeysDistinct(SortBy(s, key, le), key)
  {
    if s != [] {
      var rest := s[1..];
      assert KeysDistinct(rest, key) by {
        forall i, j | 0 <= i < j < |rest|
          ensures key(rest[i]) != key(rest[j])
        {
          assert rest[i] == s[i + 1] && rest[j] == s[j + 1];
        }
      }
      SortByKeysDistinct(rest, key, le);
      SortByPermutes(rest, key, le);
      var t := SortBy(rest, key, le);
      forall j | 0 <= j < |t|
        ensures key(t[j]) != key(s[0])
      {
        assert t[j] in multiset(rest);
        var k :| 0 <= k < |rest| && rest[k] == t[j];
        assert s[k + 1] == t[j];
      }
      InsertByKeysDistinct(s[0], t, key, le);
    }
  }

  /** What holds of every element holds of every element of the sorted sequence. */
  lemma SortByKeepsProperty<T, K>(s: seq<T>, key: T -> K, le: (K, K) -> bool, p: T -> bool)
    requires forall i :: 0 <= i < |s| ==> p(s[i])
    ensures forall j :: 0 <= j < |SortBy(s, key, le)| ==> p(SortBy(s, key, le)[j])
  {
    SortByMembers(s, key, le);
    var t := SortBy(s, key, le);
    forall j | 0 <= j < |t|
      ensures p(t[j])
    {
      var i :| 0 <= i < |s| && s[i] == t[j];
    }
  }
}
