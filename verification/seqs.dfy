/** The array combinators the application's code is written with (`filter`, `map`, `find`),
    as recursive functions over sequences, each with the contract that characterises it. */
module Seqs {
  import opened Wrappers

  /** `a` is `b` with zero or more elements dropped and the rest kept in order. */
  ghost predicate IsSubsequence<T>(a: seq<T>, b: seq<T>)
    decreases |b|
  {
    if |a| == 0 then true
    else if |b| == 0 then false
    else (a[0] == b[0] && IsSubsequence(a[1..], b[1..])) || IsSubsequence(a, b[1..])
  }

  /** No two elements share a key. */
  ghost predicate NoDupBy<T, K>(s: seq<T>, key: T -> K) {
    forall i, j :: 0 <= i < j < |s| ==> key(s[i]) != key(s[j])
  }

  /** `Array.prototype.filter`: the elements satisfying `p`, in their original order. */
  function Filter<T>(s: seq<T>, p: T -> bool): (r: seq<T>)
    ensures |r| <= |s|
    ensures forall i :: 0 <= i < |r| ==> r[i] in s && p(r[i])
    ensures forall i :: 0 <= i < |s| && p(s[i]) ==> s[i] in r
    ensures IsSubsequence(r, s)
  {
    if |s| == 0 then []
    else if p(s[0]) then [s[0]] + Filter(s[1..], p)
    else Filter(s[1..], p)
  }

  /** Filtering keeps every copy of a satisfying element and no copy of any other. */
  lemma {:induction false} FilterMultiset<T(!new)>(s: seq<T>, p: T -> bool)
    ensures forall x :: multiset(Filter(s, p))[x] == if p(x) then multiset(s)[x] else 0
  {
    if |s| > 0 {
      FilterMultiset(s[1..], p);
      assert s == [s[0]] + s[1..];
    }
  }

  /** Filtering with a predicate every element satisfies returns the sequence itself. */
  lemma {:induction false} FilterKeepsAll<T>(s: seq<T>, p: T -> bool)
    requires forall i :: 0 <= i < |s| ==> p(s[i])
    ensures Filter(s, p) == s
  {
    if |s| > 0 {
      FilterKeepsAll(s[1..], p);
      assert s == [s[0]] + s[1..];
    }
  }

  /** Filtering never introduces a duplicate key. */
  lemma {:induction false} FilterNoDupBy<T, K>(s: seq<T>, p: T -> bool, key: T -> K)
    requires NoDupBy(s, key)
    ensures NoDupBy(Filter(s, p), key)
  {
    if |s| > 0 {
      assert NoDupBy(s[1..], key) by {
        forall i, j | 0 <= i < j < |s[1..]|
          ensures key(s[1..][i]) != key(s[1..][j])
        {
          assert s[1..][i] == s[i + 1] && s[1..][j] == s[j + 1];
        }
      }
      FilterNoDupBy(s[1..], p, key);
      var rest := Filter(s[1..], p);
      if p(s[0]) {
        forall k | 0 <= k < |rest|
          ensures key(rest[k]) != key(s[0])
        {
          var m :| 0 <= m < |s[1..]| && s[1..][m] == rest[k];
          assert s[1..][m] == s[m + 1];
        }
        var r := [s[0]] + rest;
        forall i, j | 0 <= i < j < |r|
          ensures key(r[i]) != key(r[j])
        {
          if i == 0 {
            assert r[j] == rest[j - 1];
          } else {
            assert r[i] == rest[i - 1] && r[j] == rest[j - 1];
          }
        }
      }
    }
  }

  /** Filtering keeps a sequence free of duplicate keys; a sequence with duplicates may keep them. */
  lemma FilterKeepsNoDupBy<T, K>(s: seq<T>, p: T -> bool, key: T -> K)
    ensures NoDupBy(s, key) ==> NoDupBy(Filter(s, p), key)
  {
    if NoDupBy(s, key) {
      FilterNoDupBy(s, p, key);
    }
  }

  /** Filtering distributes over concatenation. */
  lemma {:induction false} FilterAppend<T>(a: seq<T>, b: seq<T>, p: T -> bool)
    ensures Filter(a + b, p) == Filter(a, p) + Filter(b, p)
  {
    if |a| > 0 {
      assert (a + b)[1..] == a[1..] + b;
      FilterAppend(a[1..], b, p);
    } else {
      assert a + b == b;
    }
  }

  /** The filter keeps everything exactly when every element satisfies the predicate. */
  lemma {:induction false} FilterKeepsAllIff<T>(s: seq<T>, p: T -> bool)
    ensures |Filter(s, p)| == |s| <==> forall i :: 0 <= i < |s| ==> p(s[i])
  {
    if |s| > 0 {
      FilterKeepsAllIff(s[1..], p);
      if forall i :: 0 <= i < |s| ==> p(s[i]) {
        assert forall i :: 0 <= i < |s[1..]| ==> p(s[1..][i]) by {
          forall i | 0 <= i < |s[1..]|
            ensures p(s[1..][i])
          {
            assert s[1..][i] == s[i + 1];
          }
        }
      } else if p(s[0]) {
        var i :| 0 <= i < |s| && !p(s[i]);
        assert s[1..][i - 1] == s[i];
      }
    }
  }

  /** Replacing one element changes the size of the filter by the change in that element's verdict. */
  lemma {:induction false} FilterCountUpdate<T>(s: seq<T>, j: nat, x: T, p: T -> bool)
    requires j < |s|
    ensures |Filter(s[j := x], p)| == |Filter(s, p)| - (if p(s[j]) then 1 else 0) + (if p(x) then 1 else 0)
  {
    if j > 0 {
      assert s[j := x][1..] == s[1..][j - 1 := x];
      FilterCountUpdate(s[1..], j - 1, x, p);
    } else {
      assert s[j := x][1..] == s[1..];
    }
  }

  /** `Array.prototype.map`. */
  function MapSeq<A, B>(s: seq<A>, f: A -> B): (r: seq<B>)
    ensures |r| == |s|
    ensures forall i :: 0 <= i < |s| ==> r[i] == f(s[i])
  {
    if |s| == 0 then [] else [f(s[0])] + MapSeq(s[1..], f)
  }

  /** Applies a partial decoder to every element; absent as soon as one element does not decode. */
  function Traverse<A, B>(s: seq<A>, f: A -> Option<B>): (r: Option<seq<B>>)
    ensures r.Some? ==> |r.value| == |s| && forall i :: 0 <= i < |s| ==> f(s[i]) == Some(r.value[i])
    ensures r.None? ==> exists i :: 0 <= i < |s| && f(s[i]).None?
  {
    if |s| == 0 then Some([])
    else
      match f(s[0])
      case None => None
      case Some(x) =>
        match Traverse(s[1..], f)
        case None => None
        case Some(xs) => Some([x] + xs)
  }

  /** Decoding every element of an encoded sequence gives the sequence back, whenever the decoder
      inverts the encoder element-wise. */
  lemma TraverseInvertsMap<A, B>(s: seq<A>, enc: A -> B, dec: B -> Option<A>)
    requires forall x :: x in s ==> dec(enc(x)) == Some(x)
    ensures Traverse(MapSeq(s, enc), dec) == Some(s)
  {
    var m := MapSeq(s, enc);
    var r := Traverse(m, dec);
    if r.Some? {
      forall i | 0 <= i < |s|
        ensures r.value[i] == s[i]
      {
        assert s[i] in s && m[i] == enc(s[i]);
      }
      assert r.value == s;
    }
  }

  /** `Array.prototype.findIndex`, absent instead of -1. */
  function FirstIndex<T>(s: seq<T>, p: T -> bool): (r: Option<nat>)
    ensures r.None? <==> forall i :: 0 <= i < |s| ==> !p(s[i])
    ensures r.Some? ==> r.value < |s| && p(s[r.value]) && forall j :: 0 <= j < r.value ==> !p(s[j])
  {
    if |s| == 0 then None
    else if p(s[0]) then Some(0)
    else
      match FirstIndex(s[1..], p)
      case None => None
      case Some(k) => Some(k + 1)
  }

  /** `Array.prototype.find`: the first element satisfying `p`, absent when there is none. */
  function FindFirst<T>(s: seq<T>, p: T -> bool): (r: Option<T>)
    ensures r.None? <==> forall i :: 0 <= i < |s| ==> !p(s[i])
    ensures r.Some? ==> exists k :: 0 <= k < |s| && s[k] == r.value && p(s[k]) && forall j :: 0 <= j < k ==> !p(s[j])
  {
    match FirstIndex(s, p)
    case None => None
    case Some(k) => Some(s[k])
  }
}
