/** Generic sequence operations shared by the two services. */
module Seqs {

  /** Applies `f` to every element and concatenates the results, in order. */
  function FlatMap<T, U>(f: T -> seq<U>, s: seq<T>): seq<U> {
    if s == [] then [] else f(s[0]) + FlatMap(f, s[1..])
  }

  lemma {:induction false} FlatMapAppend<T, U>(f: T -> seq<U>, a: seq<T>, b: seq<T>)
    ensures FlatMap(f, a + b) == FlatMap(f, a) + FlatMap(f, b)
    decreases |a|
  {
    if a == [] {
      assert a + b == b;
    } else {
      FlatMapAppend(f, a[1..], b);
      assert (a + b)[1..] == a[1..] + b;
    }
  }

  /** A property every piece has is a property of the whole. */
  lemma {:induction false} FlatMapPreserves<T, U>(f: T -> seq<U>, s: seq<T>, p: U -> bool)
    requires forall i, k :: 0 <= i < |s| && 0 <= k < |f(s[i])| ==> p(f(s[i])[k])
    ensures forall k :: 0 <= k < |FlatMap(f, s)| ==> p(FlatMap(f, s)[k])
    decreases |s|
  {
    if s != [] {
      FlatMapPreserves(f, s[1..], p);
      var head := f(s[0]);
      var tail := FlatMap(f, s[1..]);
      assert forall k :: 0 <= k < |head| ==> p(head[k]);
      assert forall k :: 0 <= k < |tail| ==> p(tail[k]);
      assert forall k :: 0 <= k < |head + tail| ==> p((head + tail)[k]);
    }
  }

  function Min(a: nat, b: nat): nat {
    if a <= b then a else b
  }

  /** `s.slice(-n)` for a positive `n`: the last `n` entries, or all of
      them when there are fewer. (`slice(-0)` would copy the whole list.) */
  function LastN<T>(s: seq<T>, n: nat): (r: seq<T>)
    requires n >= 1
    ensures |r| == Min(n, |s|)
    ensures forall k :: 0 <= k < |r| ==> r[k] == s[|s| - |r| + k]
    ensures |s| <= n ==> r == s
  {
    s[|s| - Min(n, |s|)..]
  }

  /** `slice(-n)` of a sequence grown by one element: the previous window
      with the new element at the end, minus its oldest element when the
      window was already full. */
  lemma LastNAppend<T>(s: seq<T>, x: T, n: nat)
    requires n >= 1
    ensures LastN(s + [x], n) == (if |s| < n then LastN(s, n) else LastN(s, n)[1..]) + [x]
  {
    var a := |s| + 1 - Min(n, |s| + 1);
    assert (s + [x])[a..] == s[a..] + [x];
  }

  /** Appending to a list that keeps only its `n` most recent entries: the
      new entry comes last, preceded by the most recent of the earlier ones;
      nothing is dropped while there is room. */
  function Push<T>(s: seq<T>, x: T, n: nat): (r: seq<T>)
    requires n >= 1
    ensures |r| == Min(n, |s| + 1)
    ensures r[|r| - 1] == x
    ensures forall k :: 0 <= k < |r| - 1 ==> r[k] == s[|s| + 1 - |r| + k]
    ensures |s| < n ==> r == s + [x]
  {
    if |s| < n then s + [x] else s[|s| + 1 - n..] + [x]
  }

  /** `Push` is `push` followed by `slice(-n)`. */
  lemma PushKeepsLastN<T>(s: seq<T>, x: T, n: nat)
    requires n >= 1
    ensures Push(s, x, n) == LastN(s + [x], n)
  {
    var all := s + [x];
    if |s| < n {
      assert LastN(all, n) == all;
    } else {
      assert all[|all| - n..] == s[|s| + 1 - n..] + [x];
    }
  }
}
