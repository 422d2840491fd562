/** Small facts about sequences used by the ranking and history models. */
module Seqs {

  function Min(a: int, b: int): int
  {
    if a <= b then a else b
  }

  /** No element occurs twice. */
  predicate Distinct<T(==)>(s: seq<T>)
  {
    forall i, j :: 0 <= i < j < |s| ==> s[i] != s[j]
  }

  /** The indices 0, 1, ..., n-1 in increasing order. */
  function Range(n: nat): (r: seq<nat>)
    ensures |r| == n
    ensures forall i :: 0 <= i < n ==> r[i] == i
    ensures Distinct(r)
  {
    if n == 0 then [] else Range(n - 1) + [n - 1]
  }

  /** Pigeonhole: a duplicate-free sequence whose elements all occur in `b`
      cannot be longer than `b`. */
  lemma {:induction false} SubsetLength<T>(a: seq<T>, b: seq<T>)
    requires Distinct(a)
    requires forall x :: x in a ==> x in b
    ensures |a| <= |b|
  {
    if |a| > 0 {
      var last := a[|a| - 1];
      var init := a[..|a| - 1];
      assert last in a;
      var q :| 0 <= q < |b| && b[q] == last;
      var rest := b[..q] + b[q + 1..];
      forall x | x in init
        ensures x in rest
      {
        var m :| 0 <= m < |init| && init[m] == x;
        assert a[m] == x && a[|a| - 1] == last;
        assert x in a;
        var t :| 0 <= t < |b| && b[t] == x;
        if t < q {
          assert rest[t] == x;
        } else {
          assert t != q;
          assert rest[t - 1] == x;
        }
      }
      assert Distinct(init) by {
        forall i, j | 0 <= i < j < |init| ensures init[i] != init[j] {
          assert init[i] == a[i] && init[j] == a[j];
        }
      }
      SubsetLength(init, rest);
    }
  }

  /** A duplicate-free sequence of indices below `n` that is shorter than `n`
      leaves some index below `n` out. */
  lemma MissingIndex(s: seq<nat>, n: nat)
    requires Distinct(s)
    requires forall i :: 0 <= i < |s| ==> s[i] < n
    requires |s| < n
    ensures exists j :: 0 <= j < n && j !in s
  {
    var r := Range(n);
    if forall j :: 0 <= j < n ==> j in s {
      forall x | x in r ensures x in s {
        var i :| 0 <= i < |r| && r[i] == x;
      }
      SubsetLength(r, s);
    }
  }

  /** A duplicate-free sequence of indices below `n` has at most `n` elements. */
  lemma IndicesBounded(s: seq<nat>, n: nat)
    requires Distinct(s)
    requires forall i :: 0 <= i < |s| ==> s[i] < n
    ensures |s| <= n
  {
    var r := Range(n);
    forall x | x in s ensures x in r {
      var i :| 0 <= i < |s| && s[i] == x;
      assert r[x] == x;
    }
    SubsetLength(s, r);
  }
}
