/** Numbers, sequences, and sizes of finite sets given by them. */
module Counting {
  function Min(x: int, y: int): (m: int) { if x < y then x else y }

  /** The sequence but for its element k. */
  function Without<T>(s: seq<T>, k: nat): (r: seq<T>)
    requires k < |s|
    ensures |r| == |s| - 1
    ensures forall i :: 0 <= i < k ==> r[i] == s[i]
    ensures forall i :: k <= i < |r| ==> r[i] == s[i + 1]
  {
    s[..k] + s[k + 1..]
  }

  function Below(n: nat): (s: set<nat>)
    ensures |s| == n && forall x :: x in s <==> 0 <= x < n
  {
    if n == 0 then {} else Below(n - 1) + {n - 1}
  }

  function Elements<T(==,!new)>(f: seq<T>): (s: set<T>)
    ensures (forall x :: x in s <==> x in f) && |s| <= |f|
  {
    if f == [] then {} else var n := |f| - 1; Elements(f[..n]) + {f[n]}
  }

  lemma {:induction false} ElementsDistinct<T(!new)>(f: seq<T>)
    requires forall t, u :: 0 <= t < u < |f| ==> f[t] != f[u]
    ensures |Elements(f)| == |f|
    decreases |f|
  {
    if f != [] {
      ElementsDistinct(f[..|f| - 1]);
    }
  }

  lemma {:induction false} SubsetSize<T>(s: set<T>, r: set<T>)
    requires s <= r
    ensures |s| <= |r|
    decreases s
  {
    if s != {} {
      var x :| x in s;
      SubsetSize(s - {x}, r - {x});
    }
  }

  lemma SubsetSame<T>(s: set<T>, r: set<T>)
    requires s <= r && |s| >= |r|
    ensures s == r
  {
    if x :| x in r && x !in s {
      SubsetSize(s + {x}, r);
    }
  }

  /** n distinct values below n are all the values below n. */
  lemma InjectiveOnto(f: seq<nat>, n: nat, x: nat)
    requires |f| == n && x < n
    requires forall t :: 0 <= t < n ==> f[t] < n
    requires forall t, u :: 0 <= t < u < n ==> f[t] != f[u]
    ensures x in f
  {
    ElementsDistinct(f);
    SubsetSame(Elements(f), Below(n));
    assert x in Below(n);
  }

  /** Distinct values below n: at most n of them. */
  lemma DistinctBelow(f: seq<nat>, n: nat)
    requires forall t :: 0 <= t < |f| ==> f[t] < n
    requires forall t, u :: 0 <= t < u < |f| ==> f[t] != f[u]
    ensures |f| <= n
  {
    ElementsDistinct(f);
    SubsetSize(Elements(f), Below(n));
  }

  /** Distinct values, all of them in g: at most as many as g has. */
  lemma DistinctInto<T(!new)>(f: seq<T>, g: seq<T>)
    requires forall t :: 0 <= t < |f| ==> f[t] in g
    requires forall t, u :: 0 <= t < u < |f| ==> f[t] != f[u]
    ensures |f| <= |g|
  {
    ElementsDistinct(f);
    SubsetSize(Elements(f), Elements(g));
  }
}
