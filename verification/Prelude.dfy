/** Small vocabulary shared by every module: optional values, failures and facts about sequences. */
module Prelude {

  datatype Option<+T> = None | Some(value: T)

  /** A call that may throw: the value it returns, or the text of the exception. */
  datatype Result<+T> = Ok(value: T) | Err(reason: string)

  ghost predicate NoDup<T>(s: seq<T>) {
    forall i, j :: 0 <= i < j < |s| ==> s[i] != s[j]
  }

  /** The list without the node x, as std::list::erase and splice leave it. */
  function Without<T(==)>(s: seq<T>, x: T): seq<T> {
    if s == [] then []
    else if s[0] == x then s[1..]
    else [s[0]] + Without(s[1..], x)
  }

  lemma {:induction false} WithoutRemoves<T>(s: seq<T>, x: T)
    requires NoDup(s) && x in s
    ensures NoDup(Without(s, x)) && |Without(s, x)| == |s| - 1
    ensures forall y :: y in Without(s, x) <==> y in s && y != x
  {
    if s[0] == x {
      assert s == [x] + s[1..];
    } else {
      assert s == [s[0]] + s[1..];
      assert NoDup(s[1..]);
      WithoutRemoves(s[1..], x);
      assert s[0] !in s[1..];
    }
  }

  /** The numbers 1, 2, ..., n. */
  function UpTo(n: nat): (r: seq<nat>)
    ensures |r| == n && forall k :: 0 <= k < n ==> r[k] == k + 1
  {
    seq(n, k requires 0 <= k => k + 1)
  }

  ghost predicate Increasing(s: seq<nat>) {
    forall i, j :: 0 <= i < j < |s| ==> s[i] < s[j]
  }

  /** Position of the first c, or the length. */
  function Find(s: string, c: char): (k: nat)
    ensures k <= |s| && (forall j :: 0 <= j < k ==> s[j] != c) && (k < |s| ==> s[k] == c)
  {
    if s == "" || s[0] == c then 0 else 1 + Find(s[1..], c)
  }

  lemma {:induction false} FindFirst(a: string, c: char, b: string)
    requires c !in a
    ensures Find(a + [c] + b, c) == |a|
  {
    if a == "" {
      assert (a + [c] + b)[0] == c;
    } else {
      var rest := a[1..] + [c] + b;
      assert a + [c] + b == [a[0]] + rest;
      assert a[0] in a && forall d :: d in a[1..] ==> d in a;
      FindFirst(a[1..], c, b);
    }
  }

  lemma {:induction false} FindNone(s: string, c: char)
    requires c !in s
    ensures Find(s, c) == |s|
  {
    if s != "" {
      assert s[0] in s && forall d :: d in s[1..] ==> d in s;
      FindNone(s[1..], c);
    }
  }

  lemma {:induction false} FindBefore(s: string, c: char, k: nat)
    requires k < |s| && s[k] == c
    ensures Find(s, c) <= k
  {
    if s[0] != c { FindBefore(s[1..], c, k - 1); }
  }

  lemma SplitsAt(s: string, c: char, k: nat)
    requires k < |s| && s[k] == c
    ensures var f := Find(s, c); f <= k && s == s[..f] + [c] + s[f + 1..]
  {
    FindBefore(s, c, k);
  }
}
