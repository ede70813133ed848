/** Facts about sequences used by several programs. */
module Sequences {
  /** How many elements satisfy `p`. */
  ghost function Count<T>(s: seq<T>, p: T -> bool): nat {
    if s == [] then 0 else Count(s[..|s| - 1], p) + if p(s[|s| - 1]) then 1 else 0
  }

  lemma {:induction false} CountUpdate<T>(s: seq<T>, i: nat, x: T, p: T -> bool)
    requires i < |s|
    ensures Count(s[i := x], p) == Count(s, p) - (if p(s[i]) then 1 else 0) + (if p(x) then 1 else 0)
    ensures p(s[i]) ==> Count(s, p) > 0
  {
    var n := |s| - 1;
    if i == n {
      assert s[i := x][..n] == s[..n];
    } else {
      assert s[i := x][..n] == s[..n][i := x];
      CountUpdate(s[..n], i, x, p);
    }
  }

  lemma {:induction false} CountSame<T>(s: seq<T>, t: seq<T>, p: T -> bool)
    requires |s| == |t| && forall k | 0 <= k < |s| :: p(s[k]) == p(t[k])
    ensures Count(s, p) == Count(t, p)
  {
    if s != [] {
      CountSame(s[..|s| - 1], t[..|t| - 1], p);
    }
  }

  lemma {:induction false} CountAtMost<T(!new)>(s: seq<T>, p: T -> bool, q: T -> bool)
    requires forall x :: p(x) ==> q(x)
    ensures Count(s, p) <= Count(s, q)
  {
    if s != [] {
      CountAtMost(s[..|s| - 1], p, q);
    }
  }

  lemma {:induction false} CountBelow<T>(s: seq<T>, t: seq<T>, p: T -> bool)
    requires |s| == |t| && forall k | 0 <= k < |s| :: p(t[k]) ==> p(s[k])
    ensures Count(t, p) <= Count(s, p)
  {
    if s != [] {
      CountBelow(s[..|s| - 1], t[..|t| - 1], p);
    }
  }

  lemma {:induction false} CountOne<T>(s: seq<T>, p: T -> bool)
    requires forall i, j | 0 <= i < j < |s| :: !(p(s[i]) && p(s[j]))
    ensures Count(s, p) <= 1
  {
    if s != [] {
      var n := |s| - 1;
      CountOne(s[..n], p);
      if p(s[n]) { CountAll(s[..n], p, false); }
    }
  }

  lemma {:induction false} CountPositive<T>(s: seq<T>, p: T -> bool) returns (i: nat)
    requires Count(s, p) > 0
    ensures i < |s| && p(s[i])
  {
    var n := |s| - 1;
    if p(s[n]) {
      i := n;
    } else {
      i := CountPositive(s[..n], p);
    }
  }

  lemma {:induction false} CountAll<T>(s: seq<T>, p: T -> bool, all: bool)
    requires forall k | 0 <= k < |s| :: p(s[k]) == all
    ensures Count(s, p) == if all then |s| else 0
  {
    if s != [] {
      CountAll(s[..|s| - 1], p, all);
    }
  }

  lemma CountGrow<T>(s: seq<T>, x: T, p: T -> bool)
    ensures Count(s + [x], p) == Count(s, p) + if p(x) then 1 else 0
  {
  }

  lemma {:induction false} CountTwo<T>(s: seq<T>, i: nat, j: nat, p: T -> bool)
    requires i < j < |s| && p(s[i]) && p(s[j])
    ensures Count(s, p) >= 2
  {
    var n := |s| - 1;
    if j == n {
      assert p(s[..n][i]);
      CountUpdate(s[..n], i, s[i], p);
    } else {
      CountTwo(s[..n], i, j, p);
    }
  }

  lemma Regroup<T>(a: seq<T>, b: seq<T>, c: seq<T>)
    ensures (a + b) + c == a + (b + c)
  {
  }
}
