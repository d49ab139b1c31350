/** Sums of integer weights over a sequence: the counting argument shared by the step machines. */
module Tally {

  function Sum<T>(w: T -> int, s: seq<T>): int {
    if s == [] then 0 else w(s[0]) + Sum(w, s[1..])
  }

  /** Changing one entry changes the sum by the difference of the two weights. */
  lemma {:induction false} SumUpdate<T>(w: T -> int, s: seq<T>, i: nat, x: T)
    requires i < |s|
    ensures Sum(w, s[i := x]) == Sum(w, s) - w(s[i]) + w(x)
  {
    if i == 0 {
      assert s[i := x][1..] == s[1..];
    } else {
      assert s[i := x][1..] == s[1..][i - 1 := x];
      SumUpdate(w, s[1..], i - 1, x);
    }
  }

  lemma {:induction false} SumConcat<T>(w: T -> int, s: seq<T>, t: seq<T>)
    ensures Sum(w, s + t) == Sum(w, s) + Sum(w, t)
  {
    if s == [] {
      assert s + t == t;
    } else {
      assert (s + t)[1..] == s[1..] + t;
      SumConcat(w, s[1..], t);
    }
  }

  lemma SumOne<T>(w: T -> int, x: T)
    ensures Sum(w, [x]) == w(x)
  {
    assert [x][1..] == [];
  }

  /** Weights that are pointwise related give sums related in the same way. */
  lemma {:induction false} SumLeq<T>(u: T -> int, s: seq<T>, w: T -> int, t: seq<T>)
    requires |s| == |t|
    requires forall i :: 0 <= i < |s| ==> u(s[i]) <= w(t[i])
    ensures Sum(u, s) <= Sum(w, t)
  {
    if s != [] {
      SumLeq(u, s[1..], w, t[1..]);
    }
  }

  lemma SumSame<T>(w: T -> int, s: seq<T>, t: seq<T>)
    requires |s| == |t|
    requires forall i :: 0 <= i < |s| ==> w(s[i]) == w(t[i])
    ensures Sum(w, s) == Sum(w, t)
  {
    SumLeq(w, s, w, t);
    SumLeq(w, t, w, s);
  }

  lemma {:induction false} SumZero<T>(w: T -> int, s: seq<T>)
    requires forall i :: 0 <= i < |s| ==> w(s[i]) == 0
    ensures Sum(w, s) == 0
  {
    if s != [] {
      SumZero(w, s[1..]);
    }
  }

  lemma {:induction false} SumScaled<T(!new)>(k: int, u: T -> int, v: T -> int, w: T -> int, s: seq<T>)
    requires forall x :: w(x) == k * (u(x) + v(x))
    ensures Sum(w, s) == k * (Sum(u, s) + Sum(v, s))
  {
    if s != [] {
      SumScaled(k, u, v, w, s[1..]);
    }
  }

  lemma {:induction false} SumAtMost<T>(w: T -> int, k: int, s: seq<T>)
    requires forall i :: 0 <= i < |s| ==> w(s[i]) <= k
    ensures Sum(w, s) <= k * |s|
  {
    if s != [] {
      SumAtMost(w, k, s[1..]);
    }
  }

  /** Weights of at most 1 that are 0 outside a window of k entries sum to at most k. */
  lemma {:induction false} SumWindow<T>(w: T -> int, s: seq<T>, a: nat, k: nat)
    requires forall i :: 0 <= i < |s| ==> w(s[i]) <= if a <= i < a + k then 1 else 0
    ensures Sum(w, s) <= k
    decreases s
  {
    if s != [] {
      var first := if a > 0 then a - 1 else 0;
      var size := if a > 0 || k == 0 then k else k - 1;
      forall i | 0 <= i < |s[1..]| ensures w(s[1..][i]) <= if first <= i < first + size then 1 else 0 {
        assert s[1..][i] == s[i + 1];
      }
      SumWindow(w, s[1..], first, size);
    }
  }
}
