/** Counting with finite sets: what distinct numbers in a range amount to. */
module Counting {

  /** n distinct numbers below n are all of them. */
  lemma Listed(order: seq<int>, n: nat, i: int)
    requires |order| == n && forall j :: 0 <= j < n ==> 0 <= order[j] < n
    requires forall j, k :: 0 <= j < k < n ==> order[j] != order[k]
    requires 0 <= i < n
    ensures i in order
  {
    if i !in order {
      SizeOfDistinct(order, n);
      assert order[..n] == order;
      SubsetSize(Elements(order), Below(n) - {i});
      assert false;
    }
  }

  ghost function Elements(order: seq<int>): (s: set<int>)
    ensures forall x :: x in s <==> x in order
  {
    set x | x in order
  }

  ghost function Below(n: nat): (s: set<int>)
    ensures |s| == n && forall x :: x in s <==> 0 <= x < n
  {
    if n == 0 then {} else Below(n - 1) + {n - 1}
  }

  lemma {:induction false} SizeOfDistinct(order: seq<int>, k: nat)
    requires k <= |order| && forall i, j :: 0 <= i < j < |order| ==> order[i] != order[j]
    ensures |Elements(order[..k])| == k
  {
    if k > 0 {
      SizeOfDistinct(order, k - 1);
      assert Elements(order[..k]) == Elements(order[..k - 1]) + {order[k - 1]};
      assert order[k - 1] !in order[..k - 1];
    } else {
      assert Elements(order[..0]) == {};
    }
  }

  lemma SubsetSize(a: set<int>, b: set<int>)
    requires a <= b
    ensures |a| <= |b|
  {
    assert |b - a| + |a| == |b|;
  }

  /** k distinct numbers below n, not all of them, are fewer than n. */
  lemma Fewer(order: seq<int>, n: nat, missing: int)
    requires forall j :: 0 <= j < |order| ==> 0 <= order[j] < n
    requires forall j, k :: 0 <= j < k < |order| ==> order[j] != order[k]
    requires 0 <= missing < n && missing !in order
    ensures |order| < n
  {
    SizeOfDistinct(order, |order|);
    assert order[..|order|] == order;
    SubsetSize(Elements(order), Below(n) - {missing});
  }
}
