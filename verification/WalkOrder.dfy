/** Document order of walks through a tree of elements. */
module WalkOrder {
  /** An element on a walk and its place among its parent's children; roots and referenced elements are at 0. */
  datatype Stop<T> = Stop(e: T, at: nat)

  /** A parent before what lies below it, and what lies below an earlier child before the rest. */
  ghost predicate Precedes<T(!new)>(a: seq<Stop<T>>, b: seq<Stop<T>>) {
    exists k :: DivergesAt(a, b, k)
  }

  ghost predicate DivergesAt<T>(a: seq<Stop<T>>, b: seq<Stop<T>>, k: nat) {
    k <= |a| && k < |b| && a[..k] == b[..k] && (k == |a| || a[k].at < b[k].at)
  }

  ghost predicate InOrder<T(!new)>(walks: seq<seq<Stop<T>>>) {
    forall i, j :: 0 <= i < j < |walks| ==> Precedes(walks[i], walks[j])
  }

  lemma InOrderConcat<T(!new)>(a: seq<seq<Stop<T>>>, b: seq<seq<Stop<T>>>)
    requires InOrder(a) && InOrder(b) && forall i, j :: 0 <= i < |a| && 0 <= j < |b| ==> Precedes(a[i], b[j])
    ensures InOrder(a + b)
  {
    var all := a + b;
    forall i, j | 0 <= i < j < |all| ensures Precedes(all[i], all[j]) {
      if j < |a| {
        assert all[i] == a[i] && all[j] == a[j];
      } else if i >= |a| {
        assert all[i] == b[i - |a|] && all[j] == b[j - |a|];
      } else {
        assert all[i] == a[i] && all[j] == b[j - |a|];
      }
    }
  }
}
