/** The immutable interest table compiled from a scene patch: one offset mask per used universe. */
module RealtimeSubscription {
  import opened Prelude

  /** `used`, `masks` and `universes` stand for the membership bitset, the mask array and the sorted list. */
  datatype Subscription = Subscription(used: seq<bool>, masks: seq<set<nat>>, universes: seq<nat>) {
    predicate Contains(u: nat) {
      u < |used| && used[u]
    }

    function Offsets(u: nat): set<nat> {
      if u < |masks| then masks[u] else {}
    }

    ghost predicate Valid(n: nat, m: nat) {
      && |used| == |masks| == n
      && (forall u :: 0 <= u < n ==> (used[u] <==> masks[u] != {}))
      && (forall u :: 0 <= u < n ==> forall o :: o in masks[u] ==> o < m)
      && StrictlyIncreasing(universes)
      && (forall u: nat :: u in universes <==> Contains(u))
    }
  }

  /** Some entry of the patch asks for offset `o` of universe `u`. */
  ghost predicate Requested(entries: seq<(nat, seq<nat>)>, u: nat, o: nat) {
    exists k :: 0 <= k < |entries| && entries[k].0 == u && o in entries[k].1
  }

  /** Compiles the table; out-of-range universes and offsets are dropped, repeated entries accumulate. */
  method Build(entries: seq<(nat, seq<nat>)>, n: nat, m: nat) returns (result: Subscription)
    ensures result.Valid(n, m)
    ensures forall u: nat, o: nat :: o in result.Offsets(u) <==> u < n && o < m && Requested(entries, u, o)
    ensures forall u: nat :: result.Contains(u) <==> u < n && exists o: nat :: o < m && Requested(entries, u, o)
  {
    var used := seq(n, _ => false);
    var masks: seq<set<nat>> := seq(n, _ => {});
    var universes: seq<nat> := [];
    for k := 0 to |entries|
      invariant |used| == |masks| == n
      invariant forall u: nat, o: nat :: u < n ==> (o in masks[u] <==> o < m && Requested(entries[..k], u, o))
      invariant forall u :: 0 <= u < n ==> (used[u] <==> masks[u] != {})
      invariant Distinct(universes)
      invariant forall u: nat :: u in universes <==> u < n && used[u]
    {
      RequestedStep(entries, k);
      var universe, offsets := entries[k].0, entries[k].1;
      if universe >= n {
        continue;
      }
      var mask := masks[universe];
      for i := 0 to |offsets|
        invariant forall o :: o in mask <==> o in masks[universe] || (o < m && o in offsets[..i])
      {
        if offsets[i] < m {
          mask := mask + {offsets[i]};
        }
      }
      assert offsets[..|offsets|] == offsets;
      masks := masks[universe := mask];
      if mask != {} && !used[universe] {
        used := used[universe := true];
        universes := universes + [universe];
      }
    }
    assert entries[..|entries|] == entries;
    result := Subscription(used, masks, Sorted(universes));
    forall u: nat
      ensures result.Contains(u) <==> u < n && exists o: nat :: o < m && Requested(entries, u, o)
    {
      if u < n && used[u] {
        var o :| o in masks[u];
        assert o < m && Requested(entries, u, o);
      }
    }
  }

  lemma RequestedStep(entries: seq<(nat, seq<nat>)>, k: nat)
    requires k < |entries|
    ensures forall u: nat, o: nat :: Requested(entries[..k + 1], u, o) <==>
          Requested(entries[..k], u, o) || (entries[k].0 == u && o in entries[k].1)
  {
    var longer, shorter := entries[..k + 1], entries[..k];
    assert longer == shorter + [entries[k]];
    forall u: nat, o: nat
      ensures Requested(longer, u, o) <==> Requested(shorter, u, o) || (entries[k].0 == u && o in entries[k].1)
    {
      if Requested(shorter, u, o) {
        var i :| 0 <= i < |shorter| && shorter[i].0 == u && o in shorter[i].1;
        assert longer[i] == shorter[i];
      }
      if entries[k].0 == u && o in entries[k].1 {
        assert longer[k] == entries[k];
      }
    }
  }
}
