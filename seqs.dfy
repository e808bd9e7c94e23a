/** Facts about sequences that several modules state: picking elements in order. */
module Seqs {

  /** A prefix one longer is the prefix and the next element. */
  lemma TakeSnoc<T>(s: seq<T>, i: nat)
    requires i < |s|
    ensures s[..i] + [s[i]] == s[..i + 1]
  {
  }

  /** `sub` is `s` read at the strictly increasing positions `idx`. */
  ghost predicate PicksInOrder<T>(s: seq<T>, sub: seq<T>, idx: seq<nat>)
  {
    && |idx| == |sub|
    && (forall k :: 0 <= k < |idx| ==> idx[k] < |s| && s[idx[k]] == sub[k])
    && (forall k, l :: 0 <= k < l < |idx| ==> idx[k] < idx[l])
  }

  /** Picking one more element, from a position after all the others, keeps the order. */
  lemma PicksInOrderSnoc<T>(s: seq<T>, sub: seq<T>, idx: seq<nat>, n: nat)
    requires n < |s| && PicksInOrder(s[..n], sub, idx)
    ensures PicksInOrder(s, sub + [s[n]], idx + [n])
  {
    assert forall k :: 0 <= k < |idx| ==> s[idx[k]] == s[..n][idx[k]];
  }

  /** Every position one further along. */
  function Shifted(idx: seq<nat>): (r: seq<nat>)
    ensures |r| == |idx| && forall k :: 0 <= k < |idx| ==> r[k] == idx[k] + 1
  {
    seq(|idx|, k requires 0 <= k < |idx| => idx[k] + 1)
  }

  /** Picks from the tail of a sequence, one position further along, are picks from the sequence. */
  lemma PicksInOrderShifted<T>(s: seq<T>, sub: seq<T>, idx: seq<nat>)
    requires s != [] && PicksInOrder(s[1..], sub, idx)
    ensures PicksInOrder(s, sub, Shifted(idx))
  {
    assert forall k :: 0 <= k < |idx| ==> s[1..][idx[k]] == s[idx[k] + 1];
  }

  /** The first element can be picked before picks that avoid position 0. */
  lemma PicksInOrderPrepend<T>(s: seq<T>, sub: seq<T>, idx: seq<nat>)
    requires s != [] && PicksInOrder(s, sub, idx)
    requires forall k :: 0 <= k < |idx| ==> 0 < idx[k]
    ensures PicksInOrder(s, [s[0]] + sub, [0] + idx)
  {
    assert forall k :: 0 < k <= |idx| ==> ([0] + idx)[k] == idx[k - 1] && ([s[0]] + sub)[k] == sub[k - 1];
  }

  /** Picks from the tail of a sequence are picks from the sequence, one position further along. */
  lemma PicksInOrderCons<T>(s: seq<T>, sub: seq<T>, idx: seq<nat>) returns (shifted: seq<nat>)
    requires s != [] && PicksInOrder(s[1..], sub, idx)
    ensures PicksInOrder(s, sub, shifted) && PicksInOrder(s, [s[0]] + sub, [0] + shifted)
    ensures forall i :: 0 < i < |s| ==> (i in shifted <==> i - 1 in idx)
    ensures 0 !in shifted
  {
    shifted := Shifted(idx);
    PicksInOrderShifted(s, sub, idx);
    PicksInOrderPrepend(s, sub, shifted);
    forall i | 0 < i < |s| ensures i in shifted <==> i - 1 in idx {
      if i - 1 in idx {
        var k :| 0 <= k < |idx| && idx[k] == i - 1;
        assert shifted[k] == i;
      }
    }
  }
}
