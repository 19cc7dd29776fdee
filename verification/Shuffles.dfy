/** Outputs that several goroutines interleave on one channel.  Each item carries, as
    history, the goroutine or the input element it comes from. */
module Shuffles {
  import opened Sequences

  // The items that come from k, in order.
  ghost function Branch<K, V>(out: seq<(K, V)>, k: K): seq<V> {
    if out == [] then []
    else Branch(out[..|out| - 1], k) + if out[|out| - 1].0 == k then [out[|out| - 1].1] else []
  }

  // What a receiver sees.
  ghost function Untagged<K, V>(out: seq<(K, V)>): (r: seq<V>)
    ensures |r| == |out|
  {
    if out == [] then [] else Untagged(out[..|out| - 1]) + [out[|out| - 1].1]
  }

  // out interleaves the parts: each part appears in it, whole and in order, and nothing
  // else does.
  ghost predicate IsShuffle<V>(out: seq<(nat, V)>, parts: seq<seq<V>>) {
    && (forall p | p in out :: p.0 < |parts|)
    && forall j: nat | j < |parts| :: Branch(out, j) == parts[j]
  }

  lemma BranchSnoc<K, V>(out: seq<(K, V)>, k: K, v: V)
    ensures Untagged(out + [(k, v)]) == Untagged(out) + [v]
    ensures Branch(out + [(k, v)], k) == Branch(out, k) + [v]
    ensures forall l | l != k :: Branch(out + [(k, v)], l) == Branch(out, l)
  {
    assert (out + [(k, v)])[..|out|] == out;
  }

  // An item moves from what is still to come to the channel.
  lemma UntaggedMoves<K, V>(out: seq<(K, V)>, k: K, v: V, rest: seq<V>)
    ensures Untagged(out + [(k, v)]) + rest == Untagged(out) + ([v] + rest)
  {
    BranchSnoc(out, k, v);
  }

  lemma {:induction false} BranchOfStranger<K, V>(out: seq<(K, V)>, k: K)
    requires forall p | p in out :: p.0 != k
    ensures Branch(out, k) == []
  {
    if out != [] {
      BranchOfStranger(out[..|out| - 1], k);
    }
  }

  lemma {:induction false} ConcatGrows<V>(parts: seq<seq<V>>, j: nat, v: V)
    requires j < |parts|
    ensures multiset(Concat(parts[j := parts[j] + [v]])) == multiset(Concat(parts)) + multiset{v}
  {
    var n := |parts| - 1;
    var parts' := parts[j := parts[j] + [v]];
    if j == n {
      assert parts'[..n] == parts[..n];
      assert Concat(parts') == Concat(parts) + [v];
    } else {
      ConcatGrows(parts[..n], j, v);
      assert parts'[..n] == parts[..n][j := parts[j] + [v]];
    }
  }

  lemma {:induction false} ConcatOfEmpty<V>(parts: seq<seq<V>>)
    requires forall j | 0 <= j < |parts| :: parts[j] == []
    ensures Concat(parts) == []
  {
    if parts != [] {
      ConcatOfEmpty(parts[..|parts| - 1]);
    }
  }

  // A shuffle holds the items of its parts, each as often as they do.
  lemma {:induction false} ShuffleIsPermutation<V>(out: seq<(nat, V)>, parts: seq<seq<V>>)
    requires IsShuffle(out, parts)
    ensures multiset(Untagged(out)) == multiset(Concat(parts))
  {
    if out == [] {
      ConcatOfEmpty(parts);
    } else {
      var out', j, v := out[..|out| - 1], out[|out| - 1].0, out[|out| - 1].1;
      assert out == out' + [(j, v)];
      BranchSnoc(out', j, v);
      var parts' := parts[j := Branch(out', j)];
      assert parts == parts'[j := parts'[j] + [v]];
      ShuffleIsPermutation(out', parts');
      ConcatGrows(parts', j, v);
    }
  }

  lemma {:induction false} BranchAppend<K, V>(a: seq<(K, V)>, b: seq<(K, V)>, k: K)
    ensures Branch(a + b, k) == Branch(a, k) + Branch(b, k)
    ensures Untagged(a + b) == Untagged(a) + Untagged(b)
  {
    if b == [] {
      assert a + b == a;
    } else {
      var b', t := b[..|b| - 1], b[|b| - 1];
      assert a + b == (a + b') + [t];
      BranchAppend(a, b', k);
      BranchSnoc(a + b', t.0, t.1);
    }
  }

  // Splits at the last item that comes from k.
  lemma {:induction false} LastOf<K, V>(out: seq<(K, V)>, k: K) returns (a: seq<(K, V)>, b: seq<(K, V)>)
    requires Branch(out, k) != []
    ensures out == a + [(k, Branch(out, k)[|Branch(out, k)| - 1])] + b
    ensures Branch(b, k) == []
  {
    var n := |out| - 1;
    if out[n].0 == k {
      a, b := out[..n], [];
    } else {
      a, b := LastOf(out[..n], k);
      BranchSnoc(b, out[n].0, out[n].1);
      b := b + [out[n]];
    }
  }

  lemma UntaggedAround<K, V>(a: seq<(K, V)>, k: K, v: V, b: seq<(K, V)>)
    ensures multiset(Untagged(a + [(k, v)] + b)) == multiset(Untagged(a + b)) + multiset{v}
    ensures Branch(a + [(k, v)] + b, k) == Branch(a, k) + [v] + Branch(b, k)
    ensures Branch(a + b, k) == Branch(a, k) + Branch(b, k)
    ensures forall l | l != k :: Branch(a + [(k, v)] + b, l) == Branch(a + b, l)
  {
    BranchSnoc(a, k, v);
    BranchAppend(a, b, k);
    BranchAppend(a + [(k, v)], b, k);
    MultisetAround(Untagged(a), v, Untagged(b));
    forall l | l != k ensures Branch(a + [(k, v)] + b, l) == Branch(a + b, l) {
      BranchAppend(a, b, l);
      BranchAppend(a + [(k, v)], b, l);
    }
  }

  // Taking the last item of k out of two outputs with the same branches leaves two outputs
  // with the same branches.
  lemma WithoutLast<K(!new), V>(x: seq<(K, V)>, k: K, v: V, a: seq<(K, V)>, b: seq<(K, V)>)
    requires forall l :: Branch(x + [(k, v)], l) == Branch(a + [(k, v)] + b, l)
    requires Branch(b, k) == []
    ensures forall l :: Branch(x, l) == Branch(a + b, l)
  {
    BranchSnoc(x, k, v);
    UntaggedAround(a, k, v, b);
    forall l ensures Branch(x, l) == Branch(a + b, l) {
      assert Branch(x + [(k, v)], l) == Branch(a + [(k, v)] + b, l);
      if l == k {
        assert Branch(x, k) + [v] == Branch(a, k) + [v] + [];
        assert (Branch(x, k) + [v])[..|Branch(x, k)|] == Branch(x, k);
        assert (Branch(a, k) + [v] + [])[..|Branch(a, k)|] == Branch(a, k);
      }
    }
  }

  // Two outputs with the same branches hold the same items, each as often.
  lemma {:induction false} SameBranchesPermute<K(!new), V>(x: seq<(K, V)>, y: seq<(K, V)>)
    requires forall k :: Branch(x, k) == Branch(y, k)
    ensures multiset(Untagged(x)) == multiset(Untagged(y))
  {
    if x == [] {
      if y != [] {
        assert Branch(x, y[|y| - 1].0) == [];
        assert false;
      }
    } else {
      var x', k, v := x[..|x| - 1], x[|x| - 1].0, x[|x| - 1].1;
      assert x == x' + [(k, v)];
      BranchSnoc(x', k, v);
      var a, b := LastOf(y, k);
      assert y == a + [(k, v)] + b;
      WithoutLast(x', k, v, a, b);
      SameBranchesPermute(x', a + b);
      UntaggedAround(a, k, v, b);
    }
  }
}
