/** Facts about finite sequences that every operator's proof leans on.  The functions
    recurse from the end, because channels and buffers grow there. */
module Sequences {

  datatype Option<+T> = None | Some(value: T) {
    function AsSeq(): seq<T> {
      match this
      case None => []
      case Some(v) => [v]
    }
  }

  ghost function Filter<T>(s: seq<T>, p: T -> bool): seq<T> {
    if s == [] then []
    else Filter(s[..|s| - 1], p) + (if p(s[|s| - 1]) then [s[|s| - 1]] else [])
  }

  ghost function Map<T, R>(s: seq<T>, f: T -> R): (r: seq<R>)
    ensures |r| == |s| && forall i | 0 <= i < |s| :: r[i] == f(s[i])
  {
    seq(|s|, i requires 0 <= i < |s| => f(s[i]))
  }

  ghost function Concat<T>(ss: seq<seq<T>>): seq<T> {
    if ss == [] then [] else Concat(ss[..|ss| - 1]) + ss[|ss| - 1]
  }

  ghost function HasKey<K, T>(key: T -> K, k: K): T -> bool {
    (x: T) => key(x) == k
  }

  ghost function KeysOf<K, T>(key: T -> K, s: seq<T>): set<K> {
    if s == [] then {} else KeysOf(key, s[..|s| - 1]) + {key(s[|s| - 1])}
  }

  ghost function IsNonempty<T>(): seq<T> -> bool {
    (s: seq<T>) => s != []
  }

  lemma {:induction false} KeyIsOf<K, T>(key: T -> K, s: seq<T>, x: T)
    requires x in s
    ensures key(x) in KeysOf(key, s)
  {
    if x != s[|s| - 1] {
      KeyIsOf(key, s[..|s| - 1], x);
    }
  }

  lemma {:induction false} KeysAre<K(!new), T>(key: T -> K, s: seq<T>)
    ensures forall k :: k in KeysOf(key, s) <==> exists i :: 0 <= i < |s| && key(s[i]) == k
  {
    if s != [] {
      var before := s[..|s| - 1];
      KeysAre(key, before);
      forall k | k in KeysOf(key, s) ensures exists i :: 0 <= i < |s| && key(s[i]) == k {
        if k != key(s[|s| - 1]) {
          assert k in KeysOf(key, before);
          var i :| 0 <= i < |before| && key(before[i]) == k;
          assert s[i] == before[i];
        }
      }
      forall i | 0 <= i < |s| ensures key(s[i]) in KeysOf(key, s) {
        KeyIsOf(key, s, s[i]);
      }
    }
  }

  lemma FilterSnoc<T>(s: seq<T>, x: T, p: T -> bool)
    ensures Filter(s + [x], p) == Filter(s, p) + (if p(x) then [x] else [])
  {
    assert (s + [x])[..|s|] == s;
  }

  lemma {:induction false} FilterAppend<T>(a: seq<T>, b: seq<T>, p: T -> bool)
    ensures Filter(a + b, p) == Filter(a, p) + Filter(b, p)
  {
    if b == [] {
      assert a + b == a;
    } else {
      var b' := b[..|b| - 1];
      assert a + b == (a + b') + [b[|b| - 1]];
      FilterAppend(a, b', p);
      FilterSnoc(a + b', b[|b| - 1], p);
    }
  }

  lemma {:induction false} FilterSame<T>(s: seq<T>, p: T -> bool, q: T -> bool)
    requires forall x | x in s :: p(x) == q(x)
    ensures Filter(s, p) == Filter(s, q)
  {
    if s != [] {
      FilterSame(s[..|s| - 1], p, q);
    }
  }

  lemma {:induction false} FilterAll<T>(s: seq<T>, p: T -> bool)
    requires forall x | x in s :: p(x)
    ensures Filter(s, p) == s
  {
    if s != [] {
      assert s == s[..|s| - 1] + [s[|s| - 1]];
      FilterAll(s[..|s| - 1], p);
    }
  }

  lemma {:induction false} FilterNone<T>(s: seq<T>, p: T -> bool)
    requires forall x | x in s :: !p(x)
    ensures Filter(s, p) == []
  {
    if s != [] {
      FilterNone(s[..|s| - 1], p);
    }
  }

  lemma {:induction false} FilterMembers<T>(s: seq<T>, p: T -> bool)
    ensures forall x | x in Filter(s, p) :: x in s && p(x)
    ensures forall x | x in s && p(x) :: x in Filter(s, p)
  {
    if s != [] {
      FilterMembers(s[..|s| - 1], p);
    }
  }

  lemma {:induction false} FilterFilter<T>(s: seq<T>, p: T -> bool, q: T -> bool, r: T -> bool)
    requires forall x | x in s :: r(x) == (p(x) && q(x))
    ensures Filter(Filter(s, p), q) == Filter(s, r)
  {
    if s != [] {
      var x := s[|s| - 1];
      FilterFilter(s[..|s| - 1], p, q, r);
      FilterAppend(Filter(s[..|s| - 1], p), if p(x) then [x] else [], q);
      FilterSnoc([], x, q);
    }
  }

  lemma MapSnoc<T, R>(s: seq<T>, x: T, f: T -> R)
    ensures Map(s + [x], f) == Map(s, f) + [f(x)]
  {
  }

  lemma {:induction false} FilterMap<T, R>(s: seq<T>, f: T -> R, q: R -> bool, r: T -> bool)
    requires forall x | x in s :: r(x) == q(f(x))
    ensures Filter(Map(s, f), q) == Map(Filter(s, r), f)
  {
    if s != [] {
      var s', x := s[..|s| - 1], s[|s| - 1];
      assert s == s' + [x];
      FilterMap(s', f, q, r);
      MapSnoc(s', x, f);
      FilterSnoc(Map(s', f), f(x), q);
      MapSnoc(Filter(s', r), x, f);
    }
  }

  lemma MultisetAround<T>(a: seq<T>, x: T, b: seq<T>)
    ensures multiset(a + [x] + b) == multiset(a + b) + multiset{x}
  {
  }

  // Removing x from the two sides of a permutation leaves a permutation.
  lemma PermutationWithout<T>(a: seq<T>, b0: seq<T>, x: T, b1: seq<T>)
    requires multiset(a + [x]) == multiset(b0 + [x] + b1)
    ensures multiset(a) == multiset(b0 + b1)
  {
    MultisetAround(b0, x, b1);
    assert multiset(a + [x]) == multiset(a) + multiset{x};
    assert multiset(a) == multiset(a) + multiset{x} - multiset{x};
    assert multiset(b0 + b1) == multiset(b0 + b1) + multiset{x} - multiset{x};
  }

  lemma FilterAround<T>(a: seq<T>, x: T, b: seq<T>, p: T -> bool)
    ensures multiset(Filter(a + [x] + b, p)) == multiset(Filter(a + b, p)) + if p(x) then multiset{x} else multiset{}
  {
    FilterAppend(a, b, p);
    FilterAppend(a + [x], b, p);
    FilterSnoc(a, x, p);
    if p(x) {
      MultisetAround(Filter(a, p), x, Filter(b, p));
    } else {
      assert Filter(a, p) + [] == Filter(a, p);
    }
  }

  lemma {:induction false} FilterPermutation<T>(a: seq<T>, b: seq<T>, p: T -> bool)
    requires multiset(a) == multiset(b)
    ensures multiset(Filter(a, p)) == multiset(Filter(b, p))
  {
    if a == [] {
      assert |b| == |multiset(b)| == |multiset(a)| == 0;
    } else {
      var a', x := a[..|a| - 1], a[|a| - 1];
      assert a == a' + [x];
      assert x in multiset(b);
      var i :| 0 <= i < |b| && b[i] == x;
      assert b == b[..i] + [x] + b[i + 1..];
      PermutationWithout(a', b[..i], x, b[i + 1..]);
      FilterPermutation(a', b[..i] + b[i + 1..], p);
      FilterAround(b[..i], x, b[i + 1..], p);
    }
  }

  // Two filters that between them let every element pass.
  lemma {:induction false} FiltersCover<T>(s: seq<T>, p: T -> bool, q: T -> bool)
    requires forall x | x in s :: p(x) || q(x)
    ensures multiset(s) <= multiset(Filter(s, p)) + multiset(Filter(s, q))
  {
    if s != [] {
      var s', x := s[..|s| - 1], s[|s| - 1];
      assert s == s' + [x];
      FiltersCover(s', p, q);
    }
  }

  lemma ConcatSnoc<T>(ss: seq<seq<T>>, s: seq<T>)
    ensures Concat(ss + [s]) == Concat(ss) + s
  {
    assert (ss + [s])[..|ss|] == ss;
  }

  lemma {:induction false} ConcatAppend<T>(a: seq<seq<T>>, b: seq<seq<T>>)
    ensures Concat(a + b) == Concat(a) + Concat(b)
  {
    if b == [] {
      assert a + b == a;
    } else {
      var b' := b[..|b| - 1];
      assert a + b == (a + b') + [b[|b| - 1]];
      ConcatAppend(a, b');
      ConcatSnoc(a + b', b[|b| - 1]);
    }
  }
}
