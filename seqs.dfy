/**
 * Sequence operations behind the extractors' result lists: `filter`,
 * `slice(0, n)`, the keep-the-first-occurrence-per-key pass that removes
 * duplicate skills, and the subsequence relation used to say that these
 * operations keep the input's order.
 */
module Seqs {

  /** `xs.filter(p)`. */
  function Filter<T>(xs: seq<T>, p: T -> bool): (r: seq<T>)
    ensures |r| <= |xs|
    ensures forall i :: 0 <= i < |r| ==> p(r[i])
  {
    if xs == [] then []
    else Filter(xs[..|xs| - 1], p) + (if p(xs[|xs| - 1]) then [xs[|xs| - 1]] else [])
  }

  /** `xs.slice(0, n)`. */
  function Take<T>(xs: seq<T>, n: nat): (r: seq<T>)
    ensures r <= xs
    ensures |r| == if |xs| <= n then |xs| else n
  {
    if |xs| <= n then xs else xs[..n]
  }

  /** The keys of the elements of `xs`. */
  function KeySet<T, K(==)>(xs: seq<T>, key: T -> K): set<K> {
    set i | 0 <= i < |xs| :: key(xs[i])
  }

  /**
   * The elements of `xs` whose key has not appeared earlier, in order:
   * what the scraper's `seen`-set loops keep.
   */
  function Firsts<T, K(==)>(xs: seq<T>, key: T -> K): (r: seq<T>)
    ensures |r| <= |xs|
  {
    if xs == [] then []
    else
      var init := xs[..|xs| - 1];
      var x := xs[|xs| - 1];
      Firsts(init, key) + (if key(x) in KeySet(init, key) then [] else [x])
  }

  /** `a` can be obtained from `b` by deleting elements. */
  predicate IsSubseq<T(==)>(a: seq<T>, b: seq<T>)
    decreases |b|
  {
    a == [] || (b != [] &&
      if a[|a| - 1] == b[|b| - 1] then IsSubseq(a[..|a| - 1], b[..|b| - 1])
      else IsSubseq(a, b[..|b| - 1]))
  }

  lemma KeySetSnoc<T, K>(xs: seq<T>, x: T, key: T -> K)
    ensures KeySet(xs + [x], key) == KeySet(xs, key) + {key(x)}
  {
    var ys := xs + [x];
    assert forall i :: 0 <= i < |xs| ==> ys[i] == xs[i];
    assert ys[|xs|] == x;
  }

  lemma FilterSnoc<T>(xs: seq<T>, x: T, p: T -> bool)
    ensures Filter(xs + [x], p) == Filter(xs, p) + (if p(x) then [x] else [])
  {
    assert (xs + [x])[..|xs|] == xs;
  }

  /** A first element survives `Firsts` exactly when its key is new. */
  lemma FirstsSnoc<T, K>(xs: seq<T>, x: T, key: T -> K)
    ensures Firsts(xs + [x], key) == Firsts(xs, key) + (if key(x) in KeySet(xs, key) then [] else [x])
  {
    assert (xs + [x])[..|xs|] == xs;
  }

  /** Removing duplicates loses no key. */
  lemma {:induction false} FirstsKeySet<T, K>(xs: seq<T>, key: T -> K)
    ensures KeySet(Firsts(xs, key), key) == KeySet(xs, key)
    decreases |xs|
  {
    if xs != [] {
      var init, x := xs[..|xs| - 1], xs[|xs| - 1];
      assert xs == init + [x];
      FirstsKeySet(init, key);
      KeySetSnoc(init, x, key);
      if key(x) !in KeySet(init, key) {
        assert Firsts(xs, key) == Firsts(init, key) + [x];
        KeySetSnoc(Firsts(init, key), x, key);
      } else {
        assert Firsts(xs, key) == Firsts(init, key);
      }
    }
  }

  /** No two kept elements share a key. */
  lemma {:induction false} FirstsDistinct<T, K>(xs: seq<T>, key: T -> K)
    ensures forall i, j :: 0 <= i < j < |Firsts(xs, key)| ==> key(Firsts(xs, key)[i]) != key(Firsts(xs, key)[j])
    decreases |xs|
  {
    if xs != [] {
      var init, x := xs[..|xs| - 1], xs[|xs| - 1];
      FirstsDistinct(init, key);
      FirstsKeySet(init, key);
      var f := Firsts(init, key);
      if key(x) !in KeySet(init, key) {
        var r := f + [x];
        forall i, j | 0 <= i < j < |r| ensures key(r[i]) != key(r[j]) {
          if j == |f| {
            assert r[i] == f[i];
            assert key(f[i]) in KeySet(f, key);
          }
        }
      }
    }
  }

  /** `xs[i]` is the first element of `xs` with its key. */
  ghost predicate IsFirstAt<T, K>(xs: seq<T>, key: T -> K, i: int) {
    0 <= i < |xs| && key(xs[i]) !in KeySet(xs[..i], key)
  }

  /** Every kept element is an element of the input whose key no earlier element has. */
  lemma {:induction false} FirstsAreFirst<T, K>(xs: seq<T>, key: T -> K, k: nat)
    requires k < |Firsts(xs, key)|
    ensures exists i :: IsFirstAt(xs, key, i) && xs[i] == Firsts(xs, key)[k]
    decreases |xs|
  {
    var init, x := xs[..|xs| - 1], xs[|xs| - 1];
    var f := Firsts(init, key);
    var r := Firsts(xs, key);
    assert r == f + (if key(x) in KeySet(init, key) then [] else [x]);
    if k < |f| {
      FirstsAreFirst(init, key, k);
      var i :| IsFirstAt(init, key, i) && init[i] == f[k];
      assert xs[..i] == init[..i];
      assert IsFirstAt(xs, key, i) && xs[i] == r[k];
    } else {
      var i := |xs| - 1;
      assert xs[..i] == init;
      assert IsFirstAt(xs, key, i) && xs[i] == r[k];
    }
  }

  lemma {:induction false} SubseqSnoc<T>(a: seq<T>, b: seq<T>, x: T)
    requires IsSubseq(a, b)
    ensures IsSubseq(a, b + [x])
    decreases |a| + |b|, 1
  {
    var c := b + [x];
    assert c[..|c| - 1] == b;
    if a != [] && a[|a| - 1] == x {
      SubseqDropLast(a, b);
    }
  }

  lemma {:induction false} SubseqDropLast<T>(a: seq<T>, b: seq<T>)
    requires a != [] && IsSubseq(a, b)
    ensures IsSubseq(a[..|a| - 1], b)
    decreases |a| + |b|, 0
  {
    var b' := b[..|b| - 1];
    assert b == b' + [b[|b| - 1]];
    if a[|a| - 1] == b[|b| - 1] {
      SubseqSnoc(a[..|a| - 1], b', b[|b| - 1]);
    } else {
      SubseqDropLast(a, b');
      SubseqSnoc(a[..|a| - 1], b', b[|b| - 1]);
    }
  }

  lemma {:induction false} SubseqRefl<T>(a: seq<T>)
    ensures IsSubseq(a, a)
    decreases |a|
  {
    if a != [] {
      SubseqRefl(a[..|a| - 1]);
    }
  }

  lemma {:induction false} SubseqTrans<T>(a: seq<T>, b: seq<T>, c: seq<T>)
    requires IsSubseq(a, b) && IsSubseq(b, c)
    ensures IsSubseq(a, c)
    decreases |c|
  {
    if a != [] {
      var b', c' := b[..|b| - 1], c[..|c| - 1];
      assert c == c' + [c[|c| - 1]];
      if b[|b| - 1] == c[|c| - 1] {
        if a[|a| - 1] == b[|b| - 1] {
          SubseqTrans(a[..|a| - 1], b', c');
        } else {
          SubseqTrans(a, b', c');
          SubseqSnoc(a, c', c[|c| - 1]);
        }
      } else {
        SubseqTrans(a, b, c');
        SubseqSnoc(a, c', c[|c| - 1]);
      }
    }
  }

  lemma {:induction false} PrefixIsSubseq<T>(a: seq<T>, b: seq<T>)
    requires a <= b
    ensures IsSubseq(a, b)
    decreases |b|
  {
    if a == b {
      SubseqRefl(a);
    } else {
      var b' := b[..|b| - 1];
      assert a <= b';
      PrefixIsSubseq(a, b');
      assert b == b' + [b[|b| - 1]];
      SubseqSnoc(a, b', b[|b| - 1]);
    }
  }

  /** Filtering keeps the order of the input. */
  lemma {:induction false} FilterIsSubseq<T>(xs: seq<T>, p: T -> bool)
    ensures IsSubseq(Filter(xs, p), xs)
    decreases |xs|
  {
    if xs != [] {
      var init, x := xs[..|xs| - 1], xs[|xs| - 1];
      FilterIsSubseq(init, p);
      assert xs == init + [x];
      if !p(x) {
        assert Filter(xs, p) == Filter(init, p);
        SubseqSnoc(Filter(init, p), init, x);
      } else {
        var r := Filter(xs, p);
        assert r[..|r| - 1] == Filter(init, p);
      }
    }
  }

  /** Removing duplicates keeps the order of the input. */
  lemma {:induction false} FirstsIsSubseq<T, K>(xs: seq<T>, key: T -> K)
    ensures IsSubseq(Firsts(xs, key), xs)
    decreases |xs|
  {
    if xs != [] {
      var init, x := xs[..|xs| - 1], xs[|xs| - 1];
      FirstsIsSubseq(init, key);
      assert xs == init + [x];
      if key(x) in KeySet(init, key) {
        assert Firsts(xs, key) == Firsts(init, key);
        SubseqSnoc(Firsts(init, key), init, x);
      } else {
        var r := Firsts(xs, key);
        assert r[..|r| - 1] == Firsts(init, key);
      }
    }
  }

  /** Filtering a prefix gives a prefix of the filtered whole. */
  lemma {:induction false} FilterOfPrefix<T>(a: seq<T>, b: seq<T>, p: T -> bool)
    requires a <= b
    ensures Filter(a, p) <= Filter(b, p)
    decreases |b|
  {
    if a != b {
      var b' := b[..|b| - 1];
      assert a <= b';
      FilterOfPrefix(a, b', p);
    }
  }

  /** Removing duplicates from a prefix gives a prefix of the result for the whole. */
  lemma {:induction false} FirstsOfPrefix<T, K>(a: seq<T>, b: seq<T>, key: T -> K)
    requires a <= b
    ensures Firsts(a, key) <= Firsts(b, key)
    decreases |b|
  {
    if a != b {
      var b' := b[..|b| - 1];
      assert a <= b';
      FirstsOfPrefix(a, b', key);
    }
  }

  /** The first element of a filter is the first element that passes it. */
  lemma {:induction false} FilterHead<T>(xs: seq<T>, p: T -> bool)
    ensures Filter(xs, p) != [] <==> exists i :: 0 <= i < |xs| && p(xs[i])
    ensures Filter(xs, p) != [] ==>
      exists i :: 0 <= i < |xs| && p(xs[i]) && Filter(xs, p)[0] == xs[i] && forall j :: 0 <= j < i ==> !p(xs[j])
    decreases |xs|
  {
    if xs != [] {
      var init, x := xs[..|xs| - 1], xs[|xs| - 1];
      FilterHead(init, p);
      assert forall j :: 0 <= j < |init| ==> init[j] == xs[j];
      if Filter(init, p) == [] && p(x) {
        assert Filter(xs, p)[0] == xs[|xs| - 1];
      }
    }
  }

  /** Every element that passes the test is kept. */
  lemma {:induction false} FilterComplete<T>(xs: seq<T>, p: T -> bool, i: nat)
    requires i < |xs| && p(xs[i])
    ensures xs[i] in Filter(xs, p)
    decreases |xs|
  {
    var init := xs[..|xs| - 1];
    if i < |init| {
      FilterComplete(init, p, i);
      assert init[i] == xs[i];
    }
  }

  /** `FilterComplete` for every index at once. */
  lemma FilterKeepsAll<T>(xs: seq<T>, p: T -> bool)
    ensures forall i :: 0 <= i < |xs| && p(xs[i]) ==> xs[i] in Filter(xs, p)
  {
    forall i | 0 <= i < |xs| && p(xs[i])
      ensures xs[i] in Filter(xs, p)
    {
      FilterComplete(xs, p, i);
    }
  }

  /** Filtering keeps every passing element as often as it occurs, and no other element. */
  lemma {:induction false} FilterMultiset<T>(xs: seq<T>, p: T -> bool)
    ensures forall t :: multiset(Filter(xs, p))[t] == if p(t) then multiset(xs)[t] else 0
    decreases |xs|
  {
    if xs != [] {
      var init, x := xs[..|xs| - 1], xs[|xs| - 1];
      FilterMultiset(init, p);
      assert xs == init + [x];
      assert multiset(xs) == multiset(init) + multiset{x};
      assert Filter(xs, p) == Filter(init, p) + (if p(x) then [x] else []);
    }
  }

  /** Every element kept by a filter is an element of the input. */
  lemma {:induction false} FilterIsSubseqMembers<T>(xs: seq<T>, p: T -> bool)
    ensures forall i :: 0 <= i < |Filter(xs, p)| ==> Filter(xs, p)[i] in xs
    decreases |xs|
  {
    if xs != [] {
      var init := xs[..|xs| - 1];
      FilterIsSubseqMembers(init, p);
      assert forall x :: x in init ==> x in xs;
    }
  }

  /** The `k`-th kept element sits at some index `i` of the input, and the filter of what precedes it is what precedes it in the result. */
  lemma {:induction false} FilterIndex<T>(xs: seq<T>, p: T -> bool, k: nat)
    requires k < |Filter(xs, p)|
    ensures exists i :: 0 <= i < |xs| && p(xs[i]) && Filter(xs, p)[k] == xs[i] && Filter(xs[..i], p) == Filter(xs, p)[..k]
    decreases |xs|
  {
    var init, x := xs[..|xs| - 1], xs[|xs| - 1];
    var f := Filter(init, p);
    assert Filter(xs, p) == f + (if p(x) then [x] else []);
    if k < |f| {
      FilterIndex(init, p, k);
      var i :| 0 <= i < |init| && p(init[i]) && f[k] == init[i] && Filter(init[..i], p) == f[..k];
      assert xs[..i] == init[..i];
      assert Filter(xs, p)[..k] == f[..k];
    } else {
      assert xs[..|xs| - 1] == init;
      assert Filter(xs, p)[..k] == f;
    }
  }

  /** A member of a sequence contributes its key. */
  lemma KeyOfMember<T, K>(xs: seq<T>, key: T -> K, x: T)
    requires x in xs
    ensures key(x) in KeySet(xs, key)
  {
    var m :| 0 <= m < |xs| && xs[m] == x;
  }

  /**
   * Keeping the first element per key among those that pass a test: the
   * `k`-th result is the input element at some index `i` that passes, and
   * no earlier passing element has its key.
   */
  lemma FirstsOfFilterAreFirst<T, K>(xs: seq<T>, p: T -> bool, key: T -> K, k: nat)
    requires k < |Firsts(Filter(xs, p), key)|
    ensures exists i :: 0 <= i < |xs| && p(xs[i]) && xs[i] == Firsts(Filter(xs, p), key)[k] &&
                        (forall j :: 0 <= j < i && p(xs[j]) ==> key(xs[j]) != key(xs[i]))
  {
    var ys := Filter(xs, p);
    FirstsAreFirst(ys, key, k);
    var i' :| IsFirstAt(ys, key, i') && ys[i'] == Firsts(ys, key)[k];
    FilterIndex(xs, p, i');
    var i :| 0 <= i < |xs| && p(xs[i]) && ys[i'] == xs[i] && Filter(xs[..i], p) == ys[..i'];
    forall j | 0 <= j < i && p(xs[j])
      ensures key(xs[j]) != key(xs[i])
    {
      assert xs[..i][j] == xs[j];
      FilterComplete(xs[..i], p, j);
      KeyOfMember(ys[..i'], key, xs[j]);
    }
  }

  /** An element of a subsequence is an element of the whole. */
  lemma {:induction false} SubseqMembers<T>(a: seq<T>, b: seq<T>, i: nat)
    requires IsSubseq(a, b) && i < |a|
    ensures a[i] in b
    decreases |b|
  {
    var b' := b[..|b| - 1];
    assert forall x :: x in b' ==> x in b;
    if a[|a| - 1] == b[|b| - 1] {
      if i < |a| - 1 {
        SubseqMembers(a[..|a| - 1], b', i);
      }
    } else {
      SubseqMembers(a, b', i);
    }
  }
}
