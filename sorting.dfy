/** The stable sorts of the Rust standard library (`sort_by_key`, `sort_by`),
    written as a stable insertion sort over sequences, with the three facts
    the rest of the model relies on: the result is a permutation of the
    input, it is ordered, and elements that compare equal keep their
    relative order. Also small sequence facts used by several modules. */
module Sorting {

  /** `le` is total and transitive: what `Ord` promises of a sort key. */
  ghost predicate TotalPreorder<T(!new)>(le: (T, T) -> bool) {
    && (forall x: T, y: T :: le(x, y) || le(y, x))
    && (forall x: T, y: T, z: T :: le(x, y) && le(y, z) ==> le(x, z))
  }

  predicate SortedBy<T>(s: seq<T>, le: (T, T) -> bool) {
    forall i, j :: 0 <= i < j < |s| ==> le(s[i], s[j])
  }

  /** Inserts `x` in front of the first element it is not greater than. */
  function Insert<T(==)>(x: T, s: seq<T>, le: (T, T) -> bool): (r: seq<T>)
    ensures multiset(r) == multiset(s) + multiset{x}
    ensures |r| == |s| + 1
  {
    if s == [] then [x]
    else if le(x, s[0]) then [x] + s
    else
      assert s == [s[0]] + s[1..];
      [s[0]] + Insert(x, s[1..], le)
  }

  /** Stable sort of `s` by `le`. */
  function SortBy<T(==)>(s: seq<T>, le: (T, T) -> bool): (r: seq<T>)
    ensures multiset(r) == multiset(s)
    ensures |r| == |s|
  {
    if s == [] then []
    else
      assert s == [s[0]] + s[1..];
      Insert(s[0], SortBy(s[1..], le), le)
  }

  lemma {:induction false} InsertSorted<T(!new)>(x: T, s: seq<T>, le: (T, T) -> bool)
    requires TotalPreorder(le)
    requires SortedBy(s, le)
    ensures SortedBy(Insert(x, s, le), le)
  {
    if s != [] && !le(x, s[0]) {
      InsertSorted(x, s[1..], le);
      var r := Insert(x, s, le);
      var tail := Insert(x, s[1..], le);
      assert r == [s[0]] + tail;
      forall k | 0 <= k < |tail|
        ensures le(s[0], tail[k])
      {
        assert tail[k] in multiset(s[1..]) + multiset{x};
        if tail[k] == x {
        } else {
          assert tail[k] in s[1..];
        }
      }
    }
  }

  lemma {:induction false} SortBySorted<T(!new)>(s: seq<T>, le: (T, T) -> bool)
    requires TotalPreorder(le)
    ensures SortedBy(SortBy(s, le), le)
  {
    if s != [] {
      SortBySorted(s[1..], le);
      InsertSorted(s[0], SortBy(s[1..], le), le);
    }
  }

  /** The elements of `s` that compare equal to `x`, in order. */
  function EquivalentTo<T>(s: seq<T>, le: (T, T) -> bool, x: T): seq<T> {
    if s == [] then []
    else (if le(s[0], x) && le(x, s[0]) then [s[0]] else []) + EquivalentTo(s[1..], le, x)
  }

  lemma {:induction false} InsertStable<T(!new)>(y: T, t: seq<T>, le: (T, T) -> bool, x: T)
    requires TotalPreorder(le)
    ensures EquivalentTo(Insert(y, t, le), le, x)
         == (if le(y, x) && le(x, y) then [y] else []) + EquivalentTo(t, le, x)
  {
    if t == [] {
    } else if le(y, t[0]) {
      assert Insert(y, t, le) == [y] + t;
      EquivalentToCons(y, t, le, x);
    } else {
      var h, rest := t[0], t[1..];
      var tail := Insert(y, rest, le);
      assert Insert(y, t, le) == [h] + tail;
      assert t == [h] + rest;
      InsertStable(y, rest, le, x);
      EquivalentToCons(h, tail, le, x);
      EquivalentToCons(h, rest, le, x);
      var ey := if le(y, x) && le(x, y) then [y] else [];
      var eh := if le(h, x) && le(x, h) then [h] else [];
      if ey != [] && eh != [] {
        assert false;
      }
      AppendAssoc(eh, ey, EquivalentTo(rest, le, x));
      AppendAssoc(ey, eh, EquivalentTo(rest, le, x));
      assert eh + ey == ey + eh;
    }
  }

  lemma EquivalentToCons<T>(h: T, u: seq<T>, le: (T, T) -> bool, x: T)
    ensures EquivalentTo([h] + u, le, x) == (if le(h, x) && le(x, h) then [h] else []) + EquivalentTo(u, le, x)
  {
    assert ([h] + u)[1..] == u;
  }

  /** Stability: sorting keeps the relative order of equivalent elements. */
  lemma {:induction false} SortByStable<T(!new)>(s: seq<T>, le: (T, T) -> bool, x: T)
    requires TotalPreorder(le)
    ensures EquivalentTo(SortBy(s, le), le, x) == EquivalentTo(s, le, x)
  {
    if s != [] {
      SortByStable(s[1..], le, x);
      InsertStable(s[0], SortBy(s[1..], le), le, x);
    }
  }

  /** An element that occurs at two positions occurs twice. */
  lemma TwoPositionsCount<T>(s: seq<T>, i: int, j: int)
    requires 0 <= i < j < |s| && s[i] == s[j]
    ensures multiset(s)[s[i]] >= 2
  {
    assert s == s[..j] + s[j..];
    assert s[i] in s[..j];
    assert s[j] in s[j..];
    assert multiset(s) == multiset(s[..j]) + multiset(s[j..]);
  }

  /** An element that occurs twice occurs at two positions. */
  lemma CountTwoPositions<T>(s: seq<T>, x: T) returns (i: int, j: int)
    requires multiset(s)[x] >= 2
    ensures 0 <= i < j < |s| && s[i] == x && s[j] == x
  {
    assert x in multiset(s);
    var a :| 0 <= a < |s| && s[a] == x;
    var rest := s[..a] + s[a + 1..];
    assert s == s[..a] + [s[a]] + s[a + 1..];
    assert multiset(s) == multiset(s[..a]) + multiset{x} + multiset(s[a + 1..]);
    assert multiset(rest)[x] >= 1;
    assert x in rest;
    var b :| 0 <= b < |rest| && rest[b] == x;
    if b < a {
      assert rest[b] == s[b];
      i, j := b, a;
    } else {
      assert rest[b] == s[b + 1];
      i, j := a, b + 1;
    }
  }

  /** A symmetric relation that holds between the elements at any two distinct
      positions still does after the elements are permuted. */
  lemma PairwisePermuted<T>(s: seq<T>, t: seq<T>, R: (T, T) -> bool)
    requires multiset(s) == multiset(t)
    requires forall x, y :: R(x, y) == R(y, x)
    requires forall i, j :: 0 <= i < j < |s| ==> R(s[i], s[j])
    ensures forall i, j :: 0 <= i < j < |t| ==> R(t[i], t[j])
  {
    forall i, j | 0 <= i < j < |t|
      ensures R(t[i], t[j])
    {
      if t[i] == t[j] {
        TwoPositionsCount(t, i, j);
        var a, b := CountTwoPositions(s, t[i]);
        assert R(s[a], s[b]);
      } else {
        assert t[i] in multiset(s) && t[j] in multiset(s);
        var a :| 0 <= a < |s| && s[a] == t[i];
        var b :| 0 <= b < |s| && s[b] == t[j];
        if a < b { assert R(s[a], s[b]); } else { assert R(s[b], s[a]); }
      }
    }
  }

  predicate StrictlyIncreasing(s: seq<int>) {
    forall i, j :: 0 <= i < j < |s| ==> s[i] < s[j]
  }

  lemma AppendAssoc<T>(a: seq<T>, b: seq<T>, c: seq<T>)
    ensures (a + b) + c == a + (b + c)
  {
  }

  /** Slices of `s` appended to a fixed prefix, as a loop over `s` builds them. */
  lemma AppendSliceSnoc<T>(a: seq<T>, s: seq<T>, j: int)
    requires 0 <= j < |s|
    ensures a + s[..j + 1] == (a + s[..j]) + [s[j]]
  {
    assert s[..j + 1] == s[..j] + [s[j]];
  }

  lemma AppendEmpty<T>(s: seq<T>)
    ensures s + [] == s
  {
  }

  lemma TakeDrop<T>(s: seq<T>, i: int)
    requires 0 <= i <= |s|
    ensures s[..i] + s[i..] == s
  {
  }

  lemma HeadOfAppend<T>(a: seq<T>, b: seq<T>)
    requires a != []
    ensures (a + b)[0] == a[0] && (a + b)[1..] == a[1..] + b
  {
  }

  lemma SliceWhole<T>(s: seq<T>)
    ensures s[..|s|] == s
  {
  }

  lemma AppendSliceEmpty<T>(a: seq<T>, s: seq<T>)
    ensures a + s[..0] == a
  {
  }

  lemma AppendSliceWhole<T>(a: seq<T>, s: seq<T>)
    ensures a + s[..|s|] == a + s
  {
    assert s[..|s|] == s;
  }

  lemma FirstIsLeast(s: seq<int>, x: int)
    requires StrictlyIncreasing(s) && x in s
    ensures s[0] <= x
  {
    var k :| 0 <= k < |s| && s[k] == x;
  }

  lemma LastIsGreatest(s: seq<int>, x: int)
    requires StrictlyIncreasing(s) && x in s
    ensures x <= s[|s| - 1]
  {
    var k :| 0 <= k < |s| && s[k] == x;
  }

  /** An element below every element of an increasing sequence can be put
      in front of it. */
  lemma ConsIncreasing(a: int, t: seq<int>)
    requires StrictlyIncreasing(t)
    requires forall x :: x in t ==> a < x
    ensures StrictlyIncreasing([a] + t)
  {
    forall i, j | 0 <= i < j < |[a] + t|
      ensures ([a] + t)[i] < ([a] + t)[j]
    {
      assert ([a] + t)[j] == t[j - 1];
      if i > 0 {
        assert ([a] + t)[i] == t[i - 1];
      } else {
        assert t[j - 1] in t;
      }
    }
  }

  /** The concatenation of a sequence of sequences. */
  function Flatten<T>(ss: seq<seq<T>>): seq<T> {
    if ss == [] then [] else Flatten(ss[..|ss| - 1]) + ss[|ss| - 1]
  }

  lemma {:induction false} FlattenAppend<T>(a: seq<seq<T>>, b: seq<seq<T>>)
    ensures Flatten(a + b) == Flatten(a) + Flatten(b)
    decreases |b|
  {
    if b == [] {
      assert a + b == a;
    } else {
      var init, last := b[..|b| - 1], b[|b| - 1];
      assert b == init + [last];
      AppendAssoc(a, init, [last]);
      FlattenAppend(a, init);
      FlattenSnoc(a + init, last);
      FlattenSnoc(init, last);
      AppendAssoc(Flatten(a), Flatten(init), last);
    }
  }

  lemma FlattenSnoc<T>(ss: seq<seq<T>>, x: seq<T>)
    ensures Flatten(ss + [x]) == Flatten(ss) + x
  {
    assert (ss + [x])[..|ss|] == ss;
  }

  /** Parts of one width `w` sit at multiples of `w` in the concatenation. */
  lemma {:induction false} FlattenUniform<T>(ss: seq<seq<T>>, w: nat)
    requires forall i :: 0 <= i < |ss| ==> |ss[i]| == w
    ensures |Flatten(ss)| == w * |ss|
    ensures forall i :: 0 <= i < |ss| ==> w * i + w <= |Flatten(ss)| && Flatten(ss)[w * i..w * i + w] == ss[i]
  {
    if ss != [] {
      var init, last := ss[..|ss| - 1], ss[|ss| - 1];
      FlattenUniform(init, w);
      assert ss == init + [last];
      FlattenSnoc(init, last);
      MulSucc(w, |init|);
      forall i | 0 <= i < |ss| ensures w * i + w <= |Flatten(ss)| && Flatten(ss)[w * i..w * i + w] == ss[i] {
        UniformPart(Flatten(init), init, last, w, i);
      }
    }
  }

  /** One step of `FlattenUniform`: what holds of the parts so far still
      holds with one more part of width `w`, and the new part sits at the end. */
  lemma UniformPart<T>(f: seq<T>, init: seq<seq<T>>, last: seq<T>, w: nat, i: nat)
    requires |f| == w * |init| && |last| == w && i <= |init|
    requires forall j :: 0 <= j < |init| ==> w * j + w <= |f| && f[w * j..w * j + w] == init[j]
    ensures w * i + w <= |f + last| && (f + last)[w * i..w * i + w] == (init + [last])[i]
  {
    if i < |init| {
      var lo := w * i;
      MulSucc(w, i);
      MulMono(w, i + 1, |init|);
      assert f[lo..lo + w] == init[i];
      SliceOfPrefix(f, last, lo, lo + w);
    } else {
      SliceOfSuffix(f, last);
    }
  }

  lemma MulMono(w: nat, a: nat, b: nat)
    requires a <= b
    ensures w * a <= w * b
  {
  }

  lemma MulSucc(w: nat, n: nat)
    ensures w * (n + 1) == w * n + w
  {
  }

  lemma SliceOfPrefix<T>(a: seq<T>, b: seq<T>, lo: int, hi: int)
    requires 0 <= lo <= hi <= |a|
    ensures (a + b)[lo..hi] == a[lo..hi]
  {
  }

  lemma SliceOfSuffix<T>(a: seq<T>, b: seq<T>)
    ensures (a + b)[|a|..|a| + |b|] == b
  {
  }

  /** Taking one part out of a concatenation takes its elements out. */
  lemma FlattenRemove<T>(t: seq<seq<T>>, k: int)
    requires 0 <= k < |t|
    ensures multiset(Flatten(t)) == multiset(Flatten(t[..k] + t[k + 1..])) + multiset(t[k])
  {
    var x := t[k];
    SplitAround(t, k);
    FlattenAppend(t[..k], [x] + t[k + 1..]);
    FlattenAppend([x], t[k + 1..]);
    FlattenAppend(t[..k], t[k + 1..]);
    FlattenOne(x);
    var a, b := Flatten(t[..k]), Flatten(t[k + 1..]);
    assert Flatten(t) == a + (x + b);
    assert multiset(a + (x + b)) == multiset(a + b) + multiset(x);
  }

  lemma SplitAround<T>(t: seq<T>, k: int)
    requires 0 <= k < |t|
    ensures t == t[..k] + ([t[k]] + t[k + 1..])
  {
    assert t[k..] == [t[k]] + t[k + 1..];
    assert t == t[..k] + t[k..];
  }

  lemma FlattenOne<T>(x: seq<T>)
    ensures Flatten([x]) == x
  {
    assert [x][..0] == [];
  }

  /** Permuting the parts does not change the multiset of the concatenation. */
  lemma {:induction false} FlattenPermuted<T>(s: seq<seq<T>>, t: seq<seq<T>>)
    requires multiset(s) == multiset(t)
    ensures multiset(Flatten(s)) == multiset(Flatten(t))
    decreases |s|
  {
    if s == [] {
      assert |t| == |multiset(t)| == 0;
    } else {
      var x := s[|s| - 1];
      var s' := s[..|s| - 1];
      assert s == s' + [x];
      assert x in multiset(t);
      var k :| 0 <= k < |t| && t[k] == x;
      var t' := t[..k] + t[k + 1..];
      assert t == t[..k] + [x] + t[k + 1..];
      assert multiset(t) == multiset(t[..k]) + multiset{x} + multiset(t[k + 1..]);
      assert multiset(t') == multiset(t[..k]) + multiset(t[k + 1..]);
      assert multiset(t) == multiset(t') + multiset{x};
      assert multiset(s) == multiset(s') + multiset{x};
      assert multiset(s') == multiset(s) - multiset{x};
      assert multiset(s') == multiset(t');
      FlattenPermuted(s', t');
      FlattenRemove(t, k);
      assert Flatten(s) == Flatten(s') + x;
    }
  }

  /** `iter().map(f)`. */
  function Map<A, B>(s: seq<A>, f: A -> B): (r: seq<B>)
    ensures |r| == |s| && forall i :: 0 <= i < |s| ==> r[i] == f(s[i])
  {
    seq(|s|, i requires 0 <= i < |s| => f(s[i]))
  }

  lemma MapSnoc<A, B>(s: seq<A>, i: int, f: A -> B)
    requires 0 <= i < |s|
    ensures Map(s[..i + 1], f) == Map(s[..i], f) + [f(s[i])]
  {
  }

  lemma MapAppendOne<A, B>(s: seq<A>, x: A, f: A -> B)
    ensures Map(s + [x], f) == Map(s, f) + [f(x)]
  {
  }

  /** Taking one element out before mapping takes its image out after. */
  lemma MapRemove<A, B>(t: seq<A>, k: int, t': seq<A>, f: A -> B)
    requires 0 <= k < |t| && t' == t[..k] + t[k + 1..]
    ensures multiset(Map(t, f)) == multiset(Map(t', f)) + multiset{f(t[k])}
    ensures multiset(t) == multiset(t') + multiset{t[k]}
  {
    var mt := Map(t, f);
    assert t == t[..k] + [t[k]] + t[k + 1..];
    assert mt == mt[..k] + [f(t[k])] + mt[k + 1..];
    assert Map(t', f) == mt[..k] + mt[k + 1..];
  }

  /** Mapping commutes with permuting. */
  lemma {:induction false} MapPermuted<A, B>(s: seq<A>, t: seq<A>, f: A -> B)
    requires multiset(s) == multiset(t)
    ensures multiset(Map(s, f)) == multiset(Map(t, f))
    decreases |s|
  {
    if s == [] {
      assert |t| == |multiset(t)| == 0;
    } else {
      var x := s[|s| - 1];
      var k := IndexIn(t, x);
      var s' := s[..|s| - 1];
      var t' := t[..k] + t[k + 1..];
      assert s' == s[..|s| - 1] + s[|s|..];
      MapRemove(s, |s| - 1, s', f);
      MapRemove(t, k, t', f);
      MultisetCancel(multiset(s'), multiset(t'), multiset{x});
      MapPermuted(s', t', f);
    }
  }

  lemma IndexIn<T>(t: seq<T>, x: T) returns (k: int)
    requires x in multiset(t)
    ensures 0 <= k < |t| && t[k] == x
  {
    k :| 0 <= k < |t| && t[k] == x;
  }

  lemma MultisetCancel<T>(a: multiset<T>, b: multiset<T>, c: multiset<T>)
    requires a + c == b + c
    ensures a == b
  {
    assert a == (a + c) - c;
    assert b == (b + c) - c;
  }
}
