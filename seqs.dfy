/** Generic sequence helpers: first index of an element and sums. */
module Seqs {
  import opened Wrappers

  /** Index of the first occurrence of `x`. */
  function IndexOf<T(==)>(s: seq<T>, x: T): (r: Option<nat>)
    ensures r.None? <==> x !in s
    ensures r.Some? ==> r.value < |s| && s[r.value] == x && x !in s[..r.value]
  {
    if s == [] then None
    else if s[0] == x then Some(0)
    else match IndexOf(s[1..], x)
      case None => None
      case Some(k) => assert s[..k + 1] == [s[0]] + s[1..][..k]; Some(k + 1)
  }

  lemma {:induction false} IndexOfAfter<T>(d: seq<T>, c: T, f: seq<T>)
    requires c !in d
    ensures IndexOf(d + [c] + f, c) == Some(|d|)
  {
    if d != [] {
      assert (d + [c] + f)[1..] == d[1..] + [c] + f;
      IndexOfAfter(d[1..], c, f);
    }
  }

  /** Sum of a sequence of amounts. */
  function Sum(s: seq<real>): real
  {
    if s == [] then 0.0 else Sum(s[..|s| - 1]) + s[|s| - 1]
  }

  lemma {:induction false} SumConcat(a: seq<real>, b: seq<real>)
    ensures Sum(a + b) == Sum(a) + Sum(b)
  {
    if b == [] {
      assert a + b == a;
    } else {
      assert (a + b)[..|a + b| - 1] == a + b[..|b| - 1];
      SumConcat(a, b[..|b| - 1]);
    }
  }

  /** The images under `conv` of the elements that satisfy `keep`, in
      their original order. */
  function FilterMap<A, B>(s: seq<A>, keep: A -> bool, conv: A -> B): (r: seq<B>)
    ensures |r| <= |s|
  {
    if s == [] then []
    else FilterMap(s[..|s| - 1], keep, conv) + (if keep(s[|s| - 1]) then [conv(s[|s| - 1])] else [])
  }

  /** What `FilterMap` keeps: exactly the images of the selected elements. */
  lemma {:induction false} FilterMapMembers<A, B>(s: seq<A>, keep: A -> bool, conv: A -> B, b: B)
    ensures b in FilterMap(s, keep, conv) <==> exists a :: a in s && keep(a) && b == conv(a)
  {
    if s != [] {
      var init, last := s[..|s| - 1], s[|s| - 1];
      assert s == init + [last];
      FilterMapMembers(init, keep, conv, b);
      if b in FilterMap(s, keep, conv) && b !in FilterMap(init, keep, conv) {
        assert keep(last) && b == conv(last) && last in s;
      }
      if exists a :: a in s && keep(a) && b == conv(a) {
        var a :| a in s && keep(a) && b == conv(a);
        if a != last { assert a in init; }
      }
    }
  }


  lemma {:induction false} FilterMapConcat<A, B>(s: seq<A>, t: seq<A>, keep: A -> bool, conv: A -> B)
    ensures FilterMap(s + t, keep, conv) == FilterMap(s, keep, conv) + FilterMap(t, keep, conv)
  {
    if t == [] {
      assert s + t == s;
    } else {
      assert (s + t)[..|s + t| - 1] == s + t[..|t| - 1];
      FilterMapConcat(s, t[..|t| - 1], keep, conv);
    }
  }

  /** `s` with the element at `j` taken out. */
  function Without<T>(s: seq<T>, j: nat): (r: seq<T>)
    requires j < |s|
    ensures |r| == |s| - 1
  {
    s[..j] + s[j + 1..]
  }

  lemma {:induction false} WithoutMultiset<T>(s: seq<T>, j: nat)
    requires j < |s|
    ensures multiset(Without(s, j)) == multiset(s) - multiset{s[j]}
    ensures s == s[..j] + [s[j]] + s[j + 1..]
  {
    assert s == s[..j] + [s[j]] + s[j + 1..];
    assert multiset(s) == multiset(s[..j]) + multiset{s[j]} + multiset(s[j + 1..]);
  }

  lemma {:induction false} DropLastMultiset<T>(s: seq<T>)
    requires s != []
    ensures multiset(s[..|s| - 1]) == multiset(s) - multiset{s[|s| - 1]}
  {
    assert s == s[..|s| - 1] + [s[|s| - 1]];
  }

  /** Taking the last element of `s` out of `s` and out of a permutation
      `t` of `s` leaves permutations of each other. */
  lemma {:induction false} PermWithoutLast<T>(s: seq<T>, t: seq<T>) returns (j: nat)
    requires s != [] && multiset(s) == multiset(t)
    ensures j < |t| && t[j] == s[|s| - 1]
    ensures multiset(s[..|s| - 1]) == multiset(Without(t, j))
  {
    var x := s[|s| - 1];
    assert x in multiset(t);
    j :| 0 <= j < |t| && t[j] == x;
    WithoutMultiset(t, j);
    DropLastMultiset(s);
  }

  /** Reordering the input only reorders what `FilterMap` returns. */
  lemma {:induction false} FilterMapPerm<A, B>(s: seq<A>, t: seq<A>, keep: A -> bool, conv: A -> B)
    requires multiset(s) == multiset(t)
    ensures multiset(FilterMap(s, keep, conv)) == multiset(FilterMap(t, keep, conv))
    decreases |s|
  {
    if s == [] {
      assert t == [];
    } else {
      var init, x := s[..|s| - 1], s[|s| - 1];
      var j := PermWithoutLast(s, t);
      WithoutMultiset(t, j);
      assert s == init + [x];
      var lo, hi := t[..j], t[j + 1..];
      FilterMapPerm(init, Without(t, j), keep, conv);
      var one := FilterMap([x], keep, conv);
      assert [x][..0] == [];
      FilterMapConcat(lo, hi, keep, conv);
      FilterMapConcat(lo, [x], keep, conv);
      FilterMapConcat(lo + [x], hi, keep, conv);
      FilterMapConcat(init, [x], keep, conv);
    }
  }

  /** All the elements of a sequence of sequences, in order. */
  function Flatten<T>(ss: seq<seq<T>>): seq<T>
  {
    if ss == [] then [] else Flatten(ss[..|ss| - 1]) + ss[|ss| - 1]
  }

  lemma {:induction false} FlattenConcat<T>(a: seq<seq<T>>, b: seq<seq<T>>)
    ensures Flatten(a + b) == Flatten(a) + Flatten(b)
  {
    if b == [] {
      assert a + b == a;
    } else {
      var init, x := b[..|b| - 1], b[|b| - 1];
      assert (a + b)[..|a + b| - 1] == a + init;
      assert (a + b)[|a + b| - 1] == x;
      FlattenConcat(a, init);
      Assoc(Flatten(a), Flatten(init), x);
    }
  }

  lemma {:induction false} Assoc<T>(p: seq<T>, q: seq<T>, r: seq<T>)
    ensures (p + q) + r == p + (q + r)
  {
  }

  /** Reordering the parts only reorders their concatenation. */
  lemma {:induction false} FlattenPerm<T>(a: seq<seq<T>>, b: seq<seq<T>>)
    requires multiset(a) == multiset(b)
    ensures multiset(Flatten(a)) == multiset(Flatten(b))
    decreases |a|
  {
    if a == [] {
      assert b == [];
    } else {
      var init, x := a[..|a| - 1], a[|a| - 1];
      var j := PermWithoutLast(a, b);
      WithoutMultiset(b, j);
      assert a == init + [x];
      var lo, hi := b[..j], b[j + 1..];
      FlattenPerm(init, Without(b, j));
      assert [x][..0] == [];
      assert Flatten([x]) == x;
      FlattenConcat(lo, hi);
      FlattenConcat(lo, [x]);
      FlattenConcat(lo + [x], hi);
    }
  }

  /** Reordering the summands does not change the sum. */
  lemma {:induction false} SumPerm(a: seq<real>, b: seq<real>)
    requires multiset(a) == multiset(b)
    ensures Sum(a) == Sum(b)
    decreases |a|
  {
    if a == [] {
      assert b == [];
    } else {
      var init, x := a[..|a| - 1], a[|a| - 1];
      var j := PermWithoutLast(a, b);
      WithoutMultiset(b, j);
      assert a == init + [x];
      var lo, hi := b[..j], b[j + 1..];
      SumPerm(init, Without(b, j));
      assert [x][..0] == [];
      assert Sum([x]) == x;
      SumConcat(lo, hi);
      SumConcat(lo, [x]);
      SumConcat(lo + [x], hi);
    }
  }

  /** The images of all elements, in order. */
  function MapSeq<A, B>(s: seq<A>, f: A -> B): (r: seq<B>)
    ensures |r| == |s|
    ensures forall i :: 0 <= i < |s| ==> r[i] == f(s[i])
  {
    if s == [] then [] else MapSeq(s[..|s| - 1], f) + [f(s[|s| - 1])]
  }

  /** Keeping every element is mapping. */
  lemma {:induction false} FilterMapAll<A, B>(s: seq<A>, keep: A -> bool, conv: A -> B)
    requires forall i :: 0 <= i < |s| ==> keep(s[i])
    ensures FilterMap(s, keep, conv) == MapSeq(s, conv)
  {
    if s != [] {
      FilterMapAll(s[..|s| - 1], keep, conv);
    }
  }

  /** When at most one element is selected, at most one image is kept, and
      a selected element's image is kept. */
  lemma {:induction false} FilterMapAtMostOne<A, B>(s: seq<A>, keep: A -> bool, conv: A -> B)
    requires forall i, j :: 0 <= i < |s| && 0 <= j < |s| && keep(s[i]) && keep(s[j]) ==> i == j
    ensures |FilterMap(s, keep, conv)| <= 1
    ensures forall i :: 0 <= i < |s| && keep(s[i]) ==> FilterMap(s, keep, conv) == [conv(s[i])]
  {
    if s != [] {
      var init, last := s[..|s| - 1], s[|s| - 1];
      FilterMapAtMostOne(init, keep, conv);
      if keep(last) {
        assert forall i :: 0 <= i < |init| ==> !keep(init[i]) by {
          forall i | 0 <= i < |init| ensures !keep(init[i]) {
            assert init[i] == s[i];
          }
        }
        FilterMapNone(init, keep, conv);
      }
    }
  }

  /** Nothing selected, nothing kept. */
  lemma {:induction false} FilterMapNone<A, B>(s: seq<A>, keep: A -> bool, conv: A -> B)
    requires forall i :: 0 <= i < |s| ==> !keep(s[i])
    ensures FilterMap(s, keep, conv) == []
  {
    if s != [] {
      FilterMapNone(s[..|s| - 1], keep, conv);
    }
  }

  /** Concatenating one-element parts gives the parts' elements. */
  lemma {:induction false} FlattenSingletons<T>(ss: seq<seq<T>>)
    requires forall i :: 0 <= i < |ss| ==> |ss[i]| == 1
    ensures |Flatten(ss)| == |ss|
    ensures forall i :: 0 <= i < |ss| ==> Flatten(ss)[i] == ss[i][0]
  {
    if ss != [] {
      FlattenSingletons(ss[..|ss| - 1]);
    }
  }

  /** An element of the concatenation lies in one of the parts, and every
      element of every part is in the concatenation. */
  lemma {:induction false} FlattenMembers<T>(ss: seq<seq<T>>, x: T)
    ensures x in Flatten(ss) <==> exists s :: s in ss && x in s
  {
    if ss != [] {
      var init, last := ss[..|ss| - 1], ss[|ss| - 1];
      assert ss == init + [last];
      FlattenMembers(init, x);
      if exists s :: s in ss && x in s {
        var s :| s in ss && x in s;
        if s != last { assert s in init; }
      }
    }
  }

  /** The number of elements that satisfy `p`. */
  function Count<A>(s: seq<A>, p: A -> bool): (n: nat)
    ensures n <= |s|
  {
    if s == [] then 0 else Count(s[..|s| - 1], p) + (if p(s[|s| - 1]) then 1 else 0)
  }

  /** A sum of non-negative terms is non-negative. */
  lemma {:induction false} SumNonNegative(s: seq<real>)
    requires forall i :: 0 <= i < |s| ==> s[i] >= 0.0
    ensures Sum(s) >= 0.0
  {
    if s != [] {
      SumNonNegative(s[..|s| - 1]);
    }
  }

  /** Concatenating non-empty parts gives at least one element per part. */
  lemma {:induction false} FlattenLength<T>(ss: seq<seq<T>>)
    requires forall i :: 0 <= i < |ss| ==> ss[i] != []
    ensures |Flatten(ss)| >= |ss|
  {
    if ss != [] {
      FlattenLength(ss[..|ss| - 1]);
    }
  }

  /** No element satisfies `p` exactly when the count is zero. */
  lemma {:induction false} CountZero<A>(s: seq<A>, p: A -> bool)
    ensures Count(s, p) == 0 <==> forall i :: 0 <= i < |s| ==> !p(s[i])
  {
    if s != [] {
      var init := s[..|s| - 1];
      CountZero(init, p);
      if Count(s, p) == 0 {
        forall i | 0 <= i < |s| ensures !p(s[i]) {
          if i < |init| { assert s[i] == init[i]; }
        }
      } else if !p(s[|s| - 1]) {
        var i :| 0 <= i < |init| && p(init[i]);
        assert s[i] == init[i];
      }
    }
  }

  /** The images of all elements when every one is defined; None as soon
      as one is not. */
  function AllDefined<A, B>(s: seq<A>, f: A -> Option<B>): (r: Option<seq<B>>)
    ensures r.None? <==> exists i :: 0 <= i < |s| && f(s[i]).None?
    ensures r.Some? ==> |r.value| == |s| && forall i :: 0 <= i < |s| ==> f(s[i]) == Some(r.value[i])
  {
    if s == [] then Some([])
    else
      var init := s[..|s| - 1];
      assert forall i :: 0 <= i < |init| ==> init[i] == s[i];
      match (AllDefined(init, f), f(s[|s| - 1]))
      case (Some(vs), Some(v)) => Some(vs + [v])
      case (Some(_), None) => None
      case (None, _) => None
  }
}
