/** Shared vocabulary: optional values, calls that may raise, and sequence helpers. */
module Base {
  /** A value that may be missing: `null`/`undefined` in TypeScript, `None` in Python. */
  datatype Option<T> = None | Some(value: T)
  {
    function GetOr(default: T): T { if Some? then value else default }
  }

  /** The outcome of a call that may throw (TypeScript) or raise (Python): a returned
      value, or the message of the exception. */
  datatype Throws<T> = Returns(value: T) | Raises(message: string)

  function Map<A, B>(xs: seq<A>, f: A -> B): (r: seq<B>)
    ensures |r| == |xs| && forall i :: 0 <= i < |xs| ==> r[i] == f(xs[i])
  {
    seq(|xs|, i requires 0 <= i < |xs| => f(xs[i]))
  }

  /** The elements of `xs` that satisfy `p`, in their original order. */
  function Filter<T>(xs: seq<T>, p: T -> bool): (r: seq<T>)
    ensures |r| <= |xs|
  {
    if xs == [] then [] else (if p(xs[0]) then [xs[0]] else []) + Filter(xs[1..], p)
  }

  lemma {:induction false} FilterMembership<T>(xs: seq<T>, p: T -> bool, x: T)
    ensures x in Filter(xs, p) <==> x in xs && p(x)
  {
    if xs != [] {
      FilterMembership(xs[1..], p, x);
      assert xs == [xs[0]] + xs[1..];
    }
  }

  lemma {:induction false} FilterAppend<T>(xs: seq<T>, ys: seq<T>, p: T -> bool)
    ensures Filter(xs + ys, p) == Filter(xs, p) + Filter(ys, p)
  {
    if xs == [] {
      assert xs + ys == ys;
    } else {
      var zs := xs + ys;
      assert zs[0] == xs[0] && zs[1..] == xs[1..] + ys;
      FilterAppend(xs[1..], ys, p);
      var h := if p(xs[0]) then [xs[0]] else [];
      assert Filter(zs, p) == h + Filter(xs[1..] + ys, p);
      assert Filter(xs, p) == h + Filter(xs[1..], p);
    }
  }

  /** `r` pairs off with the elements of `xs` that satisfy `p`, one for one and in order,
      each pair related by `rel`. */
  predicate PairsWithFiltered<T, U>(xs: seq<T>, p: T -> bool, r: seq<U>, rel: (T, U) -> bool)
  {
    |r| == |Filter(xs, p)| && forall k :: 0 <= k < |r| ==> rel(Filter(xs, p)[k], r[k])
  }

  /** One step of a comprehension `[f(x) for x in xs if p(x)]`: the head's entry (if the
      head qualifies) followed by the pairing for the rest pairs with the whole. */
  lemma PairsWithFilteredCons<T, U>(xs: seq<T>, p: T -> bool, head: seq<U>, rest: seq<U>, rel: (T, U) -> bool)
    requires xs != []
    requires |head| == (if p(xs[0]) then 1 else 0) && (p(xs[0]) ==> rel(xs[0], head[0]))
    requires PairsWithFiltered(xs[1..], p, rest, rel)
    ensures PairsWithFiltered(xs, p, head + rest, rel)
  {
    var f := Filter(xs, p);
    assert f == (if p(xs[0]) then [xs[0]] else []) + Filter(xs[1..], p);
    forall k | 0 <= k < |head + rest|
      ensures rel(f[k], (head + rest)[k])
    {
      if k < |head| {
        assert f[k] == xs[0];
      } else {
        assert f[k] == Filter(xs[1..], p)[k - |head|];
      }
    }
  }

  lemma {:induction false} FilterAll<T>(xs: seq<T>, p: T -> bool)
    requires forall i :: 0 <= i < |xs| ==> p(xs[i])
    ensures Filter(xs, p) == xs
  {
    if xs != [] { FilterAll(xs[1..], p); }
  }

  /** The values of the present elements, in order. */
  function Values<T>(xs: seq<Option<T>>): (r: seq<T>)
    ensures |r| <= |xs|
  {
    if xs == [] then [] else (if xs[0].Some? then [xs[0].value] else []) + Values(xs[1..])
  }

  lemma {:induction false} ValuesAppend<T>(xs: seq<Option<T>>, ys: seq<Option<T>>)
    ensures Values(xs + ys) == Values(xs) + Values(ys)
  {
    if xs == [] {
      assert xs + ys == ys;
    } else {
      var zs := xs + ys;
      assert zs[0] == xs[0] && zs[1..] == xs[1..] + ys;
      ValuesAppend(xs[1..], ys);
      var h := if xs[0].Some? then [xs[0].value] else [];
      assert Values(zs) == h + Values(xs[1..] + ys);
      assert Values(xs) == h + Values(xs[1..]);
    }
  }

  lemma {:induction false} ValuesMembership<T>(xs: seq<Option<T>>, x: T)
    ensures x in Values(xs) <==> Some(x) in xs
  {
    if xs != [] {
      ValuesMembership(xs[1..], x);
      assert xs == [xs[0]] + xs[1..];
    }
  }

  /** Number of elements equal to `x`. */
  function Count<T(==)>(xs: seq<T>, x: T): nat
  {
    if xs == [] then 0 else (if xs[0] == x then 1 else 0) + Count(xs[1..], x)
  }

  lemma {:induction false} CountPositive<T>(xs: seq<T>, x: T)
    ensures Count(xs, x) > 0 <==> x in xs
  {
    if xs != [] {
      CountPositive(xs[1..], x);
      assert xs == [xs[0]] + xs[1..];
    }
  }

  function Concat<T>(xss: seq<seq<T>>): seq<T>
  {
    if xss == [] then [] else xss[0] + Concat(xss[1..])
  }

  lemma {:induction false} ConcatAppend<T>(xss: seq<seq<T>>, yss: seq<seq<T>>)
    ensures Concat(xss + yss) == Concat(xss) + Concat(yss)
  {
    if xss == [] {
      assert xss + yss == yss;
    } else {
      assert (xss + yss)[1..] == xss[1..] + yss;
      ConcatAppend(xss[1..], yss);
    }
  }

  lemma {:induction false} CountAppend<T>(xs: seq<T>, x: T, y: T)
    ensures Count(xs + [x], y) == Count(xs, y) + (if x == y then 1 else 0)
  {
    if xs == [] {
      assert xs + [x] == [x];
    } else {
      assert (xs + [x])[1..] == xs[1..] + [x];
      CountAppend(xs[1..], x, y);
    }
  }

  /** The distinct elements of `xs`, each at the place it is first seen. */
  function Dedup<T(==)>(xs: seq<T>): (r: seq<T>)
    decreases |xs|
  {
    if xs == [] then []
    else
      var d := Dedup(xs[..|xs| - 1]);
      if xs[|xs| - 1] in d then d else d + [xs[|xs| - 1]]
  }

  lemma {:induction false} DedupSpec<T>(xs: seq<T>)
    ensures Distinct(Dedup(xs))
    ensures forall x :: x in Dedup(xs) <==> x in xs
    decreases |xs|
  {
    if xs != [] {
      var p := xs[..|xs| - 1];
      DedupSpec(p);
      assert xs == p + [xs[|xs| - 1]];
    }
  }

  /** The index at which `x` is first seen in `xs`. */
  function FirstIndex<T(==)>(xs: seq<T>, x: T): (i: nat)
    requires x in xs
    ensures i < |xs| && xs[i] == x && x !in xs[..i]
  {
    if xs[0] == x then 0
    else
      var i := 1 + FirstIndex(xs[1..], x);
      assert xs[..i] == [xs[0]] + xs[1..][..i - 1];
      i
  }

  /** An index where `x` occurs with no earlier occurrence is its first index. */
  lemma FirstIndexUnique<T>(xs: seq<T>, x: T, i: nat)
    requires i < |xs| && xs[i] == x && x !in xs[..i]
    ensures FirstIndex(xs, x) == i
  {
  }

  /** Appending an element moves no first index of an element already present. */
  lemma FirstIndexSnoc<T>(p: seq<T>, y: T, x: T)
    requires x in p
    ensures FirstIndex(p + [y], x) == FirstIndex(p, x)
  {
    var f := FirstIndex(p, x);
    assert (p + [y])[..f] == p[..f];
    FirstIndexUnique(p + [y], x, f);
  }

  /** Every element of `r` occurs in `xs`, and `r` lists them in the order `xs` first
      shows them. */
  predicate InFirstSeenOrder<T(==)>(r: seq<T>, xs: seq<T>)
  {
    (forall k :: 0 <= k < |r| ==> r[k] in xs)
    && forall i, j :: 0 <= i < j < |r| ==> FirstIndex(xs, r[i]) < FirstIndex(xs, r[j])
  }

  /** `Dedup` keeps the order in which elements are first seen. */
  lemma {:induction false} DedupOrder<T>(xs: seq<T>)
    ensures InFirstSeenOrder(Dedup(xs), xs)
    decreases |xs|
  {
    if xs != [] {
      var p, y := xs[..|xs| - 1], xs[|xs| - 1];
      assert xs == p + [y];
      var d := Dedup(p);
      DedupOrder(p);
      DedupSpec(p);
      forall k | 0 <= k < |d| ensures FirstIndex(xs, d[k]) == FirstIndex(p, d[k]) {
        FirstIndexSnoc(p, y, d[k]);
      }
      if y !in d {
        assert y !in p;
        FirstIndexUnique(xs, y, |p|);
        var r := d + [y];
        forall i, j | 0 <= i < j < |r| ensures FirstIndex(xs, r[i]) < FirstIndex(xs, r[j]) {
          if j == |d| {
            assert r[i] == d[i];
          } else {
            assert r[i] == d[i] && r[j] == d[j];
          }
        }
      }
    }
  }

  /** Filtering keeps first-seen order. */
  lemma {:induction false} FilterFirstSeenOrder<T>(ys: seq<T>, xs: seq<T>, p: T -> bool)
    requires InFirstSeenOrder(ys, xs)
    ensures InFirstSeenOrder(Filter(ys, p), xs)
  {
    if ys != [] {
      var t := ys[1..];
      FirstSeenTail(ys, xs);
      FilterFirstSeenOrder(t, xs, p);
      var f := Filter(t, p);
      forall k | 0 <= k < |f| ensures FirstIndex(xs, ys[0]) < FirstIndex(xs, f[k]) {
        FilterMembership(t, p, f[k]);
        var m :| 0 <= m < |t| && t[m] == f[k];
        assert ys[m + 1] == f[k];
      }
      if p(ys[0]) {
        FirstSeenCons(ys[0], f, xs);
      }
    }
  }

  lemma FirstSeenTail<T>(ys: seq<T>, xs: seq<T>)
    requires ys != [] && InFirstSeenOrder(ys, xs)
    ensures InFirstSeenOrder(ys[1..], xs)
  {
    var t := ys[1..];
    forall i, j | 0 <= i < j < |t| ensures FirstIndex(xs, t[i]) < FirstIndex(xs, t[j]) {
      assert t[i] == ys[i + 1] && t[j] == ys[j + 1];
    }
  }

  lemma FirstSeenCons<T>(y: T, f: seq<T>, xs: seq<T>)
    requires y in xs && InFirstSeenOrder(f, xs)
    requires forall k :: 0 <= k < |f| ==> FirstIndex(xs, y) < FirstIndex(xs, f[k])
    ensures InFirstSeenOrder([y] + f, xs)
  {
    var r := [y] + f;
    forall i, j | 0 <= i < j < |r| ensures FirstIndex(xs, r[i]) < FirstIndex(xs, r[j]) {
      if i == 0 {
        assert r[j] == f[j - 1];
      } else {
        assert r[i] == f[i - 1] && r[j] == f[j - 1];
      }
    }
  }

  predicate Distinct<T(==)>(xs: seq<T>)
  {
    forall i, j :: 0 <= i < j < |xs| ==> xs[i] != xs[j]
  }
}
