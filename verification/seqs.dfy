/** Sequence combinators the resolver is built from: an option-dropping
    map (`map` followed by `filter` on truthiness), a left fold with `+`
    (`reduce`), and the reference definitions they are proved against. */
module Seqs {
  import opened Wrappers

  /** Applies `f` to every element in order and keeps the values of the
      successful applications; failed applications are dropped. */
  function FilterMap<A, B>(xs: seq<A>, f: A -> Option<B>): (r: seq<B>)
    ensures |r| <= |xs|
  {
    if |xs| == 0 then []
    else
      match f(xs[0])
      case None => FilterMap(xs[1..], f)
      case Some(y) => [y] + FilterMap(xs[1..], f)
  }

  /** Reference definition: the positions below `n` at which `f` succeeds,
      in increasing order. */
  function Hits<A, B>(xs: seq<A>, f: A -> Option<B>, n: nat): (h: seq<nat>)
    requires n <= |xs|
    ensures forall k :: 0 <= k < |h| ==> h[k] < n && f(xs[h[k]]).Some?
    ensures forall k, l :: 0 <= k < l < |h| ==> h[k] < h[l]
    ensures forall i :: 0 <= i < n && f(xs[i]).Some? ==> i in h
  {
    if n == 0 then []
    else Hits(xs, f, n - 1) + (if f(xs[n - 1]).Some? then [n - 1] else [])
  }

  lemma {:induction false} FilterMapAppend<A, B>(a: seq<A>, b: seq<A>, f: A -> Option<B>)
    ensures FilterMap(a + b, f) == FilterMap(a, f) + FilterMap(b, f)
  {
    if |a| == 0 {
      assert a + b == b;
    } else {
      assert (a + b)[1..] == a[1..] + b;
      FilterMapAppend(a[1..], b, f);
    }
  }

  /** One element in the middle of the input contributes exactly its own
      successful value, or nothing. */
  lemma FilterMapSplit<A, B>(a: seq<A>, x: A, b: seq<A>, f: A -> Option<B>)
    ensures f(x).None? ==> FilterMap(a + [x] + b, f) == FilterMap(a + b, f)
    ensures f(x).Some? ==> FilterMap(a + [x] + b, f) == FilterMap(a, f) + [f(x).value] + FilterMap(b, f)
    ensures |FilterMap(a + [x] + b, f)| == |FilterMap(a + b, f)| + (if f(x).Some? then 1 else 0)
  {
    FilterMapAppend(a + [x], b, f);
    FilterMapAppend(a, [x], f);
    FilterMapAppend(a, b, f);
    assert FilterMap([x], f) == if f(x).Some? then [f(x).value] else [] by {
      assert [x][1..] == [];
    }
  }

  lemma {:induction false} FilterMapPrefix<A, B>(xs: seq<A>, f: A -> Option<B>, n: nat)
    requires n <= |xs|
    ensures |FilterMap(xs[..n], f)| == |Hits(xs, f, n)|
    ensures forall k :: 0 <= k < |Hits(xs, f, n)| ==> f(xs[Hits(xs, f, n)[k]]) == Some(FilterMap(xs[..n], f)[k])
  {
    if n > 0 {
      FilterMapPrefix(xs, f, n - 1);
      assert xs[..n] == xs[..n - 1] + [xs[n - 1]];
      FilterMapAppend(xs[..n - 1], [xs[n - 1]], f);
      assert [xs[n - 1]][1..] == [];
    }
  }

  /** FilterMap agrees with its reference definition: the k-th output is the
      value `f` produced at the k-th successful position, and there are as many
      outputs as successful positions. Together with the properties of Hits
      this says the output is exactly the successful values, in input order. */
  lemma {:induction false} FilterMapSelectsHits<A, B>(xs: seq<A>, f: A -> Option<B>)
    ensures |FilterMap(xs, f)| == |Hits(xs, f, |xs|)|
    ensures forall k :: 0 <= k < |Hits(xs, f, |xs|)| ==> f(xs[Hits(xs, f, |xs|)[k]]) == Some(FilterMap(xs, f)[k])
  {
    FilterMapPrefix(xs, f, |xs|);
    assert xs[..|xs|] == xs;
  }

  /** A value is produced exactly when some input element yields it. */
  lemma {:induction false} FilterMapMember<A, B>(xs: seq<A>, f: A -> Option<B>, y: B)
    ensures y in FilterMap(xs, f) <==> exists i :: 0 <= i < |xs| && f(xs[i]) == Some(y)
  {
    if |xs| > 0 {
      FilterMapMember(xs[1..], f, y);
      if exists i :: 0 <= i < |xs| && f(xs[i]) == Some(y) {
        var i :| 0 <= i < |xs| && f(xs[i]) == Some(y);
        if i > 0 {
          assert xs[1..][i - 1] == xs[i];
        }
      }
      if exists i :: 0 <= i < |xs[1..]| && f(xs[1..][i]) == Some(y) {
        var i :| 0 <= i < |xs[1..]| && f(xs[1..][i]) == Some(y);
        assert xs[i + 1] == xs[1..][i];
      }
    }
  }

  /** When every application succeeds nothing is dropped and the output is
      the element-wise image of the input. */
  lemma {:induction false} FilterMapTotal<A, B>(xs: seq<A>, f: A -> Option<B>)
    requires forall i :: 0 <= i < |xs| ==> f(xs[i]).Some?
    ensures |FilterMap(xs, f)| == |xs|
    ensures forall i :: 0 <= i < |xs| ==> FilterMap(xs, f)[i] == f(xs[i]).value
  {
    if |xs| > 0 {
      assert forall i :: 0 <= i < |xs[1..]| ==> xs[1..][i] == xs[i + 1];
      FilterMapTotal(xs[1..], f);
    }
  }

  /** When every application fails the output is empty. */
  lemma {:induction false} FilterMapNone<A, B>(xs: seq<A>, f: A -> Option<B>)
    requires forall i :: 0 <= i < |xs| ==> f(xs[i]).None?
    ensures FilterMap(xs, f) == []
  {
    if |xs| > 0 {
      assert forall i :: 0 <= i < |xs[1..]| ==> xs[1..][i] == xs[i + 1];
      FilterMapNone(xs[1..], f);
    }
  }

  /** Reference definition of a total: f(s[0]) + f(s[1]) + ... */
  function Sum<T>(s: seq<T>, f: T -> int): (total: int)
  {
    if |s| == 0 then 0 else f(s[0]) + Sum(s[1..], f)
  }

  /** A left fold with `+` starting from `acc`, the shape of
      `s.reduce((a, c) => a + f(c), acc)`. */
  function Reduce<T>(s: seq<T>, f: T -> int, acc: int): (total: int)
  {
    if |s| == 0 then acc else Reduce(s[1..], f, acc + f(s[0]))
  }

  lemma {:induction false} ReduceIsSum<T>(s: seq<T>, f: T -> int, acc: int)
    ensures Reduce(s, f, acc) == acc + Sum(s, f)
  {
    if |s| > 0 {
      ReduceIsSum(s[1..], f, acc + f(s[0]));
    }
  }

  lemma {:induction false} SumAppend<T>(a: seq<T>, b: seq<T>, f: T -> int)
    ensures Sum(a + b, f) == Sum(a, f) + Sum(b, f)
  {
    if |a| == 0 {
      assert a + b == b;
    } else {
      assert (a + b)[1..] == a[1..] + b;
      SumAppend(a[1..], b, f);
    }
  }
}
