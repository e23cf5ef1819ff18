/** The two list traversals the Java loops perform: stop at the first element
    that throws, and keep the elements that pass a test. */
module Sequences {
  import opened Wrappers

  /** The number of leading elements of `s` that satisfy `ok`: the index of the
      first element a loop over `s` would stop at, or `|s|` when there is none. */
  function PrefixWhile<T>(s: seq<T>, ok: T -> bool): (k: nat)
    ensures k <= |s|
  {
    if s == [] then 0
    else if !ok(s[0]) then 0
    else 1 + PrefixWhile(s[1..], ok)
  }

  /** The elements before the stopping point pass, and the one at it fails. */
  lemma {:induction false} PrefixWhileStops<T>(s: seq<T>, ok: T -> bool)
    ensures forall i :: 0 <= i < PrefixWhile(s, ok) ==> ok(s[i])
    ensures PrefixWhile(s, ok) < |s| ==> !ok(s[PrefixWhile(s, ok)])
  {
    if s != [] && ok(s[0]) {
      PrefixWhileStops(s[1..], ok);
      forall i | 1 <= i < PrefixWhile(s, ok) ensures ok(s[i]) {
        assert s[i] == s[1..][i - 1];
      }
    }
  }

  /** A loop that has got past `i` elements, looking at element `i`: it gets past
      it when it passes, and otherwise it stops there. */
  lemma PrefixWhileStep<T>(s: seq<T>, ok: T -> bool, i: nat)
    requires i <= PrefixWhile(s, ok) && i < |s|
    ensures ok(s[i]) ==> i + 1 <= PrefixWhile(s, ok)
    ensures !ok(s[i]) ==> PrefixWhile(s, ok) == i
  {
    PrefixWhileStops(s, ok);
  }

  /** When every element passes, the loop gets to the end. */
  lemma {:induction false} PrefixWhileAll<T>(s: seq<T>, ok: T -> bool)
    requires forall i :: 0 <= i < |s| ==> ok(s[i])
    ensures PrefixWhile(s, ok) == |s|
  {
    PrefixWhileStops(s, ok);
  }

  /** A prefix that reaches the first failing element stops there too. */
  lemma {:induction false} PrefixWhileOfPrefix<T>(s: seq<T>, ok: T -> bool, n: nat)
    requires PrefixWhile(s, ok) <= n <= |s|
    ensures PrefixWhile(s[..n], ok) == PrefixWhile(s, ok)
  {
    if n > 0 && ok(s[0]) {
      assert s[..n][1..] == s[1..][..n - 1];
      PrefixWhileOfPrefix(s[1..], ok, n - 1);
    }
  }

  /** The in-order sublist of the elements of `s` that satisfy `p`. */
  function Filter<T>(s: seq<T>, p: T -> bool): (r: seq<T>)
    ensures |r| <= |s|
  {
    if s == [] then []
    else Filter(s[..|s| - 1], p) + (if p(s[|s| - 1]) then [s[|s| - 1]] else [])
  }

  /** One more element: the filter of a longer prefix. */
  lemma FilterStep<T>(s: seq<T>, p: T -> bool, i: nat)
    requires i < |s|
    ensures Filter(s[..i + 1], p) == Filter(s[..i], p) + (if p(s[i]) then [s[i]] else [])
  {
    assert s[..i + 1][..i] == s[..i];
  }

  lemma {:induction false} FilterMembers<T>(s: seq<T>, p: T -> bool)
    ensures forall x :: x in Filter(s, p) <==> x in s && p(x)
  {
    if s != [] {
      var init := s[..|s| - 1];
      FilterMembers(init, p);
      assert s == init + [s[|s| - 1]];
    }
  }

  /** Filtering by a test and by its negation splits `s` into two parts that
      together hold every element exactly as often as `s` does. */
  lemma {:induction false} FilterPartition<T>(s: seq<T>, p: T -> bool, q: T -> bool)
    requires forall x :: q(x) == !p(x)
    ensures multiset(Filter(s, p)) + multiset(Filter(s, q)) == multiset(s)
    ensures |Filter(s, p)| + |Filter(s, q)| == |s|
  {
    if s != [] {
      var init := s[..|s| - 1];
      var x := s[|s| - 1];
      FilterPartition(init, p, q);
      assert s == init + [x];
      assert multiset(s) == multiset(init) + multiset{x};
      if p(x) {
        assert Filter(s, p) == Filter(init, p) + [x] && Filter(s, q) == Filter(init, q);
        assert multiset(Filter(s, p)) == multiset(Filter(init, p)) + multiset{x};
      } else {
        assert Filter(s, q) == Filter(init, q) + [x] && Filter(s, p) == Filter(init, p);
        assert multiset(Filter(s, q)) == multiset(Filter(init, q)) + multiset{x};
      }
    }
  }

  /** The positions in `s` of the elements that satisfy `p`, in order. */
  function KeptPositions<T>(s: seq<T>, p: T -> bool): (idx: seq<nat>)
    ensures |idx| == |Filter(s, p)|
    ensures forall j :: 0 <= j < |idx| ==> idx[j] < |s|
  {
    if s == [] then []
    else KeptPositions(s[..|s| - 1], p) + (if p(s[|s| - 1]) then [|s| - 1] else [])
  }

  lemma {:induction false} KeptPositionsPick<T>(s: seq<T>, p: T -> bool)
    ensures forall j :: 0 <= j < |KeptPositions(s, p)| ==> Filter(s, p)[j] == s[KeptPositions(s, p)[j]]
  {
    if s != [] {
      var n := |s| - 1;
      var init := s[..n];
      KeptPositionsPick(init, p);
      forall j | 0 <= j < |KeptPositions(init, p)| ensures init[KeptPositions(init, p)[j]] == s[KeptPositions(init, p)[j]] {
      }
    }
  }

  lemma {:induction false} KeptPositionsIncrease<T>(s: seq<T>, p: T -> bool)
    ensures forall j, j' :: 0 <= j < j' < |KeptPositions(s, p)| ==> KeptPositions(s, p)[j] < KeptPositions(s, p)[j']
  {
    if s != [] {
      KeptPositionsIncrease(s[..|s| - 1], p);
    }
  }

  lemma {:induction false} KeptPositionsComplete<T>(s: seq<T>, p: T -> bool)
    ensures forall i :: 0 <= i < |s| && p(s[i]) ==> i in KeptPositions(s, p)
  {
    if s != [] {
      var n := |s| - 1;
      var init := s[..n];
      KeptPositionsComplete(init, p);
      forall i | 0 <= i < n && p(s[i]) ensures i in KeptPositions(s, p) {
        assert init[i] == s[i];
      }
    }
  }

  /** The filter is a sublist: `idx` gives the strictly increasing position in
      `s` of each kept element, and every position whose element satisfies `p`
      is among them. */
  lemma FilterSublist<T>(s: seq<T>, p: T -> bool) returns (idx: seq<nat>)
    ensures |idx| == |Filter(s, p)|
    ensures forall j :: 0 <= j < |idx| ==> idx[j] < |s| && Filter(s, p)[j] == s[idx[j]]
    ensures forall j, j' :: 0 <= j < j' < |idx| ==> idx[j] < idx[j']
    ensures forall i :: 0 <= i < |s| && p(s[i]) ==> i in idx
  {
    idx := KeptPositions(s, p);
    KeptPositionsPick(s, p);
    KeptPositionsIncrease(s, p);
    KeptPositionsComplete(s, p);
  }

  lemma {:induction false} FilterKeepsAll<T>(s: seq<T>, p: T -> bool)
    requires forall x :: x in s ==> p(x)
    ensures Filter(s, p) == s
  {
    if s != [] {
      var n := |s| - 1;
      var init := s[..n];
      forall x | x in init ensures p(x) {
        var k :| 0 <= k < n && init[k] == x;
        assert s[k] == x;
      }
      FilterKeepsAll(init, p);
      assert s[n] in s;
      assert s == init + [s[n]];
    }
  }

  lemma {:induction false} FilterDropsAll<T>(s: seq<T>, p: T -> bool)
    requires forall x :: x in s ==> !p(x)
    ensures Filter(s, p) == []
  {
    if s != [] {
      var n := |s| - 1;
      var init := s[..n];
      forall x | x in init ensures !p(x) {
        var k :| 0 <= k < n && init[k] == x;
        assert s[k] == x;
      }
      FilterDropsAll(init, p);
      assert s[n] in s;
    }
  }

  /** The in-order values of `f` over the elements of `s` for which it has one. */
  function Collect<T, U>(s: seq<T>, f: T -> Option<U>): (r: seq<U>)
    ensures |r| <= |s|
  {
    if s == [] then []
    else Collect(s[..|s| - 1], f) + (if f(s[|s| - 1]).Some? then [f(s[|s| - 1]).value] else [])
  }

  /** One more element: the values collected from a longer prefix. */
  lemma CollectStep<T, U>(s: seq<T>, f: T -> Option<U>, i: nat)
    requires i < |s|
    ensures Collect(s[..i + 1], f) == Collect(s[..i], f) + (if f(s[i]).Some? then [f(s[i]).value] else [])
  {
    assert s[..i + 1][..i] == s[..i];
  }

  lemma {:induction false} CollectMembers<T, U>(s: seq<T>, f: T -> Option<U>)
    ensures forall y :: y in Collect(s, f) <==> exists x :: x in s && f(x) == Some(y)
  {
    if s != [] {
      var init := s[..|s| - 1];
      CollectMembers(init, f);
      assert s == init + [s[|s| - 1]];
      forall y | exists x :: x in s && f(x) == Some(y) ensures y in Collect(s, f) {
        var x :| x in s && f(x) == Some(y);
        if x != s[|s| - 1] {
          assert x in init;
        }
      }
    }
  }
  /** Collecting, by position: each element with a value contributes it, and
      every collected value comes from some position. */
  lemma {:induction false} CollectAt<T, U>(s: seq<T>, f: T -> Option<U>)
    ensures forall i :: 0 <= i < |s| && f(s[i]).Some? ==> f(s[i]).value in Collect(s, f)
    ensures forall y :: y in Collect(s, f) ==> exists i :: 0 <= i < |s| && f(s[i]) == Some(y)
  {
    if s != [] {
      var n := |s| - 1;
      var init := s[..n];
      CollectAt(init, f);
      forall y | y in Collect(s, f) ensures exists i :: 0 <= i < |s| && f(s[i]) == Some(y) {
        if y in Collect(init, f) {
          var i :| 0 <= i < n && f(init[i]) == Some(y);
          assert s[i] == init[i];
        } else {
          assert f(s[n]) == Some(y);
        }
      }
      forall i | 0 <= i < |s| && f(s[i]).Some? ensures f(s[i]).value in Collect(s, f) {
        if i < n {
          assert init[i] == s[i];
        }
      }
    }
  }

  /** When every element has a value, collecting keeps one value per element,
      in place. */
  lemma {:induction false} CollectAll<T, U>(s: seq<T>, f: T -> Option<U>)
    requires forall i :: 0 <= i < |s| ==> f(s[i]).Some?
    ensures |Collect(s, f)| == |s|
    ensures forall i :: 0 <= i < |s| ==> Collect(s, f)[i] == f(s[i]).value
  {
    if s != [] {
      var n := |s| - 1;
      forall i | 0 <= i < n ensures f(s[..n][i]).Some? {
        assert s[..n][i] == s[i];
      }
      CollectAll(s[..n], f);
    }
  }

  /** The sum of `f` over the elements of `s`. */
  function SumOf<T>(s: seq<T>, f: T -> int): int
  {
    if s == [] then 0 else SumOf(s[..|s| - 1], f) + f(s[|s| - 1])
  }

  lemma {:induction false} SumOfConcat<T>(a: seq<T>, b: seq<T>, f: T -> int)
    ensures SumOf(a + b, f) == SumOf(a, f) + SumOf(b, f)
  {
    if b != [] {
      var n := |b| - 1;
      assert (a + b)[..|a + b| - 1] == a + b[..n];
      SumOfConcat(a, b[..n], f);
    } else {
      assert a + b == a;
    }
  }

  /** A sum does not depend on the order of the elements. */
  lemma {:induction false} SumOfPermutation<T>(a: seq<T>, b: seq<T>, f: T -> int)
    requires multiset(a) == multiset(b)
    ensures SumOf(a, f) == SumOf(b, f)
    decreases |a|
  {
    if a != [] {
      var n := |a| - 1;
      var x := a[n];
      assert a == a[..n] + [x];
      assert x in multiset(b);
      var j :| 0 <= j < |b| && b[j] == x;
      var rest := b[..j] + b[j + 1..];
      assert b == b[..j] + [x] + b[j + 1..];
      assert multiset(b) == multiset(b[..j]) + multiset{x} + multiset(b[j + 1..]);
      assert multiset(a) == multiset(a[..n]) + multiset{x};
      assert multiset(rest) == multiset(b[..j]) + multiset(b[j + 1..]);
      assert multiset(rest) == multiset(b) - multiset{x};
      assert multiset(a[..n]) == multiset(a) - multiset{x};
      SumOfPermutation(a[..n], rest, f);
      SumOfConcat(b[..j] + [x], b[j + 1..], f);
      SumOfConcat(b[..j], [x], f);
      SumOfConcat(b[..j], b[j + 1..], f);
      assert SumOf([x], f) == f(x) by {
        assert [x][..0] == [];
      }
    } else {
      assert b == [];
    }
  }

  /** Elements on which `f` is zero add nothing. */
  lemma {:induction false} SumOfZero<T>(s: seq<T>, f: T -> int)
    requires forall i :: 0 <= i < |s| ==> f(s[i]) == 0
    ensures SumOf(s, f) == 0
  {
    if s != [] {
      SumOfZero(s[..|s| - 1], f);
    }
  }
}
