/** Sequence vocabulary shared by both loaders: distinctness, reversal (what a
    run of `push_front` does to the pushed items), filtering and `take(n)`. */
module Seqs {

  predicate Distinct<T(==)>(s: seq<T>) {
    forall i, j | 0 <= i < j < |s| :: s[i] != s[j]
  }

  /** `s` back to front. */
  function Reverse<T>(s: seq<T>): (r: seq<T>)
    ensures |r| == |s|
    ensures forall i :: 0 <= i < |s| ==> r[i] == s[|s| - 1 - i]
  {
    seq(|s|, i requires 0 <= i < |s| => s[|s| - 1 - i])
  }

  /** Reversal keeps exactly the same elements and keeps them distinct. */
  lemma ReverseElements<T>(s: seq<T>)
    ensures forall x :: x in Reverse(s) <==> x in s
    ensures Distinct(s) ==> Distinct(Reverse(s))
  {
    var r := Reverse(s);
    forall x | x in s ensures x in r {
      var i :| 0 <= i < |s| && s[i] == x;
      assert r[|s| - 1 - i] == x;
    }
  }

  /** Pushing `x` at the front after reversing `s` is reversing `s + [x]`. */
  lemma ReverseSnoc<T>(s: seq<T>, x: T)
    ensures Reverse(s + [x]) == [x] + Reverse(s)
  {
    var l, r := Reverse(s + [x]), [x] + Reverse(s);
    assert |l| == |r|;
    forall i | 0 <= i < |l| ensures l[i] == r[i] {
      if i > 0 {
        assert r[i] == Reverse(s)[i - 1];
      }
    }
  }

  /** `q` is what pushing the items of `s` one by one to the front of `rest` leaves. */
  predicate PushedSoFar<T(==)>(s: seq<T>, rest: seq<T>, q: seq<T>) {
    && |q| == |s| + |rest| && q[|s|..] == rest
    && forall i | 0 <= i < |s| :: q[i] == s[|s| - 1 - i]
  }

  /** One more `push_front`. */
  lemma PushFrontStep<T>(s: seq<T>, rest: seq<T>, q: seq<T>, x: T)
    requires PushedSoFar(s, rest, q)
    ensures PushedSoFar(s + [x], rest, [x] + q)
  {
    var s', q' := s + [x], [x] + q;
    assert q'[|s'|..] == q[|s|..];
    forall i | 0 <= i < |s'| ensures q'[i] == s'[|s'| - 1 - i] {
      if i > 0 {
        assert q'[i] == q[i - 1];
      }
    }
  }

  /** Pushing the items of `s` one by one to the front of `rest` leaves `Reverse(s) + rest`. */
  lemma PushedFront<T>(s: seq<T>, rest: seq<T>, q: seq<T>)
    requires PushedSoFar(s, rest, q)
    ensures q == Reverse(s) + rest
  {
    var r := Reverse(s) + rest;
    forall i | 0 <= i < |q| ensures q[i] == r[i] {
      if i >= |s| {
        assert q[i] == q[|s|..][i - |s|];
      }
    }
  }

  /** The elements of `s` that satisfy `p`, in their original order. */
  function Filter<T>(s: seq<T>, p: T -> bool): (r: seq<T>)
    ensures |r| <= |s|
  {
    if s == [] then []
    else if p(s[|s| - 1]) then Filter(s[..|s| - 1], p) + [s[|s| - 1]]
    else Filter(s[..|s| - 1], p)
  }

  /** Everything the filter keeps comes from `s` and satisfies `p`. */
  lemma {:induction false} FilterSound<T>(s: seq<T>, p: T -> bool)
    ensures forall i | 0 <= i < |Filter(s, p)| :: Filter(s, p)[i] in s && p(Filter(s, p)[i])
  {
    if s != [] {
      var init := s[..|s| - 1];
      FilterSound(init, p);
      forall i | 0 <= i < |Filter(s, p)| ensures Filter(s, p)[i] in s && p(Filter(s, p)[i]) {
        if i < |Filter(init, p)| {
          assert Filter(s, p)[i] == Filter(init, p)[i];
          assert Filter(init, p)[i] in init;
        }
      }
    }
  }

  /** The filter keeps everything of `s` that satisfies `p`. */
  lemma {:induction false} FilterComplete<T>(s: seq<T>, p: T -> bool)
    ensures forall i | 0 <= i < |s| && p(s[i]) :: s[i] in Filter(s, p)
  {
    if s != [] {
      var init := s[..|s| - 1];
      FilterComplete(init, p);
      forall i | 0 <= i < |s| && p(s[i]) ensures s[i] in Filter(s, p) {
        if i < |s| - 1 {
          assert s[i] == init[i];
          assert s[i] in Filter(init, p);
        }
      }
    }
  }

  /** Filtering one more item keeps it exactly when it satisfies `p`. */
  lemma FilterSnoc<T>(s: seq<T>, x: T, p: T -> bool)
    ensures Filter(s + [x], p) == if p(x) then Filter(s, p) + [x] else Filter(s, p)
  {
    assert (s + [x])[..|s|] == s;
  }

  /** Filtering a distinct sequence gives a distinct sequence. */
  lemma {:induction false} FilterDistinct<T>(s: seq<T>, p: T -> bool)
    requires Distinct(s)
    ensures Distinct(Filter(s, p))
  {
    if s != [] {
      var init := s[..|s| - 1];
      FilterDistinct(init, p);
      FilterSound(init, p);
      if p(s[|s| - 1]) {
        DistinctConcat(Filter(init, p), [s[|s| - 1]]);
        forall i | 0 <= i < |Filter(init, p)| ensures Filter(init, p)[i] != s[|s| - 1] {
          var j :| 0 <= j < |init| && init[j] == Filter(init, p)[i];
          assert s[j] == init[j];
        }
      }
    }
  }

  /** Filtering distributes over concatenation. */
  lemma {:induction false} FilterAppend<T>(a: seq<T>, b: seq<T>, p: T -> bool)
    ensures Filter(a + b, p) == Filter(a, p) + Filter(b, p)
  {
    if b == [] {
      assert a + b == a;
    } else {
      var b' := b[..|b| - 1];
      assert (a + b)[..|a + b| - 1] == a + b';
      FilterAppend(a, b', p);
    }
  }

  /** The first `n` items of `s`, or all of `s` when it is shorter (`take(n)`). */
  function Take<T>(s: seq<T>, n: nat): (r: seq<T>)
    ensures |r| <= n && |r| <= |s|
    ensures |s| <= n ==> r == s
    ensures n < |s| ==> |r| == n
    ensures r == s[..|r|]
  {
    if |s| <= n then s else s[..n]
  }

  /** A filter of a prefix that already holds `n` items decides `take(n)` of the whole filter. */
  lemma TakeOfFilterPrefix<T>(s: seq<T>, i: nat, p: T -> bool, n: nat)
    requires i <= |s|
    requires |Filter(s[..i], p)| == n || i == |s|
    ensures Take(Filter(s, p), n) == Take(Filter(s[..i], p), n)
  {
    assert s == s[..i] + s[i..];
    FilterAppend(s[..i], s[i..], p);
  }

  /** A concatenation is distinct exactly when both parts are and they share nothing. */
  lemma DistinctConcat<T>(a: seq<T>, b: seq<T>)
    ensures Distinct(a + b) <==> Distinct(a) && Distinct(b) && forall i, j | 0 <= i < |a| && 0 <= j < |b| :: a[i] != b[j]
  {
    var ab := a + b;
    assert forall i | 0 <= i < |a| :: ab[i] == a[i];
    assert forall j | 0 <= j < |b| :: ab[|a| + j] == b[j];
    if Distinct(a) && Distinct(b) && forall i, j | 0 <= i < |a| && 0 <= j < |b| :: a[i] != b[j] {
      forall i, j | 0 <= i < j < |ab| ensures ab[i] != ab[j] {
        if i < |a| && j >= |a| {
          assert ab[j] == b[j - |a|];
        } else if i >= |a| {
          assert ab[i] == b[i - |a|] && ab[j] == b[j - |a|];
        }
      }
    }
    if Distinct(ab) {
      forall i, j | 0 <= i < |a| && 0 <= j < |b| ensures a[i] != b[j] {
        assert ab[i] != ab[|a| + j];
      }
      forall i, j | 0 <= i < j < |b| ensures b[i] != b[j] {
        assert ab[|a| + i] != ab[|a| + j];
      }
    }
  }

  /** The elements of a sequence, as a set. */
  function Elements<T>(s: seq<T>): (r: set<T>)
    ensures forall i | 0 <= i < |s| :: s[i] in r
    ensures forall x | x in r :: x in s
  {
    set x | x in s
  }

  lemma ElementsSnoc<T>(s: seq<T>, x: T)
    ensures Elements(s + [x]) == Elements(s) + {x}
  {
    assert forall y | y in s + [x] :: y in s || y == x;
  }
}
