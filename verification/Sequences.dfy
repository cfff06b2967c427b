/** Mapping, selecting, counting and deduplicating elements of sequences. */
module Sequences {

  function Map<T, U>(f: T -> U, s: seq<T>): (r: seq<U>)
    ensures |r| == |s|
    ensures forall i | 0 <= i < |s| :: r[i] == f(s[i])
  {
    seq(|s|, i requires 0 <= i < |s| => f(s[i]))
  }

  lemma InMap<T, U>(f: T -> U, s: seq<T>)
    ensures forall x | x in s :: f(x) in Map(f, s)
  {
    forall x | x in s ensures f(x) in Map(f, s) {
      var i :| 0 <= i < |s| && s[i] == x;
      assert Map(f, s)[i] == f(x);
    }
  }

  lemma InMapExactly<T, U(!new)>(f: T -> U, s: seq<T>)
    ensures forall y :: y in Map(f, s) <==> exists x | x in s :: f(x) == y
  {
    InMap(f, s);
  }

  /** The first position of `x`, or the length when it does not occur. */
  function IndexIn<T(==)>(s: seq<T>, x: T): (i: nat)
    ensures i <= |s|
    ensures x in s ==> i < |s| && s[i] == x
  {
    if s == [] then 0 else if s[0] == x then 0 else 1 + IndexIn(s[1..], x)
  }

  function Reversed<T>(s: seq<T>): (r: seq<T>)
    ensures |r| == |s|
    ensures forall i | 0 <= i < |s| :: r[i] == s[|s| - 1 - i]
    ensures multiset(r) == multiset(s)
  {
    if s == [] then []
    else
      assert s == [s[0]] + s[1..];
      Reversed(s[1..]) + [s[0]]
  }

  lemma {:induction false} ReversedSnoc<T>(s: seq<T>, x: T)
    ensures Reversed(s + [x]) == [x] + Reversed(s)
  {
    if s == [] {
      assert s + [x] == [x];
    } else {
      assert (s + [x])[1..] == s[1..] + [x];
      ReversedSnoc(s[1..], x);
    }
  }

  /** The elements in first-seen order, as `dict.fromkeys` keeps them. */
  function Distinct<T(==)>(s: seq<T>): (r: seq<T>)
    ensures forall x | x in s :: x in r
    ensures forall x | x in r :: x in s
    ensures forall i, j | 0 <= i < j < |r| :: r[i] != r[j]
  {
    if s == [] then []
    else
      assert s == s[..|s| - 1] + [s[|s| - 1]];
      var init := Distinct(s[..|s| - 1]);
      if s[|s| - 1] in init then init else init + [s[|s| - 1]]
  }

  lemma {:induction false} IndexInConcat<T>(s: seq<T>, x: T, y: T)
    ensures y in s ==> IndexIn(s + [x], y) == IndexIn(s, y)
    ensures y !in s ==> IndexIn(s + [x], y) >= |s|
  {
    if s != [] {
      assert (s + [x])[1..] == s[1..] + [x];
      IndexInConcat(s[1..], x, y);
    }
  }

  /** The order is that of first occurrences. */
  lemma {:induction false} DistinctFirstSeen<T>(s: seq<T>, i: nat, j: nat)
    requires i < j < |Distinct(s)|
    ensures IndexIn(s, Distinct(s)[i]) < IndexIn(s, Distinct(s)[j])
  {
    var init, last := s[..|s| - 1], s[|s| - 1];
    assert s == init + [last];
    IndexInConcat(init, last, Distinct(s)[i]);
    IndexInConcat(init, last, Distinct(s)[j]);
    if j < |Distinct(init)| {
      DistinctFirstSeen(init, i, j);
    }
  }

  /** A sequence without repetitions has as many elements as its set. */
  lemma {:induction false} DistinctSize<T>(r: seq<T>, all: set<T>)
    requires forall i, j | 0 <= i < j < |r| :: r[i] != r[j]
    requires forall x :: x in r <==> x in all
    ensures |r| == |all|
  {
    if r == [] {
      assert all == {};
    } else {
      var init, last := r[..|r| - 1], r[|r| - 1];
      assert r == init + [last];
      assert last !in init;
      DistinctSize(init, all - {last});
    }
  }

  function Bit(b: bool): nat {
    if b then 1 else 0
  }

  function Count<T>(p: T -> bool, s: seq<T>): (n: nat)
    ensures n <= |s|
  {
    if s == [] then 0 else (if p(s[0]) then 1 else 0) + Count(p, s[1..])
  }

  lemma {:induction false} CountConcat<T>(p: T -> bool, a: seq<T>, b: seq<T>)
    ensures Count(p, a + b) == Count(p, a) + Count(p, b)
  {
    if a == [] {
      assert a + b == b;
    } else {
      assert (a + b)[1..] == a[1..] + b;
      CountConcat(p, a[1..], b);
    }
  }

  lemma {:induction false} CountSnoc<T>(p: T -> bool, s: seq<T>)
    requires s != []
    ensures Count(p, s) == Count(p, s[..|s| - 1]) + (if p(s[|s| - 1]) then 1 else 0)
  {
    assert s == s[..|s| - 1] + [s[|s| - 1]];
    CountConcat(p, s[..|s| - 1], [s[|s| - 1]]);
    assert Count(p, [s[|s| - 1]]) == if p(s[|s| - 1]) then 1 else 0;
  }

  lemma {:induction false} CountAll<T>(p: T -> bool, s: seq<T>)
    requires forall x | x in s :: p(x)
    ensures Count(p, s) == |s|
  {
    if s != [] {
      CountAll(p, s[1..]);
    }
  }

  lemma {:induction false} CountNone<T>(p: T -> bool, s: seq<T>)
    ensures Count(p, s) == 0 <==> forall x | x in s :: !p(x)
  {
    if s != [] {
      CountNone(p, s[1..]);
      assert s == [s[0]] + s[1..];
    }
  }

  lemma {:induction false} CountSame<T>(p: T -> bool, q: T -> bool, s: seq<T>)
    requires forall x | x in s :: p(x) == q(x)
    ensures Count(p, s) == Count(q, s)
  {
    if s != [] {
      CountSame(p, q, s[1..]);
    }
  }

  /** Two properties that exclude each other add up. */
  lemma {:induction false} CountEither<T>(p: T -> bool, q: T -> bool, either: T -> bool, s: seq<T>)
    requires forall x | x in s :: (either(x) <==> p(x) || q(x)) && !(p(x) && q(x))
    ensures Count(either, s) == Count(p, s) + Count(q, s)
  {
    if s != [] {
      CountEither(p, q, either, s[1..]);
    }
  }

  /** Counting is the size of an index set. */
  lemma {:induction false} CountIndices<T>(p: T -> bool, s: seq<T>, indices: set<int>)
    requires forall i | i in indices :: 0 <= i < |s| && p(s[i])
    requires forall i | 0 <= i < |s| && p(s[i]) :: i in indices
    ensures Count(p, s) == |indices|
  {
    if s == [] {
      forall i ensures i !in indices {}
      assert indices == {};
    } else {
      CountSnoc(p, s);
      CountIndices(p, s[..|s| - 1], indices - {|s| - 1});
    }
  }

  /** A property and its negation split a sequence. */
  lemma {:induction false} CountSplit<T>(p: T -> bool, not: T -> bool, s: seq<T>)
    requires forall x | x in s :: not(x) <==> !p(x)
    ensures Count(p, s) + Count(not, s) == |s|
  {
    if s != [] {
      CountSplit(p, not, s[1..]);
    }
  }

  /** A permutation holds the first element somewhere, and the rest is a permutation of the rest. */
  lemma {:induction false} PickOut<T>(a: seq<T>, b: seq<T>) returns (k: nat)
    requires multiset(a) == multiset(b) && a != []
    ensures k < |b| && b[k] == a[0]
    ensures multiset(a[1..]) == multiset(b[..k] + b[k + 1..])
  {
    assert a[0] in multiset(b);
    k :| 0 <= k < |b| && b[k] == a[0];
    assert b == b[..k] + ([b[k]] + b[k + 1..]);
    assert a == [a[0]] + a[1..];
    assert multiset(a[1..]) == multiset(a) - multiset{a[0]};
    assert multiset(b[..k] + b[k + 1..]) == multiset(b) - multiset{b[k]};
  }

  lemma {:induction false} CountWithout<T>(p: T -> bool, s: seq<T>, k: nat)
    requires k < |s|
    ensures Count(p, s) == Count(p, s[..k] + s[k + 1..]) + if p(s[k]) then 1 else 0
  {
    var tail := [s[k]] + s[k + 1..];
    assert s == s[..k] + tail;
    assert tail[1..] == s[k + 1..];
    CountConcat(p, s[..k], tail);
    CountConcat(p, s[..k], s[k + 1..]);
  }

  /** Counts do not depend on order. */
  lemma {:induction false} CountPermutation<T>(p: T -> bool, a: seq<T>, b: seq<T>)
    requires multiset(a) == multiset(b)
    ensures Count(p, a) == Count(p, b)
  {
    if a == [] {
      assert |multiset(b)| == 0;
    } else {
      var k := PickOut(a, b);
      CountPermutation(p, a[1..], b[..k] + b[k + 1..]);
      CountWithout(p, b, k);
    }
  }

  function Select<T>(p: T -> bool, s: seq<T>): (r: seq<T>)
    ensures |r| <= |s|
    ensures forall x | x in r :: x in s && p(x)
    ensures forall x | x in s && p(x) :: x in r
  {
    if s == [] then []
    else
      assert s == [s[0]] + s[1..];
      (if p(s[0]) then [s[0]] else []) + Select(p, s[1..])
  }

  lemma {:induction false} SelectConcat<T>(p: T -> bool, a: seq<T>, b: seq<T>)
    ensures Select(p, a + b) == Select(p, a) + Select(p, b)
  {
    if a == [] {
      assert a + b == b;
    } else {
      assert (a + b)[1..] == a[1..] + b;
      SelectConcat(p, a[1..], b);
    }
  }

  lemma {:induction false} SelectAll<T>(p: T -> bool, s: seq<T>)
    requires forall x | x in s :: p(x)
    ensures Select(p, s) == s
  {
    if s != [] {
      SelectAll(p, s[1..]);
      assert s == [s[0]] + s[1..];
    }
  }

  lemma {:induction false} SelectNone<T>(p: T -> bool, s: seq<T>)
    requires forall x | x in s :: !p(x)
    ensures Select(p, s) == []
  {
    if s != [] {
      SelectNone(p, s[1..]);
    }
  }

  /** Two properties that exclude each other split what either selects. */
  lemma {:induction false} SelectEither<T>(p: T -> bool, q: T -> bool, either: T -> bool, s: seq<T>)
    requires forall x | x in s :: (either(x) <==> p(x) || q(x)) && !(p(x) && q(x))
    ensures multiset(Select(either, s)) == multiset(Select(p, s)) + multiset(Select(q, s))
  {
    if s != [] {
      assert s == [s[0]] + s[1..];
      SelectEither(p, q, either, s[1..]);
    }
  }

  lemma {:induction false} SelectCount<T>(p: T -> bool, s: seq<T>)
    ensures |Select(p, s)| == Count(p, s)
  {
    if s != [] {
      SelectCount(p, s[1..]);
    }
  }
}
