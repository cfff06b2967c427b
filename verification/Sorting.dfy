/** Python's `sorted` and `list.sort`: a stable sort, stated for any strict weak order. */
module Sorting {

  ghost predicate StrictWeak<T(!new)>(lt: (T, T) -> bool) {
    && (forall x :: !lt(x, x))
    && (forall x, y, z :: lt(x, y) && lt(y, z) ==> lt(x, z))
    && (forall x, y, z :: lt(x, z) ==> lt(x, y) || lt(y, z))
  }

  /** Every earlier element is related to every later one. */
  ghost predicate Pairwise<T>(related: (T, T) -> bool, s: seq<T>) {
    forall i, j :: 0 <= i < j < |s| ==> related(s[i], s[j])
  }

  lemma {:induction false} PairwiseConcat<T>(related: (T, T) -> bool, a: seq<T>, b: seq<T>)
    requires Pairwise(related, a) && Pairwise(related, b)
    requires forall x, y | x in a && y in b :: related(x, y)
    ensures Pairwise(related, a + b)
  {
  }

  /** Ordered by `lt`, and by `tie` where `lt` does not decide. */
  ghost predicate OrderedThen<T>(lt: (T, T) -> bool, tie: (T, T) -> bool, s: seq<T>) {
    forall i, j :: 0 <= i < j < |s| ==> lt(s[i], s[j]) || (!lt(s[j], s[i]) && tie(s[i], s[j]))
  }

  function Insert<T>(lt: (T, T) -> bool, s: seq<T>, x: T): (r: seq<T>)
    ensures multiset(r) == multiset(s) + multiset{x}
  {
    if s == [] then [x]
    else
      var last := s[|s| - 1];
      assert s == s[..|s| - 1] + [last];
      if lt(x, last) then Insert(lt, s[..|s| - 1], x) + [last] else s + [x]
  }

  /** The result is a permutation of the input. */
  function Sort<T>(lt: (T, T) -> bool, s: seq<T>): (r: seq<T>)
    ensures multiset(r) == multiset(s)
    ensures |r| == |s|
  {
    if s == [] then []
    else
      assert s == s[..|s| - 1] + [s[|s| - 1]];
      var r := Insert(lt, Sort(lt, s[..|s| - 1]), s[|s| - 1]);
      assert |multiset(r)| == |multiset(s)|;
      r
  }

  lemma {:induction false} InsertKeepsOrder<T(!new)>(lt: (T, T) -> bool, tie: (T, T) -> bool, s: seq<T>, x: T)
    requires StrictWeak(lt)
    requires OrderedThen(lt, tie, s)
    requires forall e | e in s :: tie(e, x)
    ensures OrderedThen(lt, tie, Insert(lt, s, x))
  {
    if s != [] {
      var last := s[|s| - 1];
      var init := s[..|s| - 1];
      if lt(x, last) {
        InsertKeepsOrder(lt, tie, init, x);
        var r := Insert(lt, init, x);
        forall i | 0 <= i < |r| ensures lt(r[i], last) || (!lt(last, r[i]) && tie(r[i], last)) {
          assert r[i] in multiset(r);
          assert r[i] == x || r[i] in init;
        }
      }
    }
  }

  /** The sort is ordered, and elements it does not separate keep any relation they had in the input order. */
  lemma {:induction false} SortStable<T(!new)>(lt: (T, T) -> bool, tie: (T, T) -> bool, s: seq<T>)
    requires StrictWeak(lt)
    requires Pairwise(tie, s)
    ensures OrderedThen(lt, tie, Sort(lt, s))
  {
    if s != [] {
      var init := s[..|s| - 1];
      SortStable(lt, tie, init);
      forall e | e in Sort(lt, init) ensures tie(e, s[|s| - 1]) {
        assert e in multiset(Sort(lt, init));
        assert e in init;
      }
      InsertKeepsOrder(lt, tie, Sort(lt, init), s[|s| - 1]);
    }
  }

  /** Elements that are all separated by the order come out strictly ordered. */
  lemma {:induction false} SortStrict<T(!new)>(lt: (T, T) -> bool, s: seq<T>)
    requires StrictWeak(lt)
    requires Pairwise((a: T, b: T) => lt(a, b) || lt(b, a), s)
    ensures Pairwise(lt, Sort(lt, s))
  {
    SortStable(lt, (a: T, b: T) => lt(a, b) || lt(b, a), s);
  }

  lemma PopFirst<T>(s: seq<T>)
    requires s != []
    ensures multiset(s[1..]) == multiset(s) - multiset{s[0]}
  {
    assert s == [s[0]] + s[1..];
  }

  lemma {:induction false} SameHead<T(!new)>(lt: (T, T) -> bool, a: seq<T>, b: seq<T>)
    requires forall x, y :: !(lt(x, y) && lt(y, x))
    requires multiset(a) == multiset(b) && a != [] && b != []
    requires Pairwise(lt, a) && Pairwise(lt, b)
    ensures a[0] == b[0]
  {
    assert a[0] in multiset(b) && b[0] in multiset(a);
    var k :| 0 <= k < |b| && b[k] == a[0];
    var m :| 0 <= m < |a| && a[m] == b[0];
  }

  /** A sequence has only one strictly ordered arrangement. */
  lemma {:induction false} StrictOrderUnique<T(!new)>(lt: (T, T) -> bool, a: seq<T>, b: seq<T>)
    requires forall x, y :: !(lt(x, y) && lt(y, x))
    requires multiset(a) == multiset(b)
    requires Pairwise(lt, a) && Pairwise(lt, b)
    ensures a == b
  {
    SameSize(a, b);
    if a != [] {
      SameHead(lt, a, b);
      SameTail(a, b);
      PairwiseTail(lt, a);
      PairwiseTail(lt, b);
      StrictOrderUnique(lt, a[1..], b[1..]);
      assert a == [a[0]] + a[1..] && b == [b[0]] + b[1..];
    }
  }

  lemma {:induction false} SameSize<T>(a: seq<T>, b: seq<T>)
    requires multiset(a) == multiset(b)
    ensures |a| == |b|
  {
    assert |a| == |multiset(a)| == |multiset(b)| == |b|;
  }

  lemma {:induction false} SameTail<T>(a: seq<T>, b: seq<T>)
    requires a != [] && b != [] && a[0] == b[0] && multiset(a) == multiset(b)
    ensures multiset(a[1..]) == multiset(b[1..])
  {
    PopFirst(a);
    PopFirst(b);
  }

  lemma {:induction false} PairwiseTail<T>(related: (T, T) -> bool, s: seq<T>)
    requires s != [] && Pairwise(related, s)
    ensures Pairwise(related, s[1..])
  {
  }
}
