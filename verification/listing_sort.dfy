/**
 `Array.prototype.sort` with one of the listing comparators. The sort is
 stable (ECMAScript 2019 and later), so it is modelled as an insertion sort
 that places each element ahead of the first element it may precede;
 its results are sorted, a permutation of the input and keep tied
 listings in input order.
 */
module ListingSort {
  import opened ProduceListing

  /** Every listing may precede every later one. */
  predicate Sorted(k: SortKey, s: seq<Produce>) {
    forall i, j :: 0 <= i < j < |s| ==> Before(k, s[i], s[j])
  }

  /** The listings of `s` tied with `e`, in their order in `s`. */
  function TiedWith(k: SortKey, s: seq<Produce>, e: Produce): seq<Produce> {
    if |s| == 0 then []
    else (if Tied(k, s[0], e) then [s[0]] else []) + TiedWith(k, s[1..], e)
  }

  lemma TiedWithCons(k: SortKey, x: Produce, s: seq<Produce>, e: Produce)
    ensures TiedWith(k, [x] + s, e) == (if Tied(k, x, e) then [x] else []) + TiedWith(k, s, e)
  {
    assert ([x] + s)[1..] == s;
  }

  /** Insert `x` into sorted `s` ahead of the first element it may precede. */
  function Insert(k: SortKey, x: Produce, s: seq<Produce>): (r: seq<Produce>)
    requires Sorted(k, s)
    ensures Sorted(k, r)
    ensures multiset(r) == multiset(s) + multiset{x}
  {
    if |s| == 0 || Before(k, x, s[0]) then
      InsertAtFront(k, x, s);
      [x] + s
    else
      var rest := Insert(k, x, s[1..]);
      InsertBehind(k, x, s, rest);
      [s[0]] + rest
  }

  lemma InsertAtFront(k: SortKey, x: Produce, s: seq<Produce>)
    requires Sorted(k, s)
    requires |s| == 0 || Before(k, x, s[0])
    ensures Sorted(k, [x] + s)
  {
    var r := [x] + s;
    forall i, j | 0 <= i < j < |r| ensures Before(k, r[i], r[j]) {
      if i == 0 && j > 1 {
        BeforeTransitive(k, x, s[0], s[j - 1]);
      }
    }
  }

  lemma InsertBehind(k: SortKey, x: Produce, s: seq<Produce>, rest: seq<Produce>)
    requires Sorted(k, s) && |s| > 0 && !Before(k, x, s[0])
    requires Sorted(k, rest) && multiset(rest) == multiset(s[1..]) + multiset{x}
    ensures Sorted(k, [s[0]] + rest)
    ensures multiset([s[0]] + rest) == multiset(s) + multiset{x}
  {
    BeforeTotal(k, x, s[0]);
    var r := [s[0]] + rest;
    forall i, j | 0 <= i < j < |r| ensures Before(k, r[i], r[j]) {
      if i == 0 {
        var y := rest[j - 1];
        assert y in multiset(rest);
        assert y == x || y in multiset(s[1..]);
        if y != x {
          var m :| 1 <= m < |s| && s[m] == y by {
            assert y in s[1..];
          }
        }
      }
    }
    assert s == [s[0]] + s[1..];
  }

  /** Inserting `x` ahead of the sorted `s` keeps each tie group in the order of `[x] + s`. */
  lemma {:induction false} InsertKeepsTies(k: SortKey, x: Produce, s: seq<Produce>, e: Produce)
    requires Sorted(k, s)
    ensures TiedWith(k, Insert(k, x, s), e) == TiedWith(k, [x] + s, e)
  {
    if |s| > 0 && !Before(k, x, s[0]) {
      var rest := Insert(k, x, s[1..]);
      InsertKeepsTies(k, x, s[1..], e);
      TiedWithCons(k, s[0], rest, e);
      TiedWithCons(k, x, s[1..], e);
      TiedWithCons(k, x, s, e);
      assert s == [s[0]] + s[1..];
      TiedWithCons(k, s[0], s[1..], e);
      if Tied(k, s[0], e) && Tied(k, x, e) {
        BeforeTransitive(k, x, e, s[0]);
      }
    }
  }

  /** The listings of `s` in the order chosen by `k`, ties in input order. */
  function Sort(k: SortKey, s: seq<Produce>): (r: seq<Produce>)
    ensures Sorted(k, r)
    ensures multiset(r) == multiset(s)
    ensures |r| == |s|
  {
    if |s| == 0 then []
    else
      assert s == [s[0]] + s[1..];
      Insert(k, s[0], Sort(k, s[1..]))
  }

  /** The sort is stable: the listings tied with any `e` keep their input order. */
  lemma {:induction false} SortIsStable(k: SortKey, s: seq<Produce>, e: Produce)
    ensures TiedWith(k, Sort(k, s), e) == TiedWith(k, s, e)
  {
    if |s| > 0 {
      SortIsStable(k, s[1..], e);
      InsertKeepsTies(k, s[0], Sort(k, s[1..]), e);
      TiedWithCons(k, s[0], Sort(k, s[1..]), e);
      TiedWithCons(k, s[0], s[1..], e);
      assert s == [s[0]] + s[1..];
    }
  }

  /** Sorting an already sorted sequence leaves it unchanged. */
  lemma {:induction false} SortOfSorted(k: SortKey, s: seq<Produce>)
    requires Sorted(k, s)
    ensures Sort(k, s) == s
  {
    if |s| > 0 {
      assert Sorted(k, s[1..]);
      SortOfSorted(k, s[1..]);
      assert s == [s[0]] + s[1..];
    }
  }
}
