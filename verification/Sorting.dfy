/** Stable sorting by an integer key. */
module Sorting {
  import opened Collections

  function InsertBy<T>(key: T -> int, x: T, s: seq<T>): seq<T> {
    if s == [] || key(x) < key(s[0]) then [x] + s else [s[0]] + InsertBy(key, x, s[1..])
  }

  function SortBy<T>(key: T -> int, s: seq<T>): seq<T> {
    if s == [] then [] else InsertBy(key, s[|s| - 1], SortBy(key, s[..|s| - 1]))
  }

  ghost predicate Ordered<T>(key: T -> int, s: seq<T>) {
    forall i, j :: 0 <= i < j < |s| ==> key(s[i]) <= key(s[j])
  }

  lemma {:induction false} InsertByPermutes<T>(key: T -> int, x: T, s: seq<T>)
    ensures multiset(InsertBy(key, x, s)) == multiset(s) + multiset{x}
  {
    if !(s == [] || key(x) < key(s[0])) {
      InsertByPermutes(key, x, s[1..]);
      assert s == [s[0]] + s[1..];
    }
  }

  lemma {:induction false} InsertByKeeps<T>(key: T -> int, x: T, s: seq<T>)
    ensures Elements(InsertBy(key, x, s)) == Elements(s) + {x}
  {
    if !(s == [] || key(x) < key(s[0])) {
      InsertByKeeps(key, x, s[1..]);
      ElementsCons(s[0], InsertBy(key, x, s[1..]));
      ElementsCons(s[0], s[1..]);
      assert s == [s[0]] + s[1..];
    }
  }

  lemma {:induction false} InsertByDistinct<T>(key: T -> int, x: T, s: seq<T>)
    requires Distinct(s) && x !in s
    ensures Distinct(InsertBy(key, x, s))
  {
    if s == [] || key(x) < key(s[0]) {
      DistinctCons(x, s);
    } else {
      var rest, r := s[1..], InsertBy(key, x, s[1..]);
      assert s == [s[0]] + rest;
      InsertByDistinct(key, x, rest);
      InsertByKeeps(key, x, rest);
      assert s[0] !in Elements(r);
      DistinctCons(s[0], r);
    }
  }

  lemma ElementsCons<T>(x: T, s: seq<T>)
    ensures Elements([x] + s) == {x} + Elements(s)
  {
  }

  lemma DistinctCons<T>(x: T, s: seq<T>)
    requires Distinct(s) && x !in s
    ensures Distinct([x] + s)
  {
  }

  lemma {:induction false} InsertByOrders<T>(key: T -> int, x: T, s: seq<T>)
    requires Ordered(key, s)
    ensures Ordered(key, InsertBy(key, x, s))
  {
    if !(s == [] || key(x) < key(s[0])) {
      var rest, r := s[1..], InsertBy(key, x, s[1..]);
      InsertByOrders(key, x, rest);
      InsertByKeeps(key, x, rest);
      forall y | y in r ensures key(s[0]) <= key(y) { assert y in Elements(r); }
    }
  }

  /** Sorting keeps the very same elements. */
  lemma {:induction false} SortByPermutes<T>(key: T -> int, s: seq<T>)
    ensures multiset(SortBy(key, s)) == multiset(s) && |SortBy(key, s)| == |s|
  {
    if s != [] {
      var n := |s| - 1;
      SortByPermutes(key, s[..n]);
      InsertByPermutes(key, s[n], SortBy(key, s[..n]));
      assert s == s[..n] + [s[n]];
      assert |multiset(SortBy(key, s))| == |multiset(s)|;
    }
  }

  lemma {:induction false} SortByOrders<T>(key: T -> int, s: seq<T>)
    ensures Ordered(key, SortBy(key, s))
  {
    if s != [] {
      SortByOrders(key, s[..|s| - 1]);
      InsertByOrders(key, s[|s| - 1], SortBy(key, s[..|s| - 1]));
    }
  }

  lemma {:induction false} SortByKeeps<T>(key: T -> int, s: seq<T>)
    ensures Elements(SortBy(key, s)) == Elements(s)
    ensures Distinct(s) ==> Distinct(SortBy(key, s))
  {
    if s != [] {
      var n := |s| - 1;
      SortByKeeps(key, s[..n]);
      InsertByKeeps(key, s[n], SortBy(key, s[..n]));
      LastElement(s);
      if Distinct(s) {
        NotIn(s[n], SortBy(key, s[..n]), s[..n]);
        InsertByDistinct(key, s[n], SortBy(key, s[..n]));
      }
    }
  }

  lemma LastElement<T>(s: seq<T>)
    requires s != []
    ensures Elements(s) == Elements(s[..|s| - 1]) + {s[|s| - 1]}
    ensures Distinct(s) ==> Distinct(s[..|s| - 1]) && s[|s| - 1] !in s[..|s| - 1]
  {
  }

  lemma NotIn<T>(x: T, a: seq<T>, b: seq<T>)
    requires Elements(a) == Elements(b) && x !in b
    ensures x !in a
  {
    assert x !in Elements(b);
  }

  lemma OrderedRest<T>(key: T -> int, s: seq<T>)
    requires s != [] && Ordered(key, s)
    ensures Ordered(key, s[1..])
    ensures forall y :: y in s ==> key(s[0]) <= key(y)
  {
    forall i, j | 0 <= i < j < |s[1..]| ensures key(s[1..][i]) <= key(s[1..][j]) {
      assert s[1..][i] == s[i + 1] && s[1..][j] == s[j + 1];
    }
  }

  lemma SelectedCons<T>(x: T, s: seq<T>, keep: T -> bool)
    ensures Selected([x] + s, keep) == (if keep(x) then [x] else []) + Selected(s, keep)
  {
    SelectedConcat([x], s, keep);
    assert [x][..0] == [];
  }

  lemma {:induction false} InsertByStable<T>(key: T -> int, x: T, s: seq<T>, k: int, same: T -> bool)
    requires Ordered(key, s) && forall y :: same(y) <==> key(y) == k
    ensures Selected(InsertBy(key, x, s), same) == Selected(s, same) + if same(x) then [x] else []
  {
    if s == [] || key(x) < key(s[0]) {
      SelectedCons(x, s, same);
      if same(x) {
        if s != [] { OrderedRest(key, s); }
        NoneSelected(s, same);
      }
    } else {
      assert s == [s[0]] + s[1..];
      OrderedRest(key, s);
      InsertByStable(key, x, s[1..], k, same);
      SelectedCons(s[0], s[1..], same);
      SelectedCons(s[0], InsertBy(key, x, s[1..]), same);
      assert InsertBy(key, x, s) == [s[0]] + InsertBy(key, x, s[1..]);
    }
  }

  lemma {:induction false} NoneSelected<T>(s: seq<T>, keep: T -> bool)
    requires forall x :: x in s ==> !keep(x)
    ensures Selected(s, keep) == []
  {
    if s != [] { NoneSelected(s[..|s| - 1], keep); }
  }

  /** Elements of equal key keep their order. */
  lemma {:induction false} SortByStable<T>(key: T -> int, s: seq<T>, k: int, same: T -> bool)
    requires forall y :: same(y) <==> key(y) == k
    ensures Selected(SortBy(key, s), same) == Selected(s, same)
  {
    if s != [] {
      var n := |s| - 1;
      SortByStable(key, s[..n], k, same);
      SortByOrders(key, s[..n]);
      InsertByStable(key, s[n], SortBy(key, s[..n]), k, same);
    }
  }

  lemma SortByOk<T>(key: T -> int, s: seq<T>)
    ensures Ordered(key, SortBy(key, s)) && Elements(SortBy(key, s)) == Elements(s)
    ensures Distinct(s) ==> Distinct(SortBy(key, s))
  {
    SortByOrders(key, s);
    SortByKeeps(key, s);
  }
}
