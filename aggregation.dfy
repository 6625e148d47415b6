/**
 * The collection operations the summary resolvers are built from: `reduce` into a
 * running total, `map` into `{ name, amount }` pairs, lodash's stable
 * `sortBy(_, 'amount')` and lodash's `maxBy`.
 */
module Aggregation {
  import opened Wrappers

  /** A `{ name, amount }` pair: the GraphQL object type `InterstateTradeForState`. */
  datatype Entry = Entry(name: string, amount: real)

  function AmountOf(e: Entry): real { e.amount }

  // ---------------------------------------------------------------------------
  // reduce
  // ---------------------------------------------------------------------------

  /**
   * `rs.reduce((total, r) => total += f(r), 0)`: a left fold that starts at 0.
   * An empty list totals 0, a single record totals its own value, and a total of
   * non-negative values is non-negative.
   */
  function SumBy<T>(rs: seq<T>, f: T -> real): (r: real)
    ensures rs == [] ==> r == 0.0
    ensures |rs| == 1 ==> r == f(rs[0])
    ensures (forall i :: 0 <= i < |rs| ==> f(rs[i]) >= 0.0) ==> r >= 0.0
  {
    if rs == [] then 0.0 else SumBy(rs[..|rs| - 1], f) + f(rs[|rs| - 1])
  }

  /** A total over a concatenation is the sum of the two totals. */
  lemma {:induction false} SumByAppend<T>(a: seq<T>, b: seq<T>, f: T -> real)
    ensures SumBy(a + b, f) == SumBy(a, f) + SumBy(b, f)
    decreases |b|
  {
    if b == [] {
      assert a + b == a;
    } else {
      assert (a + b)[..|a + b| - 1] == a + b[..|b| - 1];
      SumByAppend(a, b[..|b| - 1], f);
    }
  }

  lemma SumByCons<T>(x: T, s: seq<T>, f: T -> real)
    ensures SumBy([x] + s, f) == f(x) + SumBy(s, f)
  {
    SumByAppend([x], s, f);
    assert [x][..0] == [];
  }

  // ---------------------------------------------------------------------------
  // map
  // ---------------------------------------------------------------------------

  /** `rs.map(r => ({ name: name(r), amount: amount(r) }))`. */
  function Project<T>(rs: seq<T>, name: T -> string, amount: T -> real): (es: seq<Entry>)
    ensures |es| == |rs|
    ensures forall i :: 0 <= i < |rs| ==> es[i] == Entry(name(rs[i]), amount(rs[i]))
  {
    seq(|rs|, i requires 0 <= i < |rs| => Entry(name(rs[i]), amount(rs[i])))
  }

  /** The amounts of the projected pairs add up to the total of the measure. */
  lemma {:induction false} ProjectSum<T>(rs: seq<T>, name: T -> string, amount: T -> real)
    ensures SumBy(Project(rs, name, amount), AmountOf) == SumBy(rs, amount)
    decreases |rs|
  {
    var ps := Project(rs, name, amount);
    if rs == [] {
      assert ps == [];
    } else {
      var n := |rs| - 1;
      assert ps[..n] == Project(rs[..n], name, amount);
      ProjectSum(rs[..n], name, amount);
    }
  }

  // ---------------------------------------------------------------------------
  // sortBy(_, 'amount')
  // ---------------------------------------------------------------------------

  /** Non-decreasing by amount. */
  predicate SortedByAmount(es: seq<Entry>)
  {
    forall i, j :: 0 <= i < j < |es| ==> es[i].amount <= es[j].amount
  }

  /** The entries of `es` whose amount is `k`, in the order they appear in `es`. */
  function WithAmount(es: seq<Entry>, k: real): seq<Entry>
  {
    if es == [] then []
    else (if es[0].amount == k then [es[0]] else []) + WithAmount(es[1..], k)
  }

  /**
   * `r` is a stable sort of `es` by amount: sorted, a permutation of `es`, and the
   * entries of each amount keep the relative order they had in `es`.
   */
  ghost predicate IsStableSortOf(r: seq<Entry>, es: seq<Entry>)
  {
    && SortedByAmount(r)
    && multiset(r) == multiset(es)
    && forall k :: WithAmount(r, k) == WithAmount(es, k)
  }

  /** Places `x` before the first entry whose amount is not smaller than its own. */
  function Insert(x: Entry, es: seq<Entry>): seq<Entry>
  {
    if es == [] || x.amount <= es[0].amount then [x] + es
    else [es[0]] + Insert(x, es[1..])
  }

  lemma {:induction false} InsertMultiset(x: Entry, es: seq<Entry>)
    ensures multiset(Insert(x, es)) == multiset(es) + multiset{x}
  {
    if es != [] && !(x.amount <= es[0].amount) {
      InsertMultiset(x, es[1..]);
      assert es == [es[0]] + es[1..];
    }
  }

  lemma {:induction false} InsertSorted(x: Entry, es: seq<Entry>)
    requires SortedByAmount(es)
    ensures SortedByAmount(Insert(x, es))
  {
    if es != [] && !(x.amount <= es[0].amount) {
      var tail := es[1..];
      var r := Insert(x, tail);
      InsertSorted(x, tail);
      InsertMultiset(x, tail);
      forall i | 0 <= i < |r|
        ensures es[0].amount <= r[i].amount
      {
        assert r[i] in multiset(r);
        if r[i] != x {
          assert r[i] in multiset(tail);
          var j :| 0 <= j < |tail| && tail[j] == r[i];
          assert es[j + 1] == r[i];
        }
      }
      assert Insert(x, es) == [es[0]] + r;
    }
  }

  lemma {:induction false} InsertWithAmountAt(x: Entry, es: seq<Entry>, k: real)
    ensures WithAmount(Insert(x, es), k) == (if x.amount == k then [x] else []) + WithAmount(es, k)
  {
    if es == [] || x.amount <= es[0].amount {
      assert ([x] + es)[1..] == es;
    } else {
      var r := Insert(x, es[1..]);
      InsertWithAmountAt(x, es[1..], k);
      assert ([es[0]] + r)[1..] == r;
      assert es[0].amount != k || x.amount != k;
    }
  }

  /** Inserting `x` adds it to exactly one per-amount subsequence, at its front. */
  lemma InsertWithAmount(x: Entry, es: seq<Entry>)
    ensures forall k :: WithAmount(Insert(x, es), k) == (if x.amount == k then [x] else []) + WithAmount(es, k)
  {
    forall k {
      InsertWithAmountAt(x, es, k);
    }
  }

  /**
   * lodash `sortBy(es, 'amount')`: an insertion sort that keeps equal amounts in
   * their original order.
   */
  function SortByAmount(es: seq<Entry>): (r: seq<Entry>)
    ensures IsStableSortOf(r, es)
  {
    if es == [] then []
    else
      var rest := SortByAmount(es[1..]);
      InsertSorted(es[0], rest);
      InsertMultiset(es[0], rest);
      InsertWithAmount(es[0], rest);
      assert es == [es[0]] + es[1..];
      Insert(es[0], rest)
  }

  lemma {:induction false} InsertSum(x: Entry, es: seq<Entry>)
    ensures SumBy(Insert(x, es), AmountOf) == x.amount + SumBy(es, AmountOf)
  {
    if es == [] || x.amount <= es[0].amount {
      SumByCons(x, es, AmountOf);
    } else {
      InsertSum(x, es[1..]);
      SumByCons(es[0], Insert(x, es[1..]), AmountOf);
      SumByCons(es[0], es[1..], AmountOf);
      assert es == [es[0]] + es[1..];
    }
  }

  /** Sorting does not change the total of the amounts. */
  lemma {:induction false} SortByAmountSum(es: seq<Entry>)
    ensures SumBy(SortByAmount(es), AmountOf) == SumBy(es, AmountOf)
  {
    if es != [] {
      SortByAmountSum(es[1..]);
      InsertSum(es[0], SortByAmount(es[1..]));
      SumByCons(es[0], es[1..], AmountOf);
      assert es == [es[0]] + es[1..];
    }
  }

  /** An already sorted list comes back unchanged, so sorting twice is sorting once. */
  lemma {:induction false} SortByAmountOfSorted(es: seq<Entry>)
    requires SortedByAmount(es)
    ensures SortByAmount(es) == es
  {
    if es != [] {
      SortByAmountOfSorted(es[1..]);
      assert es == [es[0]] + es[1..];
    }
  }

  lemma SortByAmountIdempotent(es: seq<Entry>)
    ensures SortByAmount(SortByAmount(es)) == SortByAmount(es)
  {
    SortByAmountOfSorted(SortByAmount(es));
  }

  lemma WithAmountCons(x: Entry, t: seq<Entry>, k: real)
    ensures WithAmount([x] + t, k) == (if x.amount == k then [x] else []) + WithAmount(t, k)
  {
    assert ([x] + t)[1..] == t;
  }

  /** The head of a sorted list has the smallest amount of any of its elements. */
  lemma SortedHeadIsMin(r: seq<Entry>, x: Entry)
    requires SortedByAmount(r) && x in multiset(r)
    ensures r[0].amount <= x.amount
  {
    var i :| 0 <= i < |r| && r[i] == x;
  }

  /** Two stable sorts of the same list start with the same entry. */
  lemma StableSortsShareHead(r1: seq<Entry>, r2: seq<Entry>, es: seq<Entry>)
    requires IsStableSortOf(r1, es) && IsStableSortOf(r2, es) && r1 != []
    ensures r2 != [] && r1[0] == r2[0]
  {
    assert r1[0] in multiset(r2);
    SortedHeadIsMin(r2, r1[0]);
    SortedHeadIsMin(r1, r2[0]);
    var m := r1[0].amount;
    assert r1 == [r1[0]] + r1[1..] && r2 == [r2[0]] + r2[1..];
    WithAmountCons(r1[0], r1[1..], m);
    WithAmountCons(r2[0], r2[1..], m);
    assert WithAmount(r1, m)[0] == WithAmount(r2, m)[0];
  }

  /** Removing a common head from two stable sorts of `es` leaves two stable sorts of one list. */
  lemma StableSortTails(r1: seq<Entry>, r2: seq<Entry>, es: seq<Entry>)
    requires IsStableSortOf(r1, es) && IsStableSortOf(r2, es) && r1 != [] && r2 != [] && r1[0] == r2[0]
    ensures IsStableSortOf(r2[1..], r1[1..])
  {
    var a, t1, t2 := r1[0], r1[1..], r2[1..];
    assert r1 == [a] + t1 && r2 == [a] + t2;
    forall k
      ensures WithAmount(t2, k) == WithAmount(t1, k)
    {
      assert WithAmount(r1, k) == WithAmount(es, k) == WithAmount(r2, k);
      WithAmountCons(a, t1, k);
      WithAmountCons(a, t2, k);
      var h := if a.amount == k then [a] else [];
      assert h + WithAmount(t1, k) == h + WithAmount(t2, k);
      assert WithAmount(t1, k) == (h + WithAmount(t1, k))[|h|..];
      assert WithAmount(t2, k) == (h + WithAmount(t2, k))[|h|..];
    }
    assert multiset(t1) == multiset(r1) - multiset{a};
    assert multiset(t2) == multiset(r2) - multiset{a};
  }

  /**
   * A stable sort is determined by its input: any two lists that are stable sorts
   * of the same `es` are equal, so `IsStableSortOf` pins down lodash's result.
   */
  lemma {:induction false} StableSortUnique(r1: seq<Entry>, r2: seq<Entry>, es: seq<Entry>)
    requires IsStableSortOf(r1, es) && IsStableSortOf(r2, es)
    ensures r1 == r2
    decreases |r1|
  {
    if r1 == [] {
      assert |multiset(r2)| == 0;
    } else {
      StableSortsShareHead(r1, r2, es);
      StableSortTails(r1, r2, es);
      StableSortUnique(r1[1..], r2[1..], r1[1..]);
      assert r1 == [r1[0]] + r1[1..] && r2 == [r2[0]] + r2[1..];
    }
  }

  // ---------------------------------------------------------------------------
  // maxBy
  // ---------------------------------------------------------------------------

  /**
   * `i` is the first index holding the largest key: no later element beats it and
   * every earlier element is strictly smaller.
   */
  predicate IsFirstMax<T>(rs: seq<T>, key: T -> real, i: int)
  {
    && 0 <= i < |rs|
    && (forall j :: 0 <= j < |rs| ==> key(rs[j]) <= key(rs[i]))
    && (forall j :: 0 <= j < i ==> key(rs[j]) < key(rs[i]))
  }

  /** lodash's scan: the candidate is replaced only by a strictly greater key. */
  function FirstMaxIndex<T>(rs: seq<T>, key: T -> real): (r: Option<nat>)
    ensures r.None? <==> rs == []
    ensures r.Some? ==> IsFirstMax(rs, key, r.value)
  {
    if rs == [] then None
    else
      var n := |rs| - 1;
      match FirstMaxIndex(rs[..n], key)
      case None => Some(n)
      case Some(b) => if key(rs[n]) > key(rs[b]) then Some(n) else Some(b)
  }

  /** `maxBy(rs, key)`: `undefined` for an empty array, else the first maximal element. */
  function MaxBy<T>(rs: seq<T>, key: T -> real): (r: Option<T>)
    ensures r.None? <==> rs == []
    ensures r.Some? ==> exists i :: IsFirstMax(rs, key, i) && r.value == rs[i]
  {
    match FirstMaxIndex(rs, key)
    case None => None
    case Some(i) => Some(rs[i])
  }

  /** There is only one first maximum. */
  lemma FirstMaxUnique<T>(rs: seq<T>, key: T -> real, i: int, j: int)
    requires IsFirstMax(rs, key, i) && IsFirstMax(rs, key, j)
    ensures i == j
  {
    assert key(rs[i]) <= key(rs[j]) && key(rs[j]) <= key(rs[i]);
  }
}
