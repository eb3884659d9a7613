/** Sets that remember insertion order, and the stable sort, as the components use them. */
module JsCollections {
  /** `Array.from(new Set(items))`: each item once, where it first occurs. */
  function Distinct<T(==)>(items: seq<T>): seq<T> {
    if items == [] then []
    else
      var kept := Distinct(items[..|items| - 1]);
      var last := items[|items| - 1];
      if last in kept then kept else kept + [last]
  }

  ghost predicate NoDuplicates<T>(items: seq<T>) {
    forall i, k :: 0 <= i < k < |items| ==> items[i] != items[k]
  }

  /** `b` holds items of `a`, in the order of their first occurrences in `a`. */
  ghost predicate InFirstOccurrenceOrder<T(!new)>(a: seq<T>, b: seq<T>) {
    forall i, k :: 0 <= i < k < |b| ==>
      exists p :: 0 <= p < |a| && a[p] == b[i] && b[k] !in a[..p]
  }

  lemma {:induction false} DistinctKeepsItems<T>(items: seq<T>)
    ensures NoDuplicates(Distinct(items))
    ensures forall x :: x in Distinct(items) <==> x in items
  {
    if items != [] {
      var front := items[..|items| - 1];
      DistinctKeepsItems(front);
      assert items == front + [items[|items| - 1]];
    }
  }

  lemma {:induction false} DistinctKeepsOrder<T(!new)>(items: seq<T>)
    ensures InFirstOccurrenceOrder(items, Distinct(items))
  {
    if items != [] {
      var front := items[..|items| - 1];
      DistinctKeepsOrder(front);
      DistinctKeepsItems(front);
      var b := Distinct(items);
      forall i, k | 0 <= i < k < |b|
        ensures exists p :: 0 <= p < |items| && items[p] == b[i] && b[k] !in items[..p]
      {
        if k < |Distinct(front)| {
          var p :| 0 <= p < |front| && front[p] == b[i] && b[k] !in front[..p];
          assert items[p] == b[i] && items[..p] == front[..p];
        } else {
          assert b[i] in front;
          var p :| 0 <= p < |front| && front[p] == b[i];
          assert b[k] !in front;
          assert items[p] == b[i] && b[k] !in items[..p];
        }
      }
    }
  }

  /** Nothing changes when there is nothing to remove. */
  lemma {:induction false} DistinctFixpoint<T>(items: seq<T>)
    ensures Distinct(items) == items <==> NoDuplicates(items)
    ensures |Distinct(items)| <= |items|
  {
    DistinctKeepsItems(items);
    if items != [] {
      var front := items[..|items| - 1];
      DistinctFixpoint(front);
      DistinctKeepsItems(front);
      assert items == front + [items[|items| - 1]];
      if NoDuplicates(items) {
        assert NoDuplicates(front);
        assert items[|items| - 1] !in front;
      }
    }
  }

  // ----- sorting -----

  /** `before(a, b)`: the comparator puts `a` no later than `b`. */
  ghost predicate TotalPreorder<T(!new)>(before: (T, T) -> bool) {
    && (forall a, b :: before(a, b) || before(b, a))
    && (forall a, b, c :: before(a, b) && before(b, c) ==> before(a, c))
  }

  ghost predicate Sorted<T>(items: seq<T>, before: (T, T) -> bool) {
    forall i, k :: 0 <= i < k < |items| ==> before(items[i], items[k])
  }

  function Insert<T>(x: T, sorted: seq<T>, before: (T, T) -> bool): seq<T> {
    if sorted == [] || before(x, sorted[0]) then [x] + sorted
    else [sorted[0]] + Insert(x, sorted[1..], before)
  }

  /** A stable sort: `Array.prototype.sort` on a copy. */
  function Sort<T>(items: seq<T>, before: (T, T) -> bool): seq<T> {
    if items == [] then [] else Insert(items[0], Sort(items[1..], before), before)
  }

  lemma {:induction false} InsertSorted<T(!new)>(x: T, sorted: seq<T>, before: (T, T) -> bool)
    requires TotalPreorder(before) && Sorted(sorted, before)
    ensures Sorted(Insert(x, sorted, before), before)
    ensures multiset(Insert(x, sorted, before)) == multiset(sorted) + multiset{x}
  {
    if sorted == [] {
    } else if before(x, sorted[0]) {
      assert forall i :: 0 <= i < |sorted| ==> before(x, sorted[i]);
    } else {
      InsertSorted(x, sorted[1..], before);
      var rest := Insert(x, sorted[1..], before);
      assert sorted == [sorted[0]] + sorted[1..];
      forall i | 0 <= i < |rest| ensures before(sorted[0], rest[i]) {
        assert rest[i] in multiset(rest);
        assert rest[i] == x || rest[i] in sorted[1..];
      }
    }
  }

  lemma {:induction false} SortCorrect<T(!new)>(items: seq<T>, before: (T, T) -> bool)
    requires TotalPreorder(before)
    ensures Sorted(Sort(items, before), before)
    ensures multiset(Sort(items, before)) == multiset(items)
  {
    if items != [] {
      SortCorrect(items[1..], before);
      InsertSorted(items[0], Sort(items[1..], before), before);
      assert items == [items[0]] + items[1..];
    }
  }

  /** The items that the comparator does not tell from `x`, in their order. */
  function Ties<T>(items: seq<T>, x: T, before: (T, T) -> bool): seq<T> {
    if items == [] then []
    else (if before(items[0], x) && before(x, items[0]) then [items[0]] else []) + Ties(items[1..], x, before)
  }

  lemma {:induction false} InsertKeepsTies<T(!new)>(y: T, sorted: seq<T>, x: T, before: (T, T) -> bool)
    requires TotalPreorder(before)
    ensures Ties(Insert(y, sorted, before), x, before) == Ties([y], x, before) + Ties(sorted, x, before)
  {
    assert [y][1..] == [];
    if sorted == [] || before(y, sorted[0]) {
      assert ([y] + sorted)[1..] == sorted;
    } else {
      InsertKeepsTies(y, sorted[1..], x, before);
      var rest := Insert(y, sorted[1..], before);
      assert ([sorted[0]] + rest)[1..] == rest;
    }
  }

  /** The sort is stable: what the comparator does not tell apart keeps its order. */
  lemma {:induction false} SortKeepsTies<T(!new)>(items: seq<T>, x: T, before: (T, T) -> bool)
    requires TotalPreorder(before)
    ensures Ties(Sort(items, before), x, before) == Ties(items, x, before)
  {
    if items != [] {
      SortKeepsTies(items[1..], x, before);
      InsertKeepsTies(items[0], Sort(items[1..], before), x, before);
      assert [items[0]][1..] == [];
    }
  }
}
