/**
 * Canonical order. `encode_snapshot` walks hash maps, whose order is arbitrary, and sorts
 * what it collected; the result must not depend on the walk.
 */
module Sorting {
  ghost predicate StrictOrder<T(!new)>(lt: (T, T) -> bool) {
    && (forall x :: !lt(x, x))
    && (forall x, y, z :: lt(x, y) && lt(y, z) ==> lt(x, z))
  }

  ghost predicate Comparable<T(!new)>(items: set<T>, lt: (T, T) -> bool) {
    forall x, y | x in items && y in items && x != y :: lt(x, y) || lt(y, x)
  }

  ghost predicate Ascending<T>(s: seq<T>, lt: (T, T) -> bool) {
    forall i, j | 0 <= i < j < |s| :: lt(s[i], s[j])
  }

  function Elements<T>(s: seq<T>): set<T> { set x | x in s }

  function Insert<T(!new)>(x: T, s: seq<T>, lt: (T, T) -> bool): (r: seq<T>)
    requires StrictOrder(lt) && Ascending(s, lt) && Comparable(Elements(s) + {x}, lt) && x !in s
    ensures Ascending(r, lt) && Elements(r) == Elements(s) + {x}
    ensures |r| == |s| + 1
  {
    if s == [] then [x]
    else
      assert s[0] in Elements(s) && Elements(s) == {s[0]} + Elements(s[1..]);
      if lt(x, s[0]) then
        var r := [x] + s;
        assert forall i | 0 < i < |r| :: r[i] == s[i - 1] && lt(x, r[i]);
        r
      else
        var tail := Insert(x, s[1..], lt);
        var r := [s[0]] + tail;
        assert forall i | 0 <= i < |tail| :: tail[i] in Elements(tail) && lt(s[0], tail[i]);
        assert Elements(r) == {s[0]} + Elements(tail);
        r
  }

  /** The items in ascending order. */
  ghost function Sorted<T(!new)>(items: set<T>, lt: (T, T) -> bool): (s: seq<T>)
    requires StrictOrder(lt) && Comparable(items, lt)
    ensures Ascending(s, lt) && Elements(s) == items && |s| == |items|
  {
    if items == {} then [] else
      var x :| x in items;
      var rest := Sorted(items - {x}, lt);
      assert x !in Elements(rest);
      assert Elements(rest) + {x} == items;
      Insert(x, rest, lt)
  }

  /** There is one ascending sequence of given items. */
  lemma {:induction false} AscendingIsCanonical<T(!new)>(a: seq<T>, b: seq<T>, lt: (T, T) -> bool)
    requires StrictOrder(lt) && Ascending(a, lt) && Ascending(b, lt)
    requires Elements(a) == Elements(b)
    ensures a == b
  {
    assert |b| > 0 ==> b[0] in Elements(b);
    if a != [] {
      assert a[0] in Elements(b);
      assert b != [] && b[0] in Elements(a);
      assert a[0] == b[0];
      assert a[0] !in a[1..] && b[0] !in b[1..];
      assert Elements(a[1..]) == Elements(a) - {a[0]};
      assert Elements(b[1..]) == Elements(b) - {b[0]};
      AscendingIsCanonical(a[1..], b[1..], lt);
      assert a == [a[0]] + a[1..] && b == [b[0]] + b[1..];
    }
  }

  lemma ElementsAppend<T>(s: seq<T>, x: T)
    ensures Elements(s + [x]) == Elements(s) + {x}
  {
  }

  /** The next of distinct items is not among those before it, and all are comparable. */
  lemma ElementsGrow<T>(s: seq<T>, items: set<T>, i: nat)
    requires i < |s| && Elements(s) == items
    requires forall k, l | 0 <= k < l < |s| :: s[k] != s[l]
    ensures s[i] !in Elements(s[..i]) && Elements(s[..i]) + {s[i]} <= items
    ensures Elements(s[..i + 1]) == Elements(s[..i]) + {s[i]}
  {
    assert s[i] in Elements(s);
    forall x | x in Elements(s[..i])
      ensures x in Elements(s) && x != s[i]
    {
      var k :| 0 <= k < i && s[k] == x;
    }
    assert s[..i + 1] == s[..i] + [s[i]];
  }

  /** `iter().collect()` followed by `sort_unstable_by`: the walk picks any remaining item. */
  method CollectSorted<T(==, !new)>(items: set<T>, lt: (T, T) -> bool) returns (s: seq<T>)
    requires StrictOrder(lt) && Comparable(items, lt)
    ensures s == Sorted(items, lt)
  {
    var collected: seq<T>, remaining := [], items;
    while remaining != {}
      invariant remaining <= items && Elements(collected) == items - remaining
      invariant forall i, j | 0 <= i < j < |collected| :: collected[i] != collected[j]
      decreases remaining
    {
      var x :| x in remaining;
      assert x !in Elements(collected);
      ElementsAppend(collected, x);
      collected, remaining := collected + [x], remaining - {x};
    }
    s := [];
    for i := 0 to |collected|
      invariant Ascending(s, lt) && Elements(s) == Elements(collected[..i])
    {
      ElementsGrow(collected, items, i);
      s := Insert(collected[i], s, lt);
    }
    assert collected[..|collected|] == collected;
    AscendingIsCanonical(s, Sorted(items, lt), lt);
  }
}
