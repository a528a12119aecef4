/** Filtering sequences: `Vec::retain`, `Iterator::filter` and `WHERE` clauses. */
module Sequences {
  function Filter<T>(s: seq<T>, keep: T -> bool): seq<T> {
    if s == [] then [] else
      Filter(s[..|s| - 1], keep) + if keep(s[|s| - 1]) then [s[|s| - 1]] else []
  }

  lemma {:induction false} FilterMembers<T(!new)>(s: seq<T>, keep: T -> bool)
    ensures |Filter(s, keep)| <= |s|
    ensures forall x :: x in Filter(s, keep) <==> x in s && keep(x)
  {
    if s != [] {
      var init, last := s[..|s| - 1], s[|s| - 1];
      FilterMembers(init, keep);
      assert s == init + [last];
    }
  }

  lemma {:induction false} FilterAppend<T>(a: seq<T>, b: seq<T>, keep: T -> bool)
    ensures Filter(a + b, keep) == Filter(a, keep) + Filter(b, keep)
  {
    if b == [] {
      assert a + b == a;
    } else {
      FilterAppend(a, b[..|b| - 1], keep);
      assert (a + b)[..|a + b| - 1] == a + b[..|b| - 1];
    }
  }

  lemma FilterLast<T>(s: seq<T>, x: T, keep: T -> bool)
    ensures Filter(s + [x], keep) == if keep(x) then Filter(s, keep) + [x] else Filter(s, keep)
  {
    assert (s + [x])[..|s|] == s;
  }

  lemma {:induction false} FilterSame<T>(s: seq<T>, f: T -> bool, g: T -> bool)
    requires forall x | x in s :: f(x) == g(x)
    ensures Filter(s, f) == Filter(s, g)
  {
    if s != [] {
      FilterSame(s[..|s| - 1], f, g);
    }
  }

  lemma {:induction false} FilterTwice<T>(s: seq<T>, f: T -> bool, g: T -> bool, both: T -> bool)
    requires forall x | x in s :: both(x) == (f(x) && g(x))
    ensures Filter(Filter(s, f), g) == Filter(s, both)
  {
    if s != [] {
      var init, last := s[..|s| - 1], s[|s| - 1];
      FilterTwice(init, f, g, both);
      assert s == init + [last];
      FilterLast(init, last, f);
      FilterLast(init, last, both);
      FilterLast(Filter(init, f), last, g);
    }
  }

  lemma {:induction false} FilterNone<T>(s: seq<T>, keep: T -> bool)
    requires forall x | x in s :: !keep(x)
    ensures Filter(s, keep) == []
  {
    if s != [] {
      FilterNone(s[..|s| - 1], keep);
    }
  }

  lemma {:induction false} FilterAll<T>(s: seq<T>, keep: T -> bool)
    requires forall x | x in s :: keep(x)
    ensures Filter(s, keep) == s
  {
    if s != [] {
      hide Filter;
      var init, last := s[..|s| - 1], s[|s| - 1];
      FilterAll(init, keep);
      FilterLast(init, last, keep);
      assert s == init + [last];
    }
  }

  /** Refusing one element takes out that element and no other. */
  lemma {:induction false} FilterDropsOne<T>(s: seq<T>, k: nat, keep: T -> bool)
    requires k < |s| && forall i | 0 <= i < |s| :: keep(s[i]) == (i != k)
    ensures Filter(s, keep) == s[..k] + s[k + 1..]
  {
    var init, last := s[..|s| - 1], s[|s| - 1];
    if k == |init| {
      FilterAll(init, keep);
      assert s[k + 1..] == [] && Filter(init, keep) == s[..k];
    } else {
      FilterDropsOne(init, k, keep);
      assert init[..k] == s[..k];
      assert init[k + 1..] + [last] == s[k + 1..];
    }
  }

  /** When every `f` precedes every `g`, keeping both is keeping the one and then the other. */
  lemma {:induction false} FilterJoin<T>(s: seq<T>, f: T -> bool, g: T -> bool, either: T -> bool)
    requires forall x | x in s :: either(x) == (f(x) || g(x)) && !(f(x) && g(x))
    requires forall i, j | 0 <= i < j < |s| :: f(s[j]) ==> !g(s[i])
    ensures Filter(s, either) == Filter(s, f) + Filter(s, g)
  {
    if s != [] {
      hide Filter;
      var init, last := s[..|s| - 1], s[|s| - 1];
      FilterJoin(init, f, g, either);
      assert s == init + [last];
      if f(last) {
        FilterNone(init, g);
      }
      FilterJoinLast(init, last, f, g, either);
    }
  }

  lemma FilterJoinLast<T>(init: seq<T>, last: T, f: T -> bool, g: T -> bool, either: T -> bool)
    requires Filter(init, either) == Filter(init, f) + Filter(init, g)
    requires either(last) == (f(last) || g(last)) && !(f(last) && g(last))
    requires f(last) ==> Filter(init, g) == []
    ensures Filter(init + [last], either) == Filter(init + [last], f) + Filter(init + [last], g)
  {
    hide Filter;
    FilterLast(init, last, f);
    FilterLast(init, last, g);
    FilterLast(init, last, either);
  }

  /** Filtering keeps the order of any rank that rises along the sequence. */
  lemma {:induction false} FilterKeepsOrder<T(!new)>(s: seq<T>, keep: T -> bool, rank: T -> int)
    requires forall i, j | 0 <= i < j < |s| :: keep(s[i]) && keep(s[j]) ==> rank(s[i]) < rank(s[j])
    ensures forall i, j | 0 <= i < j < |Filter(s, keep)| :: rank(Filter(s, keep)[i]) < rank(Filter(s, keep)[j])
  {
    if s != [] {
      var init, last := s[..|s| - 1], s[|s| - 1];
      FilterKeepsOrder(init, keep, rank);
      FilterMembers(init, keep);
      forall x | x in Filter(init, keep) && keep(last)
        ensures rank(x) < rank(last)
      {
        assert x in init;
        var i :| 0 <= i < |init| && init[i] == x;
        assert s[i] == x;
      }
    }
  }

  /** A prefix filters to a prefix. */
  lemma FilterPrefix<T>(p: seq<T>, s: seq<T>, keep: T -> bool)
    requires p <= s
    ensures Filter(p, keep) <= Filter(s, keep)
  {
    assert s == p + s[|p|..];
    FilterAppend(p, s[|p|..], keep);
  }

  function Map<S, T>(s: seq<S>, f: S -> T): (r: seq<T>)
    ensures |r| == |s| && forall i | 0 <= i < |s| :: r[i] == f(s[i])
  {
    seq(|s|, i requires 0 <= i < |s| => f(s[i]))
  }

  lemma MapAppend<S, T>(a: seq<S>, b: seq<S>, f: S -> T)
    ensures Map(a + b, f) == Map(a, f) + Map(b, f)
  {
  }

  lemma {:induction false} FilterMap<S, T>(s: seq<S>, f: S -> T, keep: T -> bool, keepBefore: S -> bool)
    requires forall x | x in s :: keepBefore(x) == keep(f(x))
    ensures Filter(Map(s, f), keep) == Map(Filter(s, keepBefore), f)
  {
    if s != [] {
      var init, last := s[..|s| - 1], s[|s| - 1];
      FilterMap(init, f, keep, keepBefore);
      assert Map(s, f) == Map(init, f) + [f(last)];
      FilterLast(Map(init, f), f(last), keep);
      assert s == init + [last];
    }
  }

  lemma FilterMapMembers<S(!new), T>(s: seq<S>, keep: S -> bool, f: S -> T, y: T)
    ensures y in Map(Filter(s, keep), f) <==> exists x :: x in s && keep(x) && f(x) == y
  {
    FilterMembers(s, keep);
    var kept := Filter(s, keep);
    if y in Map(kept, f) {
      var i :| 0 <= i < |kept| && Map(kept, f)[i] == y;
      assert kept[i] in s;
    }
    forall x | x in s && keep(x) && f(x) == y
      ensures y in Map(kept, f)
    {
      assert x in kept;
      var i :| 0 <= i < |kept| && kept[i] == x;
      assert Map(kept, f)[i] == y;
    }
  }
}
