/** A byte form of trees of numbers that loses nothing: every type written as a tree has a faithful codec. */
module Trees {
  import opened Wrappers
  import opened Protocol

  datatype Tree = Leaf(n: nat) | Branch(left: Tree, right: Tree)

  function Unary(n: nat): (b: Bytes)
    ensures |b| == n + 1
  {
    if n == 0 then [0] else [1] + Unary(n - 1)
  }

  function Size(t: Tree): nat {
    match t
    case Leaf(n) => n + 2
    case Branch(left, right) => 1 + Size(left) + Size(right)
  }

  function Write(t: Tree): (b: Bytes)
    ensures |b| == Size(t)
  {
    match t
    case Leaf(n) => [0] + Unary(n)
    case Branch(left, right) => [1] + (Write(left) + Write(right))
  }

  lemma {:induction false} UnaryEnds(m: nat, n: nat, a: Bytes, b: Bytes)
    requires Unary(m) + a == Unary(n) + b
    ensures m == n && a == b
  {
    assert (Unary(m) + a)[0] == (Unary(n) + b)[0];
    assert (Unary(m) + a)[1..] == (if m == 0 then a else Unary(m - 1) + a);
    assert (Unary(n) + b)[1..] == (if n == 0 then b else Unary(n - 1) + b);
    if m > 0 && n > 0 {
      UnaryEnds(m - 1, n - 1, a, b);
    }
  }

  lemma {:induction false} WriteEnds(s: Tree, t: Tree, a: Bytes, b: Bytes)
    requires Write(s) + a == Write(t) + b
    ensures s == t && a == b
  {
    assert (Write(s) + a)[0] == (Write(t) + b)[0];
    assert (Write(s) + a)[1..] == (Write(t) + b)[1..];
    match s
    case Leaf(m) =>
      assert (Write(s) + a)[1..] == Unary(m) + a && (Write(t) + b)[1..] == Unary(t.n) + b;
      UnaryEnds(m, t.n, a, b);
    case Branch(left, right) =>
      assert (Write(s) + a)[1..] == Write(left) + (Write(right) + a);
      assert (Write(t) + b)[1..] == Write(t.left) + (Write(t.right) + b);
      WriteEnds(left, t.left, Write(right) + a, Write(t.right) + b);
      WriteEnds(right, t.right, a, b);
  }

  /** Nothing is lost in the tree. */
  ghost predicate Injective<T(!new)>(tree: T -> Tree) {
    forall x, y :: tree(x) == tree(y) ==> x == y
  }

  ghost function Decoded<T(!new)>(tree: T -> Tree, b: Bytes): Option<T> {
    if x: T :| Write(tree(x)) == b then Some(x) else None
  }

  ghost function TreeCodec<T(!new)>(tree: T -> Tree): Codec<T> {
    Codec((x: T) => Write(tree(x)), (b: Bytes) => Decoded(tree, b))
  }

  lemma TreeCodecIsFaithful<T(!new)>(tree: T -> Tree)
    requires Injective(tree)
    ensures Faithful(TreeCodec(tree))
  {
    forall x: T
      ensures Decoded(tree, Write(tree(x))) == Some(x)
    {
      var y := Decoded(tree, Write(tree(x))).value;
      assert Write(tree(y)) + [] == Write(tree(x)) + [];
      WriteEnds(tree(y), tree(x), [], []);
    }
  }

  function ListTree<T>(s: seq<T>, tree: T -> Tree): Tree {
    if s == [] then Leaf(0) else Branch(tree(s[0]), ListTree(s[1..], tree))
  }

  lemma {:induction false} ListTreeIsInjective<T(!new)>(a: seq<T>, b: seq<T>, tree: T -> Tree)
    requires Injective(tree) && ListTree(a, tree) == ListTree(b, tree)
    ensures a == b
  {
    if a != [] {
      assert tree(a[0]) == tree(b[0]);
      ListTreeIsInjective(a[1..], b[1..], tree);
      assert a == [a[0]] + a[1..] && b == [b[0]] + b[1..];
    }
  }

  lemma OneMoreTime(n: nat, most: nat)
    ensures (n + 1) * most == n * most + most
  {
  }

  lemma {:induction false} ListSize<T>(s: seq<T>, tree: T -> Tree, most: nat)
    requires forall x | x in s :: Size(tree(x)) < most
    ensures Size(ListTree(s, tree)) <= 2 + |s| * most
  {
    if s != [] {
      ListSize(s[1..], tree, most);
      OneMoreTime(|s| - 1, most);
      assert s[0] in s && Size(ListTree(s, tree)) == 1 + Size(tree(s[0])) + Size(ListTree(s[1..], tree));
      hide Size, ListTree;
    }
  }

  function OptionTree<T>(o: Option<T>, tree: T -> Tree): Tree {
    if o.None? then Leaf(0) else Branch(Leaf(0), tree(o.value))
  }
}
