/**
  The small DOM tree the page table of contents builds: lists (the root `nav` and
  child `ul`s) holding items, items (`li` with their link) holding child lists.
  A node is addressed by the path of child indices from the root.
 */
module TocTree {
  /** The root `nav#page-toc-nav`, or a `ul.nav-list-child-list.nav-list-level-N`. */
  datatype ListKind = RootNav | ChildList(level: nat)

  /** `Li` stands for `li.nav-list-item-level-N` whose first child is the link
      `a.nav-list-link` with the given href and text; `children` are the lists after it. */
  datatype Node =
    | Ul(kind: ListKind, children: seq<Node>)
    | Li(level: nat, href: string, text: string, children: seq<Node>)

  type Path = seq<nat>

  predicate ValidPath(n: Node, p: Path)
    decreases p
  {
    p == [] || (p[0] < |n.children| && ValidPath(n.children[p[0]], p[1..]))
  }

  function NodeAt(n: Node, p: Path): Node
    requires ValidPath(n, p)
    decreases p
  {
    if p == [] then n else NodeAt(n.children[p[0]], p[1..])
  }

  /** A node without its children: what appending below it never changes. */
  function Label(n: Node): Node {
    n.(children := [])
  }

  /** appendChild, once per element of cs, on the node at p. */
  function AppendAt(n: Node, p: Path, cs: seq<Node>): Node
    requires ValidPath(n, p)
    decreases p
  {
    if p == [] then n.(children := n.children + cs)
    else n.(children := n.children[p[0] := AppendAt(n.children[p[0]], p[1..], cs)])
  }

  /** The number of items in a tree. */
  function CountItems(n: Node): nat
    decreases n
  {
    (if n.Li? then 1 else 0) + CountSeq(n.children)
  }

  function CountSeq(cs: seq<Node>): nat
    decreases cs
  {
    if cs == [] then 0 else CountSeq(cs[..|cs| - 1]) + CountItems(cs[|cs| - 1])
  }

  // ---------------------------------------------------------------------------

  /** One more index below a valid path addresses one of that node's children. */
  lemma {:induction false} ValidPathExtend(n: Node, p: Path, i: nat)
    ensures ValidPath(n, p + [i]) <==> ValidPath(n, p) && i < |NodeAt(n, p).children|
    ensures ValidPath(n, p + [i]) ==> NodeAt(n, p + [i]) == NodeAt(n, p).children[i]
    decreases p
  {
    if p == [] {
      assert p + [i] == [i];
      assert [i][1..] == [];
    } else {
      assert (p + [i])[0] == p[0];
      assert (p + [i])[1..] == p[1..] + [i];
      if p[0] < |n.children| {
        ValidPathExtend(n.children[p[0]], p[1..], i);
      }
    }
  }

  /** Appending below p keeps every valid path valid, addressing a node with the same label. */
  lemma {:induction false} AppendAtKeeps(n: Node, p: Path, cs: seq<Node>, r: Path)
    requires ValidPath(n, p) && ValidPath(n, r)
    ensures ValidPath(AppendAt(n, p, cs), r)
    ensures Label(NodeAt(AppendAt(n, p, cs), r)) == Label(NodeAt(n, r))
    decreases r
  {
    var m := AppendAt(n, p, cs);
    if r != [] {
      if p != [] && p[0] == r[0] {
        AppendAtKeeps(n.children[p[0]], p[1..], cs, r[1..]);
      } else {
        assert m.children[r[0]] == n.children[r[0]];
      }
    }
  }

  /** The node at p gets cs after its children. */
  lemma {:induction false} AppendAtTarget(n: Node, p: Path, cs: seq<Node>)
    requires ValidPath(n, p)
    ensures ValidPath(AppendAt(n, p, cs), p)
    ensures NodeAt(AppendAt(n, p, cs), p) == NodeAt(n, p).(children := NodeAt(n, p).children + cs)
    decreases p
  {
    if p != [] {
      AppendAtTarget(n.children[p[0]], p[1..], cs);
    }
  }

  lemma {:induction false} AppendAtNothing(n: Node, p: Path)
    requires ValidPath(n, p)
    ensures AppendAt(n, p, []) == n
    decreases p
  {
    if p == [] {
      assert n.children + [] == n.children;
    } else {
      AppendAtNothing(n.children[p[0]], p[1..]);
      assert n.children[p[0] := n.children[p[0]]] == n.children;
    }
  }

  /** Appending a then b is appending a + b. */
  lemma {:induction false} AppendAtTwice(n: Node, p: Path, a: seq<Node>, b: seq<Node>)
    requires ValidPath(n, p)
    ensures ValidPath(AppendAt(n, p, a), p)
    ensures AppendAt(AppendAt(n, p, a), p, b) == AppendAt(n, p, a + b)
    decreases p
  {
    AppendAtTarget(n, p, a);
    if p == [] {
      assert n.children + a + b == n.children + (a + b);
    } else {
      AppendAtTwice(n.children[p[0]], p[1..], a, b);
    }
  }

  lemma {:induction false} CountSeqConcat(a: seq<Node>, b: seq<Node>)
    ensures CountSeq(a + b) == CountSeq(a) + CountSeq(b)
    decreases |b|
  {
    if b == [] {
      assert a + b == a;
    } else {
      assert (a + b)[..|a + b| - 1] == a + b[..|b| - 1];
      assert (a + b)[|a + b| - 1] == b[|b| - 1];
      CountSeqConcat(a, b[..|b| - 1]);
    }
  }

  lemma CountSeqSingle(x: Node)
    ensures CountSeq([x]) == CountItems(x)
  {
    assert [x][..0] == [];
  }

  lemma CountSeqUpdate(s: seq<Node>, j: nat, x: Node)
    requires j < |s|
    ensures CountSeq(s[j := x]) + CountItems(s[j]) == CountSeq(s) + CountItems(x)
  {
    assert s == s[..j] + [s[j]] + s[j + 1..];
    assert s[j := x] == s[..j] + [x] + s[j + 1..];
    CountSeqConcat(s[..j] + [s[j]], s[j + 1..]);
    CountSeqConcat(s[..j], [s[j]]);
    CountSeqConcat(s[..j] + [x], s[j + 1..]);
    CountSeqConcat(s[..j], [x]);
    CountSeqSingle(s[j]);
    CountSeqSingle(x);
  }

  /** Appending adds exactly the items of the appended subtrees. */
  lemma {:induction false} AppendAtCount(n: Node, p: Path, cs: seq<Node>)
    requires ValidPath(n, p)
    ensures CountItems(AppendAt(n, p, cs)) == CountItems(n) + CountSeq(cs)
    decreases p
  {
    if p == [] {
      CountSeqConcat(n.children, cs);
    } else {
      var j := p[0];
      AppendAtCount(n.children[j], p[1..], cs);
      CountSeqUpdate(n.children, j, AppendAt(n.children[j], p[1..], cs));
    }
  }
}
