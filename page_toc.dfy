/**
  The page table of contents (assets/js/page-toc.js): headings are folded into a
  tree of lists and items through `parentStack`, a stack of the lists currently open,
  here held as the paths of those lists in the tree.
 */
module PageToc {
  import opened TocTree

  /** A heading h1..h6 of the main content; an empty id stands for a missing one. */
  datatype Heading = Heading(level: nat, id: string, text: string)

  predicate ValidHeading(h: Heading) {
    1 <= h.level <= 6
  }

  predicate AllValid(hs: seq<Heading>) {
    forall i | 0 <= i < |hs| :: ValidHeading(hs[i])
  }

  const EmptyNav := Ul(RootNav, [])

  /** The item created for a heading. */
  function Item(h: Heading): Node {
    Li(h.level, "#" + h.id, h.text, [])
  }

  function Top(stack: seq<Path>): Path
    requires |stack| > 0
  {
    stack[|stack| - 1]
  }

  /** The stack is never empty, its bottom is the root nav, every entry is a list
      of the tree, and the list at depth k > 0 is the child list for level k + 1. */
  predicate StackOk(nav: Node, stack: seq<Path>) {
    && nav.Ul? && nav.kind == RootNav
    && |stack| >= 1 && stack[0] == []
    && (forall k | 0 <= k < |stack| :: ValidPath(nav, stack[k]) && NodeAt(nav, stack[k]).Ul?)
    && (forall k | 1 <= k < |stack| :: NodeAt(nav, stack[k]).kind == ChildList(k + 1))
  }

  /** The stack after popping down to a level. */
  function Popped(stack: seq<Path>, level: nat): (r: seq<Path>)
    ensures |r| <= level && |r| <= |stack|
    ensures level >= 1 && |stack| >= 1 ==> |r| >= 1
    ensures forall k | 0 <= k < |r| :: r[k] == stack[k]
  {
    if |stack| > level then stack[..level] else stack
  }

  /** Whether lists for missing levels are created: the stack is short and the top
      list's last child is an item. */
  predicate CanNest(nav: Node, stack: seq<Path>, level: nat)
    requires |stack| > 0 && ValidPath(nav, Top(stack))
  {
    var top := NodeAt(nav, Top(stack));
    |stack| < level && |top.children| > 0 && top.children[|top.children| - 1].Li?
  }

  /** The path of the top list's last child. */
  function LastChildPath(nav: Node, stack: seq<Path>): Path
    requires |stack| > 0 && ValidPath(nav, Top(stack)) && |NodeAt(nav, Top(stack)).children| > 0
  {
    Top(stack) + [|NodeAt(nav, Top(stack)).children| - 1]
  }

  /** The child lists for levels lo + 1 .. hi. */
  function MissingLists(lo: nat, hi: nat): seq<Node>
    requires lo <= hi
  {
    seq(hi - lo, k requires 0 <= k < hi - lo => Ul(ChildList(lo + k + 1), []))
  }

  /** Reference definition of the nesting step: the child lists for every missing level
      are appended to the same last item and pushed. */
  function Nested(nav: Node, stack: seq<Path>, level: nat): (Node, seq<Path>)
    requires StackOk(nav, stack)
  {
    if CanNest(nav, stack, level) then
      var q := LastChildPath(nav, stack);
      ValidPathExtend(nav, Top(stack), |NodeAt(nav, Top(stack)).children| - 1);
      var m := |NodeAt(nav, q).children|;
      (AppendAt(nav, q, MissingLists(|stack|, level)),
       stack + seq(level - |stack|, k => q + [m + k]))
    else (nav, stack)
  }

  // ---------------------------------------------------------------------------
  // Stack invariant across the steps.

  lemma PoppedOk(nav: Node, stack: seq<Path>, level: nat)
    requires StackOk(nav, stack) && level >= 1
    ensures StackOk(nav, Popped(stack, level))
    ensures |Popped(stack, level)| <= level
    ensures Popped(stack, level) == stack[..|Popped(stack, level)|]
  {
  }

  /** Appending below a valid path keeps the stack invariant. */
  lemma AppendKeepsStackOk(nav: Node, stack: seq<Path>, p: Path, cs: seq<Node>)
    requires StackOk(nav, stack) && ValidPath(nav, p)
    ensures StackOk(AppendAt(nav, p, cs), stack)
  {
    var nav' := AppendAt(nav, p, cs);
    AppendAtKeeps(nav, p, cs, []);
    forall k | 0 <= k < |stack|
      ensures ValidPath(nav', stack[k]) && Label(NodeAt(nav', stack[k])) == Label(NodeAt(nav, stack[k]))
    {
      AppendAtKeeps(nav, p, cs, stack[k]);
    }
  }

  /** The nesting step keeps the stack invariant and leaves the old stack underneath. */
  lemma NestedOk(nav: Node, stack: seq<Path>, level: nat)
    requires StackOk(nav, stack) && |stack| <= level
    ensures StackOk(Nested(nav, stack, level).0, Nested(nav, stack, level).1)
    ensures CanNest(nav, stack, level) ==> |Nested(nav, stack, level).1| == level
    ensures !CanNest(nav, stack, level) ==> Nested(nav, stack, level) == (nav, stack)
    ensures |stack| <= |Nested(nav, stack, level).1| <= level
    ensures Nested(nav, stack, level).1[..|stack|] == stack
  {
    if CanNest(nav, stack, level) {
      var q := LastChildPath(nav, stack);
      ValidPathExtend(nav, Top(stack), |NodeAt(nav, Top(stack)).children| - 1);
      var m := |NodeAt(nav, q).children|;
      var cs := MissingLists(|stack|, level);
      var nav' := AppendAt(nav, q, cs);
      var stack' := stack + seq(level - |stack|, k => q + [m + k]);
      assert (nav', stack') == Nested(nav, stack, level);
      AppendKeepsStackOk(nav, stack, q, cs);
      AppendAtTarget(nav, q, cs);
      forall k | |stack| <= k < level
        ensures ValidPath(nav', stack'[k]) && NodeAt(nav', stack'[k]) == Ul(ChildList(k + 1), [])
      {
        var i := k - |stack|;
        assert stack'[k] == q + [m + i];
        ValidPathExtend(nav', q, m + i);
        assert NodeAt(nav', q).children[m + i] == cs[i];
      }
      assert stack'[..|stack|] == stack;
    }
  }

  /** The nesting step keeps every valid path valid, at a node with the same label. */
  lemma NestedKeeps(nav: Node, stack: seq<Path>, level: nat, r: Path)
    requires StackOk(nav, stack)
    ensures ValidPath(nav, r) ==> ValidPath(Nested(nav, stack, level).0, r)
    ensures ValidPath(nav, r) ==> Label(NodeAt(Nested(nav, stack, level).0, r)) == Label(NodeAt(nav, r))
  {
    if CanNest(nav, stack, level) && ValidPath(nav, r) {
      ValidPathExtend(nav, Top(stack), |NodeAt(nav, Top(stack)).children| - 1);
      AppendAtKeeps(nav, LastChildPath(nav, stack), MissingLists(|stack|, level), r);
    }
  }

  /** Reference definition of one `headers.forEach` step. */
  function Place(nav: Node, stack: seq<Path>, h: Heading): (Node, seq<Path>)
    requires StackOk(nav, stack) && ValidHeading(h)
  {
    if h.id == "" then (nav, stack)
    else
      PoppedOk(nav, stack, h.level);
      var popped := Popped(stack, h.level);
      NestedOk(nav, popped, h.level);
      var (nav1, stack1) := Nested(nav, popped, h.level);
      (AppendAt(nav1, Top(stack1), [Item(h)]), stack1)
  }

  /** Where the item for h goes: after the last child of the top list. */
  function ItemPath(nav: Node, stack: seq<Path>, h: Heading): Path
    requires StackOk(nav, stack) && ValidHeading(h)
  {
    PoppedOk(nav, stack, h.level);
    var popped := Popped(stack, h.level);
    NestedOk(nav, popped, h.level);
    var (nav1, stack1) := Nested(nav, popped, h.level);
    Top(stack1) + [|NodeAt(nav1, Top(stack1)).children|]
  }

  /** The fold of all headings. */
  function PlaceAll(nav: Node, stack: seq<Path>, hs: seq<Heading>): (r: (Node, seq<Path>))
    requires StackOk(nav, stack) && AllValid(hs)
    ensures StackOk(r.0, r.1)
    decreases |hs|
  {
    if hs == [] then (nav, stack)
    else
      var (nav1, stack1) := PlaceAll(nav, stack, hs[..|hs| - 1]);
      PlaceOk(nav1, stack1, hs[|hs| - 1]);
      Place(nav1, stack1, hs[|hs| - 1])
  }

  /** The nav the script builds from the headings of the main content. */
  function BuiltToc(hs: seq<Heading>): Node
    requires AllValid(hs)
  {
    PlaceAll(EmptyNav, [[]], hs).0
  }

  /** The headings that have an id, in document order. */
  function WithId(hs: seq<Heading>): seq<Heading>
    decreases |hs|
  {
    if hs == [] then []
    else WithId(hs[..|hs| - 1]) + (if hs[|hs| - 1].id != "" then [hs[|hs| - 1]] else [])
  }

  // ---------------------------------------------------------------------------
  // What one step does.

  /** A step keeps the stack invariant; the stack never exceeds the heading's level. */
  lemma PlaceOk(nav: Node, stack: seq<Path>, h: Heading)
    requires StackOk(nav, stack) && ValidHeading(h)
    ensures StackOk(Place(nav, stack, h).0, Place(nav, stack, h).1)
  {
    if h.id != "" {
      PoppedOk(nav, stack, h.level);
      var popped := Popped(stack, h.level);
      NestedOk(nav, popped, h.level);
      var (nav1, stack1) := Nested(nav, popped, h.level);
      AppendKeepsStackOk(nav1, stack1, Top(stack1), [Item(h)]);
    }
  }

  /** A heading without an id produces nothing and leaves the stack as it was. */
  lemma PlaceSkipsMissingId(nav: Node, stack: seq<Path>, h: Heading)
    requires StackOk(nav, stack) && ValidHeading(h) && h.id == ""
    ensures Place(nav, stack, h) == (nav, stack)
  {
  }

  /** A heading with an id adds exactly one item: Item(h), with href "#" + id and the
      heading's text, as the new last child of the list on top of the stack, which is
      at most h.level deep and still holds the unpopped part of the old stack. */
  lemma PlaceAddsItem(nav: Node, stack: seq<Path>, h: Heading)
    requires StackOk(nav, stack) && ValidHeading(h) && h.id != ""
    ensures var (nav', stack') := Place(nav, stack, h);
            && CountItems(nav') == CountItems(nav) + 1
            && 1 <= |stack'| <= h.level
            && StackOk(nav', stack')
            && stack'[..|Popped(stack, h.level)|] == Popped(stack, h.level)
            && ValidPath(nav', ItemPath(nav, stack, h))
            && NodeAt(nav', ItemPath(nav, stack, h)) == Item(h)
            && ItemPath(nav, stack, h) == Top(stack') + [|NodeAt(nav', Top(stack')).children| - 1]
            && !ValidPath(nav, ItemPath(nav, stack, h))
  {
    PoppedOk(nav, stack, h.level);
    PlaceOk(nav, stack, h);
    NestedOk(nav, Popped(stack, h.level), h.level);
    PlaceCountsItem(nav, stack, h);
    PlaceItemAt(nav, stack, h);
  }

  /** The counting half of PlaceAddsItem. */
  lemma PlaceCountsItem(nav: Node, stack: seq<Path>, h: Heading)
    requires StackOk(nav, stack) && ValidHeading(h) && h.id != ""
    ensures CountItems(Place(nav, stack, h).0) == CountItems(nav) + 1
  {
    PoppedOk(nav, stack, h.level);
    var popped := Popped(stack, h.level);
    NestedOk(nav, popped, h.level);
    var (nav1, stack1) := Nested(nav, popped, h.level);
    var top := Top(stack1);
    assert Place(nav, stack, h).0 == AppendAt(nav1, top, [Item(h)]);
    if CanNest(nav, popped, h.level) {
      var q := LastChildPath(nav, popped);
      ValidPathExtend(nav, Top(popped), |NodeAt(nav, Top(popped)).children| - 1);
      var cs := MissingLists(|popped|, h.level);
      AppendAtCount(nav, q, cs);
      MissingListsCount(|popped|, h.level);
    }
    AppendAtCount(nav1, top, [Item(h)]);
    CountSeqSingle(Item(h));
  }

  /** The placement half of PlaceAddsItem: the new item is the last child of the top
      list, and its path was not in the tree before. */
  lemma PlaceItemAt(nav: Node, stack: seq<Path>, h: Heading)
    requires StackOk(nav, stack) && ValidHeading(h) && h.id != ""
    ensures var (nav', stack') := Place(nav, stack, h);
            && StackOk(nav', stack')
            && ValidPath(nav', ItemPath(nav, stack, h))
            && NodeAt(nav', ItemPath(nav, stack, h)) == Item(h)
            && ItemPath(nav, stack, h) == Top(stack') + [|NodeAt(nav', Top(stack')).children| - 1]
            && !ValidPath(nav, ItemPath(nav, stack, h))
  {
    PoppedOk(nav, stack, h.level);
    PlaceOk(nav, stack, h);
    var popped := Popped(stack, h.level);
    NestedOk(nav, popped, h.level);
    var (nav1, stack1) := Nested(nav, popped, h.level);
    var top := Top(stack1);
    var c := |NodeAt(nav1, top).children|;
    var nav' := AppendAt(nav1, top, [Item(h)]);
    assert Place(nav, stack, h) == (nav', stack1);
    assert ItemPath(nav, stack, h) == top + [c];
    AppendAtTarget(nav1, top, [Item(h)]);
    ValidPathExtend(nav', top, c);
    ValidPathExtend(nav1, top, c);
    NestedKeeps(nav, popped, h.level, top + [c]);
  }

  lemma {:induction false} MissingListsCount(lo: nat, hi: nat)
    requires lo <= hi
    ensures CountSeq(MissingLists(lo, hi)) == 0
    decreases hi
  {
    if lo < hi {
      var s := MissingLists(lo, hi);
      assert s[..|s| - 1] == MissingLists(lo, hi - 1);
      MissingListsCount(lo, hi - 1);
    }
  }

  /** Whether the step for h creates child lists. */
  predicate NestsMissingLevels(nav: Node, stack: seq<Path>, h: Heading)
    requires StackOk(nav, stack) && ValidHeading(h)
  {
    PoppedOk(nav, stack, h.level);
    CanNest(nav, Popped(stack, h.level), h.level)
  }

  /** When the stack (popped to the level) is short and the top list ends in an item, one
      child list per missing level i + 1 is appended to that same item and pushed, and the
      stack then reaches the heading's level. */
  lemma PlaceNestsMissingLevels(nav: Node, stack: seq<Path>, h: Heading)
    requires StackOk(nav, stack) && ValidHeading(h) && h.id != ""
    requires NestsMissingLevels(nav, stack, h)
    ensures var (nav', stack') := Place(nav, stack, h);
            var popped := Popped(stack, h.level);
            && |stack'| == h.level
            && StackOk(nav', stack')
            && (forall k | |popped| <= k < h.level ::
                  && stack'[k][..|stack'[k]| - 1] == LastChildPath(nav, popped)
                  && Label(NodeAt(nav', stack'[k])) == Ul(ChildList(k + 1), []))
  {
    PoppedOk(nav, stack, h.level);
    var popped := Popped(stack, h.level);
    NestedOk(nav, popped, h.level);
    PlaceOk(nav, stack, h);
    var (nav1, stack1) := Nested(nav, popped, h.level);
    var q := LastChildPath(nav, popped);
    ValidPathExtend(nav, Top(popped), |NodeAt(nav, Top(popped)).children| - 1);
    var m := |NodeAt(nav, q).children|;
    var nav' := AppendAt(nav1, Top(stack1), [Item(h)]);
    forall k | |popped| <= k < h.level
      ensures stack1[k][..|stack1[k]| - 1] == q
      ensures Label(NodeAt(nav', stack1[k])) == Ul(ChildList(k + 1), [])
    {
      assert stack1[k] == q + [m + (k - |popped|)];
      AppendAtKeeps(nav1, Top(stack1), [Item(h)], stack1[k]);
    }
  }

  /** Only the root is open while the root has no children. */
  lemma OpenListsNeedRootItems(nav: Node, stack: seq<Path>)
    requires StackOk(nav, stack)
    ensures |stack| > 1 ==> nav.children != []
  {
    if |stack| > 1 {
      assert NodeAt(nav, stack[1]).kind == ChildList(2);
      assert stack[1] != [];
    }
  }

  /** While the root is empty no child list is created: the item goes into the root. */
  lemma PlaceIntoEmptyRoot(nav: Node, stack: seq<Path>, h: Heading)
    requires StackOk(nav, stack) && ValidHeading(h) && h.id != ""
    requires nav.children == []
    ensures Place(nav, stack, h) == (Ul(RootNav, [Item(h)]), [[]])
  {
    OpenListsNeedRootItems(nav, stack);
    assert stack == [[]];
    assert nav == EmptyNav;
    assert Popped(stack, h.level) == [[]];
    assert Nested(nav, [[]], h.level) == (nav, [[]]);
    assert AppendAt(nav, [], [Item(h)]) == Ul(RootNav, [Item(h)]);
  }

  /** The root never loses a child; it gains one exactly when the item goes into it. */
  lemma PlaceRootGrows(nav: Node, stack: seq<Path>, h: Heading)
    requires StackOk(nav, stack) && ValidHeading(h)
    ensures |Place(nav, stack, h).0.children| >= |nav.children|
    ensures nav.children == [] && h.id != "" ==> |Place(nav, stack, h).0.children| == 1
  {
    if h.id != "" {
      if nav.children == [] {
        PlaceIntoEmptyRoot(nav, stack, h);
      } else {
        PoppedOk(nav, stack, h.level);
        var popped := Popped(stack, h.level);
        NestedOk(nav, popped, h.level);
        var (nav1, stack1) := Nested(nav, popped, h.level);
        if CanNest(nav, popped, h.level) {
          ValidPathExtend(nav, Top(popped), |NodeAt(nav, Top(popped)).children| - 1);
          var q := LastChildPath(nav, popped);
          assert q != [];
        }
        assert |nav1.children| == |nav.children|;
      }
    }
  }

  /** Every path valid before a step is valid after it, at a node with the same label. */
  lemma PlaceKeeps(nav: Node, stack: seq<Path>, h: Heading, r: Path)
    requires StackOk(nav, stack) && ValidHeading(h) && ValidPath(nav, r)
    ensures ValidPath(Place(nav, stack, h).0, r)
    ensures Label(NodeAt(Place(nav, stack, h).0, r)) == Label(NodeAt(nav, r))
  {
    if h.id != "" {
      PoppedOk(nav, stack, h.level);
      var popped := Popped(stack, h.level);
      NestedOk(nav, popped, h.level);
      var (nav1, stack1) := Nested(nav, popped, h.level);
      NestedKeeps(nav, popped, h.level, r);
      AppendAtKeeps(nav1, Top(stack1), [Item(h)], r);
    }
  }

  // ---------------------------------------------------------------------------
  // What the whole fold does.

  /** The tree holds exactly one item per heading with an id. */
  lemma {:induction false} PlaceAllCount(hs: seq<Heading>)
    requires AllValid(hs)
    ensures CountItems(BuiltToc(hs)) == |WithId(hs)|
    decreases |hs|
  {
    if hs != [] {
      var init := hs[..|hs| - 1];
      assert AllValid(init);
      PlaceAllCount(init);
      var (nav1, stack1) := PlaceAll(EmptyNav, [[]], init);
      var h := hs[|hs| - 1];
      if h.id != "" { PlaceAddsItem(nav1, stack1, h); }
    }
  }

  /** The root list has content iff some heading has an id. */
  lemma {:induction false} BuiltTocNonEmpty(hs: seq<Heading>)
    requires AllValid(hs)
    ensures |BuiltToc(hs).children| > 0 <==> |WithId(hs)| > 0
    decreases |hs|
  {
    if hs != [] {
      var init := hs[..|hs| - 1];
      assert AllValid(init);
      BuiltTocNonEmpty(init);
      var (nav1, stack1) := PlaceAll(EmptyNav, [[]], init);
      PlaceRootGrows(nav1, stack1, hs[|hs| - 1]);
    }
  }

  /** An h3 right after a lone h1: child lists for levels 2 and 3 under the h1 item,
      the h3 item in the level-3 list. */
  lemma SkipTwoLevels(a: Heading, b: Heading)
    requires a == Heading(1, "a", "A") && b == Heading(3, "b", "B")
    ensures StackOk(Ul(RootNav, [Item(a)]), [[]])
    ensures Place(Ul(RootNav, [Item(a)]), [[]], b) ==
              (Ul(RootNav, [Li(1, "#a", "A", [Ul(ChildList(2), []), Ul(ChildList(3), [Item(b)])])]),
               [[], [0, 0], [0, 1]])
  {
    var n1 := Ul(RootNav, [Item(a)]);
    var lists := MissingLists(1, 3);
    assert lists == [Ul(ChildList(2), []), Ul(ChildList(3), [])];
    assert CanNest(n1, [[]], 3);
    assert LastChildPath(n1, [[]]) == [0];
    assert [0][1..] == [];
    var n1' := Ul(RootNav, [Li(1, "#a", "A", lists)]);
    assert AppendAt(Item(a), [], lists) == Li(1, "#a", "A", lists);
    assert [Item(a)][0 := Li(1, "#a", "A", lists)] == [Li(1, "#a", "A", lists)];
    assert AppendAt(n1, [0], lists) == n1';
    var st := [[], [0, 0], [0, 1]];
    var pushed := seq(2, k => [0] + [k]);
    assert pushed[0] == [0, 0] && pushed[1] == [0, 1];
    assert [[]] + pushed == st;
    assert NodeAt(n1, [0]) == Item(a);
    assert seq(2, k => [0] + [|NodeAt(n1, [0]).children| + k]) == pushed;
    assert Nested(n1, [[]], 3) == (n1', st);
    assert Popped([[]], 3) == [[]];
    var l3 := Ul(ChildList(3), [Item(b)]);
    assert AppendAt(Ul(ChildList(3), []), [], [Item(b)]) == l3;
    assert lists[1 := l3] == [Ul(ChildList(2), []), l3];
    var a2 := Li(1, "#a", "A", [Ul(ChildList(2), []), l3]);
    assert [0, 1][1..] == [1] && [1][1..] == [];
    assert AppendAt(Li(1, "#a", "A", lists), [1], [Item(b)]) == a2;
    assert [Li(1, "#a", "A", lists)][0 := a2] == [a2];
  }

  /** Then an h2: the stack pops to the level-2 list, which gets the item. */
  lemma BackToSecondLevel(b: Heading, c: Heading)
    requires b == Heading(3, "b", "B") && c == Heading(2, "c", "C")
    ensures var n2 := Ul(RootNav, [Li(1, "#a", "A", [Ul(ChildList(2), []), Ul(ChildList(3), [Item(b)])])]);
            && StackOk(n2, [[], [0, 0], [0, 1]])
            && Place(n2, [[], [0, 0], [0, 1]], c).0 ==
                 Ul(RootNav, [Li(1, "#a", "A", [Ul(ChildList(2), [Item(c)]), Ul(ChildList(3), [Item(b)])])])
  {
    var l3 := Ul(ChildList(3), [Item(b)]);
    var a2 := Li(1, "#a", "A", [Ul(ChildList(2), []), l3]);
    var n2 := Ul(RootNav, [a2]);
    var st := [[], [0, 0], [0, 1]];
    assert [0, 0][1..] == [0] && [0, 1][1..] == [1] && [0][1..] == [] && [1][1..] == [];
    assert NodeAt(n2, [0, 0]) == Ul(ChildList(2), []);
    assert NodeAt(n2, [0, 1]) == l3;
    assert Popped(st, 2) == [[], [0, 0]];
    assert !CanNest(n2, [[], [0, 0]], 2);
    var l2 := Ul(ChildList(2), [Item(c)]);
    assert AppendAt(Ul(ChildList(2), []), [], [Item(c)]) == l2;
    assert [Ul(ChildList(2), []), l3][0 := l2] == [l2, l3];
    var a3 := Li(1, "#a", "A", [l2, l3]);
    assert AppendAt(a2, [0], [Item(c)]) == a3;
    assert [a2][0 := a3] == [a3];
  }

  /** The child lists for skipped levels are siblings under one item, so after h1, h3, h2
      the h2 item sits in the first of them and is rendered before the h3 item. */
  lemma SkippedLevelSiblings()
    ensures var a, b, c := Heading(1, "a", "A"), Heading(3, "b", "B"), Heading(2, "c", "C");
            BuiltToc([a, b, c]) ==
              Ul(RootNav, [Li(1, "#a", "A", [Ul(ChildList(2), [Item(c)]), Ul(ChildList(3), [Item(b)])])])
  {
    var a, b, c := Heading(1, "a", "A"), Heading(3, "b", "B"), Heading(2, "c", "C");
    var hs := [a, b, c];
    assert hs[..2][..1] == [a] && hs[..2] == [a, b] && [a][..0] == [];
    assert hs[..|hs| - 1] == [a, b];
    PlaceIntoEmptyRoot(EmptyNav, [[]], a);
    assert PlaceAll(EmptyNav, [[]], [a]) == (Ul(RootNav, [Item(a)]), [[]]);
    SkipTwoLevels(a, b);
    var n2 := Ul(RootNav, [Li(1, "#a", "A", [Ul(ChildList(2), []), Ul(ChildList(3), [Item(b)])])]);
    assert [a, b][..1] == [a];
    assert PlaceAll(EmptyNav, [[]], [a, b]) == (n2, [[], [0, 0], [0, 1]]);
    BackToSecondLevel(b, c);
  }

  // ---------------------------------------------------------------------------
  // The script.

  /** Lines 64-92: when the stack is short of the level and the top list ends in an
      item, one child list per missing level is appended to that item and pushed. */
  method NestMissingLevels(nav: Node, stack: seq<Path>, level: nat) returns (nav': Node, stack': seq<Path>)
    requires StackOk(nav, stack) && |stack| <= level
    ensures (nav', stack') == Nested(nav, stack, level)
  {
    nav', stack' := nav, stack;
    if |stack'| < level {
      var previousList := NodeAt(nav', Top(stack'));
      if |previousList.children| > 0 && previousList.children[|previousList.children| - 1].Li? {
        var lastItem := LastChildPath(nav', stack');
        ValidPathExtend(nav', Top(stack'), |previousList.children| - 1);
        var start := |stack'|;
        ghost var m := |NodeAt(nav, lastItem).children|;
        AppendAtNothing(nav, lastItem);
        assert MissingLists(start, start) == [];
        for i := start to level
          invariant nav' == AppendAt(nav, lastItem, MissingLists(start, i))
          invariant stack' == stack + seq(i - start, k => lastItem + [m + k])
        {
          AppendAtTarget(nav, lastItem, MissingLists(start, i));
          var newPath := lastItem + [|NodeAt(nav', lastItem).children|];
          nav' := AppendAt(nav', lastItem, [Ul(ChildList(i + 1), [])]);
          stack' := stack' + [newPath];
          AppendAtTwice(nav, lastItem, MissingLists(start, i), [Ul(ChildList(i + 1), [])]);
          assert MissingLists(start, i) + [Ul(ChildList(i + 1), [])] == MissingLists(start, i + 1);
          assert stack' == stack + seq(i + 1 - start, k => lastItem + [m + k]);
        }
      }
    }
  }

  /** One `headers.forEach` step on the nav and `parentStack`. */
  method AddHeading(nav: Node, stack: seq<Path>, h: Heading) returns (nav': Node, stack': seq<Path>)
    requires StackOk(nav, stack) && ValidHeading(h)
    ensures (nav', stack') == Place(nav, stack, h)
  {
    nav', stack' := nav, stack;
    if h.id == "" {
      return;
    }
    var listItem := Item(h);
    while |stack'| > h.level
      invariant h.level <= |stack'| <= |stack| || stack' == stack
      invariant stack' == stack[..|stack'|]
      decreases |stack'|
    {
      stack' := stack'[..|stack'| - 1];
    }
    assert stack' == Popped(stack, h.level);
    PoppedOk(nav, stack, h.level);
    NestedOk(nav, stack', h.level);
    nav', stack' := NestMissingLevels(nav', stack', h.level);
    nav' := AppendAt(nav', Top(stack'), [listItem]);
  }

  /** The `headers.forEach` loop, with a log of where each item went. */
  method BuildToc(headers: seq<Heading>) returns (tocNav: Node, ghost placed: seq<Path>)
    requires AllValid(headers)
    ensures tocNav == BuiltToc(headers)
    ensures CountItems(tocNav) == |WithId(headers)|
    ensures |placed| == |WithId(headers)|
    ensures forall j | 0 <= j < |placed| ::
              ValidPath(tocNav, placed[j]) && Label(NodeAt(tocNav, placed[j])) == Item(WithId(headers)[j])
    ensures forall j, k | 0 <= j < k < |placed| :: placed[j] != placed[k]
  {
    tocNav := EmptyNav;
    var parentStack: seq<Path> := [[]];
    placed := [];
    for i := 0 to |headers|
      invariant AllValid(headers[..i])
      invariant (tocNav, parentStack) == PlaceAll(EmptyNav, [[]], headers[..i])
      invariant |placed| == |WithId(headers[..i])|
      invariant forall j | 0 <= j < |placed| ::
                  ValidPath(tocNav, placed[j]) && Label(NodeAt(tocNav, placed[j])) == Item(WithId(headers[..i])[j])
      invariant forall j, k | 0 <= j < k < |placed| :: placed[j] != placed[k]
    {
      var h := headers[i];
      assert headers[..i + 1][..i] == headers[..i];
      assert headers[..i + 1][i] == h;
      ghost var before := tocNav;
      ghost var at := ItemPath(tocNav, parentStack, h);
      forall j | 0 <= j < |placed|
        ensures ValidPath(Place(before, parentStack, h).0, placed[j])
        ensures Label(NodeAt(Place(before, parentStack, h).0, placed[j])) == Label(NodeAt(before, placed[j]))
      {
        PlaceKeeps(before, parentStack, h, placed[j]);
      }
      if h.id != "" {
        PlaceAddsItem(before, parentStack, h);
      }
      tocNav, parentStack := AddHeading(tocNav, parentStack, h);
      if h.id != "" {
        placed := placed + [at];
      }
    }
    assert headers[..|headers|] == headers;
    PlaceAllCount(headers);
  }

  // ---------------------------------------------------------------------------
  // The DOMContentLoaded handler: guards and insertion into the sidebar.

  /** An entry of the sidebar list that holds the active link's item. */
  datatype SidebarEntry = NavItem(name: string) | TocContainer(toc: Node)

  /** Where `.side-bar .nav-list-link.active` is: absent, not inside a
      `.nav-list-item`, or inside the item at an index of the sidebar list. */
  datatype ActiveLink = NoActiveLink | OutsideItem | InsideItem(index: nat)

  /** What the script reads from and writes to the document. */
  datatype Page = Page(
    hasTocContainer: bool,            // an element #page-toc-nav-container is in the document
    hasMainContent: bool,             // `.main-content` exists
    headings: seq<Heading>,           // its h1..h6, in document order
    sidebarList: seq<SidebarEntry>,   // the list holding the active link's item
    active: ActiveLink)

  predicate PageOk(page: Page) {
    AllValid(page.headings) && (page.active.InsideItem? ==> page.active.index < |page.sidebarList|)
  }

  /** Whether the script inserts its container. */
  predicate Inserts(page: Page)
    requires PageOk(page)
  {
    && !page.hasTocContainer
    && page.hasMainContent
    && |page.headings| > 0
    && |BuiltToc(page.headings).children| > 0
    && page.active.InsideItem?
  }

  /** insertBefore(e, s[i].nextSibling) */
  function InsertAfter<T>(s: seq<T>, i: nat, e: T): seq<T>
    requires i < |s|
  {
    s[..i + 1] + [e] + s[i + 1..]
  }

  /** The page after the handler has run. */
  function AfterScript(page: Page): Page
    requires PageOk(page)
  {
    if Inserts(page) then
      page.(hasTocContainer := true,
            sidebarList := InsertAfter(page.sidebarList, page.active.index, TocContainer(BuiltToc(page.headings))))
    else page
  }

  /** The handler. */
  method RunPageToc(page: Page) returns (after: Page)
    requires PageOk(page)
    ensures after == AfterScript(page)
  {
    after := page;
    if page.hasTocContainer {
      return;
    }
    if !page.hasMainContent {
      return;
    }
    if |page.headings| == 0 {
      return;
    }
    var tocNav, placed := BuildToc(page.headings);
    if |tocNav.children| > 0 {
      match page.active
      case InsideItem(i) =>
        after := page.(hasTocContainer := true,
                       sidebarList := InsertAfter(page.sidebarList, i, TocContainer(tocNav)));
      case OutsideItem =>
      case NoActiveLink =>
    }
  }

  /** The container is inserted iff there is no container yet, there is main content,
      some heading has an id, and the active sidebar link is inside an item. */
  lemma InsertsIff(page: Page)
    requires PageOk(page)
    ensures Inserts(page) <==>
              && !page.hasTocContainer && page.hasMainContent
              && |WithId(page.headings)| > 0
              && page.active.InsideItem?
  {
    BuiltTocNonEmpty(page.headings);
  }

  /** When inserted, the container sits immediately after the active item, and the rest of
      the sidebar list is unchanged; otherwise the page is left as it was. */
  lemma InsertedAfterActiveItem(page: Page)
    requires PageOk(page)
    ensures var after := AfterScript(page);
            Inserts(page) ==>
              var i := page.active.index;
              && |after.sidebarList| == |page.sidebarList| + 1
              && after.sidebarList[i + 1] == TocContainer(BuiltToc(page.headings))
              && after.sidebarList[..i + 1] == page.sidebarList[..i + 1]
              && after.sidebarList[i + 2..] == page.sidebarList[i + 1..]
    ensures !Inserts(page) ==> AfterScript(page) == page
  {
  }

  /** Running the handler a second time changes nothing. */
  lemma ScriptRunsOnce(page: Page)
    requires PageOk(page)
    ensures PageOk(AfterScript(page))
    ensures AfterScript(AfterScript(page)) == AfterScript(page)
  {
  }
}
