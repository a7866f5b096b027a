/** Properties of the page-list operations: what `sort` returns does not
    depend on the fuel bound, it runs forever on a page that is its own
    parent, it returns on hierarchies without cycles, and its output is the
    visible pages and everything reachable from them, each page after a page
    it sits under. Then the behaviour on small lists, including the two
    places where the code differs from what one might expect: `sort` can
    repeat a page, and the remover also drops the following siblings of a
    child page.
 */
module PageArrayProperties {
  import opened Pages
  import opened PageArray

  /** Concatenation of two flattenings that may have failed to return. */
  function Join(a: Option<seq<Page>>, b: Option<seq<Page>>): (r: Option<seq<Page>>)
    ensures r.Some? <==> a.Some? && b.Some?
    ensures r.Some? ==> r.value == a.value + b.value
  {
    if a.Some? && b.Some? then Some(a.value + b.value) else None
  }

  lemma JoinAssoc(x: Option<seq<Page>>, y: Option<seq<Page>>, z: Option<seq<Page>>)
    ensures Join(Join(x, y), z) == Join(x, Join(y, z))
  {
    if x.Some? && y.Some? && z.Some? {
      assert x.value + y.value + z.value == x.value + (y.value + z.value);
    }
  }

  // ---------------------------------------------------------------------
  // The fuel bound does not change a result

  /** More fuel gives the same result once `sort` has returned. */
  lemma {:induction false} FlattenMonotone(pages: seq<Page>, parent: Option<Page>, top: bool, fuel: nat, more: nat)
    requires fuel <= more
    requires Flatten(pages, parent, top, fuel).Some?
    ensures Flatten(pages, parent, top, more) == Flatten(pages, parent, top, fuel)
    decreases fuel, 0, 0
  {
    FlattenEachMonotone(pages, Select(pages, parent, top), fuel - 1, more - 1);
  }

  lemma {:induction false} FlattenEachMonotone(pages: seq<Page>, selected: seq<Page>, fuel: nat, more: nat)
    requires fuel <= more
    requires FlattenEach(pages, selected, fuel).Some?
    ensures FlattenEach(pages, selected, more) == FlattenEach(pages, selected, fuel)
    decreases fuel, 1, |selected|
  {
    if |selected| > 0 {
      FlattenEachMonotone(pages, selected[..|selected| - 1], fuel, more);
      FlattenMonotone(pages, Some(selected[|selected| - 1]), false, fuel, more);
    }
  }

  /** Two fuel bounds under which `sort` returns give the same list: the
      fuel models only how deep the recursion may go. */
  lemma SortDeterministic(pages: seq<Page>, parent: Option<Page>, top: bool, f1: nat, f2: nat)
    requires Flatten(pages, parent, top, f1).Some? && Flatten(pages, parent, top, f2).Some?
    ensures Flatten(pages, parent, top, f1) == Flatten(pages, parent, top, f2)
  {
    if f1 <= f2 {
      FlattenMonotone(pages, parent, top, f1, f2);
    } else {
      FlattenMonotone(pages, parent, top, f2, f1);
    }
  }

  // ---------------------------------------------------------------------
  // The selected pages in input order

  /** Flattening a concatenation of selected lists concatenates the results. */
  lemma {:induction false} FlattenEachAppend(pages: seq<Page>, a: seq<Page>, b: seq<Page>, fuel: nat)
    ensures FlattenEach(pages, a + b, fuel) == Join(FlattenEach(pages, a, fuel), FlattenEach(pages, b, fuel))
    decreases |b|
  {
    if |b| == 0 {
      assert a + b == a;
      assert FlattenEach(pages, b, fuel) == Some([]);
      if FlattenEach(pages, a, fuel).Some? {
        assert FlattenEach(pages, a, fuel).value + [] == FlattenEach(pages, a, fuel).value;
      }
    } else {
      var ab := a + b;
      var init := b[..|b| - 1];
      var row := b[|b| - 1];
      assert ab[..|ab| - 1] == a + init;
      assert ab[|ab| - 1] == row;
      var children := Flatten(pages, Some(row), false, fuel);
      assert FlattenEach(pages, b, fuel) == Join(Join(FlattenEach(pages, init, fuel), Some([row])), children);
      assert FlattenEach(pages, ab, fuel) == Join(Join(FlattenEach(pages, a + init, fuel), Some([row])), children);
      FlattenEachAppend(pages, a, init, fuel);
      JoinAssoc(FlattenEach(pages, a, fuel), FlattenEach(pages, init, fuel), Some([row]));
      JoinAssoc(FlattenEach(pages, a, fuel), Join(FlattenEach(pages, init, fuel), Some([row])), children);
    }
  }

  /** The `forEach` read front to back: the first selected page, then the
      flattening of its children, then the rest of the selected pages. */
  lemma FlattenEachFront(pages: seq<Page>, selected: seq<Page>, fuel: nat)
    requires |selected| > 0
    ensures FlattenEach(pages, selected, fuel)
         == Join(Join(Some([selected[0]]), Flatten(pages, Some(selected[0]), false, fuel)),
                 FlattenEach(pages, selected[1..], fuel))
  {
    assert selected == [selected[0]] + selected[1..];
    FlattenEachAppend(pages, [selected[0]], selected[1..], fuel);
    assert [selected[0]][..0] == [];
  }

  /** With no visible page the top-level pass selects nothing and `sort`
      returns the empty list. */
  lemma SortNoVisibleIsEmpty(pages: seq<Page>, parent: Option<Page>, fuel: nat)
    requires fuel > 0
    requires forall i :: 0 <= i < |pages| ==> !pages[i].hasVisibleParent
    ensures Flatten(pages, parent, true, fuel) == Some([])
  {
    SelectNothing(pages, parent, true);
  }

  /** What the filter of one pass keeps of the single page `x`. */
  function Keep(x: Page, parent: Option<Page>, top: bool): seq<Page>
  {
    if BelongsUnder(x, parent, top) then [x] else []
  }

  /** The filter keeps a single page exactly when the page belongs. */
  lemma SelectSingle(x: Page, parent: Option<Page>, top: bool)
    ensures Select([x], parent, top) == Keep(x, parent, top)
  {
    assert [x][1..] == [];
  }

  /** The filter is stable: filtering a concatenation concatenates the
      filtered parts, so the kept pages come in input order and each as
      often as in the input. With `SelectSingle` this determines `Select`. */
  lemma {:induction false} SelectAppend(a: seq<Page>, b: seq<Page>, parent: Option<Page>, top: bool)
    ensures Select(a + b, parent, top) == Select(a, parent, top) + Select(b, parent, top)
    decreases |a|
  {
    if |a| == 0 {
      assert a + b == b;
    } else {
      assert (a + b)[1..] == a[1..] + b;
      assert (a + b)[0] == a[0];
      SelectAppend(a[1..], b, parent, top);
    }
  }

  /** A pass under which no page belongs selects nothing. */
  lemma {:induction false} SelectNothing(pages: seq<Page>, parent: Option<Page>, top: bool)
    requires forall i :: 0 <= i < |pages| ==> !BelongsUnder(pages[i], parent, top)
    ensures Select(pages, parent, top) == []
  {
    if |pages| > 0 {
      SelectNothing(pages[1..], parent, top);
    }
  }

  // ---------------------------------------------------------------------
  // Divergence and termination

  /** A selected page whose children never finish flattening makes the pass
      never finish. */
  lemma {:induction false} FlattenEachMemberDiverges(pages: seq<Page>, selected: seq<Page>, row: Page, fuel: nat)
    requires row in selected
    requires Flatten(pages, Some(row), false, fuel) == None
    ensures FlattenEach(pages, selected, fuel) == None
    decreases |selected|
  {
    var n := |selected|;
    if selected[n - 1] != row {
      assert selected == selected[..n - 1] + [selected[n - 1]];
      FlattenEachMemberDiverges(pages, selected[..n - 1], row, fuel);
    }
  }

  /** A page whose `parentID` is its own `postID` is its own child, so
      sorting under it recurses forever. */
  lemma {:induction false} SelfParentChildDiverges(pages: seq<Page>, p: Page, fuel: nat)
    requires p in pages && p.parentID == p.postID
    ensures Flatten(pages, Some(p), false, fuel) == None
    decreases fuel
  {
    if fuel > 0 {
      SelfParentChildDiverges(pages, p, fuel - 1);
      SelectMembers(pages, Some(p), false);
      FlattenEachMemberDiverges(pages, Select(pages, Some(p), false), p, fuel - 1);
    }
  }

  /** `sort()` never returns on a list holding a visible page that is its own
      parent. */
  lemma SelfParentDiverges(pages: seq<Page>, p: Page, parent: Option<Page>, fuel: nat)
    requires p in pages && p.hasVisibleParent && p.parentID == p.postID
    ensures Flatten(pages, parent, true, fuel) == None
  {
    if fuel > 0 {
      SelfParentChildDiverges(pages, p, fuel - 1);
      SelectMembers(pages, parent, true);
      FlattenEachMemberDiverges(pages, Select(pages, parent, true), p, fuel - 1);
    }
  }

  /** `rank` strictly decreases from every page to each page naming it as
      parent: the hierarchy has no `parentID` cycle. */
  ghost predicate Ranked(pages: seq<Page>, rank: Page -> nat)
  {
    forall p, c :: p in pages && c in pages && c.parentID == p.postID ==> rank(c) < rank(p)
  }

  lemma {:induction false} ChildTerminates(pages: seq<Page>, rank: Page -> nat, p: Page, fuel: nat)
    requires Ranked(pages, rank) && p in pages && rank(p) < fuel
    ensures Flatten(pages, Some(p), false, fuel).Some?
    decreases fuel, 0, 0
  {
    var selected := Select(pages, Some(p), false);
    SelectMembers(pages, Some(p), false);
    EachTerminates(pages, rank, selected, fuel - 1);
  }

  lemma {:induction false} EachTerminates(pages: seq<Page>, rank: Page -> nat, selected: seq<Page>, fuel: nat)
    requires Ranked(pages, rank)
    requires forall r :: r in selected ==> r in pages && rank(r) < fuel
    ensures FlattenEach(pages, selected, fuel).Some?
    decreases fuel, 1, |selected|
  {
    if |selected| > 0 {
      var row := selected[|selected| - 1];
      EachTerminates(pages, rank, selected[..|selected| - 1], fuel);
      ChildTerminates(pages, rank, row, fuel);
    }
  }

  /** On a hierarchy without cycles `sort` returns: with every rank below
      `bound`, a fuel of `bound + 1` nested levels is enough (a lone leaf of
      rank 0 already needs two: one for the pass, one for its children). */
  lemma SortTerminates(pages: seq<Page>, rank: Page -> nat, bound: nat, parent: Option<Page>, top: bool)
    requires Ranked(pages, rank)
    requires forall p :: p in pages ==> rank(p) < bound
    ensures Flatten(pages, parent, top, bound + 1).Some?
  {
    SelectMembers(pages, parent, top);
    EachTerminates(pages, rank, Select(pages, parent, top), bound);
  }

  // ---------------------------------------------------------------------
  // Shape of the flattened list

  /** Every page of `s` belongs to the pass directly or comes after a page
      whose `postID` it names as its `parentID`. */
  ghost predicate Anchored(s: seq<Page>, parent: Option<Page>, top: bool)
  {
    forall j :: 0 <= j < |s| ==>
      BelongsUnder(s[j], parent, top) || exists k :: 0 <= k < j && s[j].parentID == s[k].postID
  }

  /** Every child (in `pages`) of a page of `s` is in `s` too. */
  ghost predicate ChildClosed(pages: seq<Page>, s: seq<Page>)
  {
    forall x, c :: x in s && c in pages && c.parentID == x.postID ==> c in s
  }

  /** What `sort` returns: every page the pass selects, every child of a page
      in the output, and only pages that are selected or follow a parent. */
  lemma {:induction false} FlattenShape(pages: seq<Page>, parent: Option<Page>, top: bool, fuel: nat, s: seq<Page>)
    requires Flatten(pages, parent, top, fuel) == Some(s)
    ensures Anchored(s, parent, top)
    ensures forall x :: x in pages && BelongsUnder(x, parent, top) ==> x in s
    ensures ChildClosed(pages, s)
    decreases fuel, 0, 0
  {
    SelectMembers(pages, parent, top);
    FlattenEachShape(pages, parent, top, Select(pages, parent, top), fuel - 1, s);
  }

  lemma {:induction false} FlattenEachShape(pages: seq<Page>, parent: Option<Page>, top: bool,
                                            selected: seq<Page>, fuel: nat, s: seq<Page>)
    requires forall r :: r in selected ==> BelongsUnder(r, parent, top)
    requires FlattenEach(pages, selected, fuel) == Some(s)
    ensures Anchored(s, parent, top)
    ensures forall x :: x in selected ==> x in s
    ensures ChildClosed(pages, s)
    decreases fuel, 1, |selected|
  {
    if |selected| > 0 {
      var row := selected[|selected| - 1];
      var init := selected[..|selected| - 1];
      assert selected == init + [row];
      var front := FlattenEach(pages, init, fuel).value;
      var children := Flatten(pages, Some(row), false, fuel).value;
      assert s == front + [row] + children;
      FlattenEachShape(pages, parent, top, init, fuel, front);
      FlattenShape(pages, Some(row), false, fuel, children);
      AnchoredJoin(front, row, children, parent, top);
      ClosedJoin(pages, front, row, children);
    }
  }

  /** A pass's flattening followed by one more selected page and the
      flattening of that page's children stays anchored. */
  lemma AnchoredJoin(front: seq<Page>, row: Page, children: seq<Page>, parent: Option<Page>, top: bool)
    requires Anchored(front, parent, top) && BelongsUnder(row, parent, top)
    requires Anchored(children, Some(row), false)
    ensures Anchored(front + [row] + children, parent, top)
  {
    var s := front + [row] + children;
    var at := |front|;
    forall j | 0 <= j < |s|
      ensures BelongsUnder(s[j], parent, top) || exists k :: 0 <= k < j && s[j].parentID == s[k].postID
    {
      if j < at {
        assert s[j] == front[j];
        if !BelongsUnder(front[j], parent, top) {
          var k :| 0 <= k < j && front[j].parentID == front[k].postID;
          assert s[k] == front[k];
        }
      } else if j > at {
        var i := j - at - 1;
        assert s[j] == children[i];
        if BelongsUnder(children[i], Some(row), false) {
          assert s[at] == row;
        } else {
          var k :| 0 <= k < i && children[i].parentID == children[k].postID;
          assert s[at + 1 + k] == children[k];
        }
      }
    }
  }

  /** Joining child-closed pieces with a page whose children all are in the
      last piece stays child-closed. */
  lemma ClosedJoin(pages: seq<Page>, front: seq<Page>, row: Page, children: seq<Page>)
    requires ChildClosed(pages, front) && ChildClosed(pages, children)
    requires forall c :: c in pages && c.parentID == row.postID ==> c in children
    ensures ChildClosed(pages, front + [row] + children)
  {
  }

  /** The output of `sort()` lists every visible page and every page reachable
      from one through children, and each page in it is visible or comes after
      a page it names as its parent. */
  lemma SortedListShape(pages: seq<Page>, fuel: nat, s: seq<Page>)
    requires Flatten(pages, None, true, fuel) == Some(s)
    ensures forall j :: 0 <= j < |s| ==>
              s[j].hasVisibleParent || exists k :: 0 <= k < j && s[j].parentID == s[k].postID
    ensures forall x :: x in pages && x.hasVisibleParent ==> x in s
    ensures ChildClosed(pages, s)
  {
    FlattenShape(pages, None, true, fuel, s);
  }

  // ---------------------------------------------------------------------
  // The annotator's single forward pass

  /** The value written at a position depends only on the pages up to it:
      annotating a prefix of the list writes the same values there. */
  lemma {:induction false} IndexAtPrefix(pages: seq<Page>, n: nat, i: nat)
    requires i < n <= |pages| && HeadVisible(pages)
    ensures HeadVisible(pages[..n]) && IndexAt(pages[..n], i) == IndexAt(pages, i)
    decreases i
  {
    if i > 0 && !pages[i].hasVisibleParent && pages[i].parentID != pages[i - 1].parentID {
      IndexAtPrefix(pages, n, i - 1);
    }
  }

  // ---------------------------------------------------------------------
  // Small lists

  /** A visible root 1 with children 2 and 3, and a visible root 4. */
  ghost predicate ScenarioPages(p1: Page, p2: Page, p3: Page, p4: Page)
  {
    && p1.postID == Some(1) && p1.parentID == None && p1.hasVisibleParent
    && p2.postID == Some(2) && p2.parentID == Some(1) && !p2.hasVisibleParent
    && p3.postID == Some(3) && p3.parentID == Some(1) && !p3.hasVisibleParent
    && p4.postID == Some(4) && p4.parentID == None && p4.hasVisibleParent
  }

  /** The top-level pass of `sort` over that list and a page 5 whose
      `parentID` names no listed page keeps the two roots in input order. */
  lemma ScenarioTopPass(p1: Page, p2: Page, p3: Page, p4: Page, p5: Page)
    requires ScenarioPages(p1, p2, p3, p4)
    requires p5.postID == Some(5) && p5.parentID == Some(9) && !p5.hasVisibleParent
    ensures Select([p4, p3, p5, p2, p1], None, true) == [p4, p1]
  {
    assert [p4, p3, p5, p2, p1][1..] == [p3, p5, p2, p1];
    assert [p3, p5, p2, p1][1..] == [p5, p2, p1];
    assert [p5, p2, p1][1..] == [p2, p1];
    assert [p2, p1][1..] == [p1];
    assert Select([p1], None, true) == [p1];
    assert Select([p2, p1], None, true) == [p1];
    assert Select([p5, p2, p1], None, true) == [p1];
    assert Select([p3, p5, p2, p1], None, true) == [p1];
  }

  /** The pass under root 1 keeps its two children in input order; no other
      page has children. */
  lemma ScenarioChildPasses(p1: Page, p2: Page, p3: Page, p4: Page, p5: Page)
    requires ScenarioPages(p1, p2, p3, p4)
    requires p5.postID == Some(5) && p5.parentID == Some(9) && !p5.hasVisibleParent
    ensures Select([p4, p3, p5, p2, p1], Some(p1), false) == [p3, p2]
    ensures Select([p4, p3, p5, p2, p1], Some(p4), false) == []
    ensures Select([p4, p3, p5, p2, p1], Some(p3), false) == []
    ensures Select([p4, p3, p5, p2, p1], Some(p2), false) == []
    ensures Select([p4, p3, p5, p2, p1], Some(p5), false) == []
  {
    var pages := [p4, p3, p5, p2, p1];
    assert pages[1..] == [p3, p5, p2, p1];
    assert [p3, p5, p2, p1][1..] == [p5, p2, p1];
    assert [p5, p2, p1][1..] == [p2, p1];
    assert [p2, p1][1..] == [p1];
    assert Select([p1], Some(p1), false) == [];
    assert Select([p2, p1], Some(p1), false) == [p2];
    assert Select([p5, p2, p1], Some(p1), false) == [p2];
    assert Select([p3, p5, p2, p1], Some(p1), false) == [p3, p2];
    SelectNothing(pages, Some(p4), false);
    SelectNothing(pages, Some(p3), false);
    SelectNothing(pages, Some(p2), false);
    SelectNothing(pages, Some(p5), false);
  }

  /** The list sorts to root 4, then root 1 followed by its children 3 and 2,
      in input order; page 5 is left out. */
  lemma ScenarioSort(p1: Page, p2: Page, p3: Page, p4: Page, p5: Page)
    requires ScenarioPages(p1, p2, p3, p4)
    requires p5.postID == Some(5) && p5.parentID == Some(9) && !p5.hasVisibleParent
    ensures Flatten([p4, p3, p5, p2, p1], None, true, 3) == Some([p4, p1, p3, p2])
  {
    var pages := [p4, p3, p5, p2, p1];
    ScenarioTopPass(p1, p2, p3, p4, p5);
    ScenarioChildPasses(p1, p2, p3, p4, p5);
    assert [p4, p1][..1] == [p4];
    assert [p3, p2][..1] == [p3];
    assert [p4][..0] == [] && [p3][..0] == [];
    assert FlattenEach(pages, [], 0) == Some([]) && FlattenEach(pages, [], 1) == Some([]);
    assert FlattenEach(pages, [], 2) == Some([]);
    assert Flatten(pages, Some(p3), false, 1) == Some([]);
    assert Flatten(pages, Some(p2), false, 1) == Some([]);
    assert [] + [p3] + [] == [p3] && [] + [p4] + [] == [p4];
    assert FlattenEach(pages, [p3], 1) == Some([p3]);
    assert [p3] + [p2] + [] == [p3, p2];
    assert FlattenEach(pages, [p3, p2], 1) == Some([p3, p2]);
    assert Flatten(pages, Some(p1), false, 2) == Some([p3, p2]);
    assert Flatten(pages, Some(p4), false, 2) == Some([]);
    assert FlattenEach(pages, [p4], 2) == Some([p4]);
    assert [p4] + [p1] + [p3, p2] == [p4, p1, p3, p2];
    assert FlattenEach(pages, [p4, p1], 2) == Some([p4, p1, p3, p2]);
  }

  /** Annotating root 1, child 2, sibling 3, root 4 gives 0, 1, 1, 0: the
      sibling takes its predecessor's position, not its depth. */
  lemma ScenarioIndexes(p1: Page, p2: Page, p3: Page, p4: Page)
    requires ScenarioPages(p1, p2, p3, p4)
    ensures HeadVisible([p1, p2, p3, p4])
    ensures IndexAt([p1, p2, p3, p4], 0) == 0
    ensures IndexAt([p1, p2, p3, p4], 1) == 1
    ensures IndexAt([p1, p2, p3, p4], 2) == 1
    ensures IndexAt([p1, p2, p3, p4], 3) == 0
  {
  }

  /** Removing from page 2 also drops its sibling 3: the scan stops only at
      the next visible page. */
  lemma ScenarioRemove(p1: Page, p2: Page, p3: Page, p4: Page)
    requires ScenarioPages(p1, p2, p3, p4)
    ensures RemoveSubtree([p1, p2, p3, p4], 1) == [p1, p4]
  {
    assert [p1, p2, p3, p4][2..] == [p3, p4];
    assert [p1, p2, p3, p4][..1] == [p1];
    assert [p3, p4][1..] == [p4];
    assert DropHidden([p4]) == [p4];
    assert DropHidden([p3, p4]) == [p4];
  }

  /** Removing from root 1 drops its children, up to root 4. */
  lemma ScenarioRemoveRoot(p1: Page, p2: Page, p3: Page, p4: Page)
    requires ScenarioPages(p1, p2, p3, p4)
    ensures RemoveSubtree([p1, p2, p3, p4], 0) == [p4]
  {
    assert [p1, p2, p3, p4][1..] == [p2, p3, p4];
    assert [p3, p4][1..] == [p4];
    assert [p2, p3, p4][1..] == [p3, p4];
    assert DropHidden([p4]) == [p4];
    assert DropHidden([p3, p4]) == [p4];
    assert DropHidden([p2, p3, p4]) == [p4];
  }

  /** Removing the last page drops just that page, an index past the end
      changes nothing, and a lone page leaves the empty list. */
  lemma ScenarioRemoveEdges(p1: Page, p2: Page, p3: Page, p4: Page)
    ensures RemoveSubtree([p1, p2, p3, p4], 3) == [p1, p2, p3]
    ensures RemoveSubtree([p1, p2, p3, p4], 4) == [p1, p2, p3, p4]
    ensures RemoveSubtree([p1], 0) == []
  {
    assert [p1][1..] == [];
  }

  /** A visible page whose parent is itself in the output of `sort` (here a
      visible parent) is emitted at least twice: once as a top-level page and
      once each time its parent is emitted. */
  lemma VisibleChildRepeated(p1: Page, p2: Page)
    requires p1.postID == Some(1) && p1.parentID == None && p1.hasVisibleParent
    requires p2.postID == Some(2) && p2.parentID == Some(1) && p2.hasVisibleParent
    ensures Flatten([p1, p2], None, true, 3) == Some([p1, p2, p2])
  {
    var pages := [p1, p2];
    assert pages[1..] == [p2];
    assert Select([p2], None, true) == [p2];
    assert Select([p2], Some(p1), false) == [p2];
    assert Select([p2], Some(p2), false) == [];
    assert Select(pages, None, true) == [p1, p2];
    assert Select(pages, Some(p1), false) == [p2];
    assert Select(pages, Some(p2), false) == [];
    assert [p1, p2][..1] == [p1];
    assert [p1][..0] == [] && [p2][..0] == [];
    assert FlattenEach(pages, [], 0) == Some([]) && FlattenEach(pages, [], 1) == Some([]);
    assert Flatten(pages, Some(p2), false, 1) == Some([]);
    assert [] + [p2] + [] == [p2];
    assert FlattenEach(pages, [p2], 1) == Some([p2]);
    assert Flatten(pages, Some(p1), false, 2) == Some([p2]);
    assert Flatten(pages, Some(p2), false, 2) == Some([]);
    assert FlattenEach(pages, [], 2) == Some([]);
    assert [] + [p1] + [p2] == [p1, p2] && [p1, p2] + [p2] + [] == [p1, p2, p2];
    assert FlattenEach(pages, [p1], 2) == Some([p1, p2]);
    assert FlattenEach(pages, [p1, p2], 2) == Some([p1, p2, p2]);
  }

  /** A visible page whose parent is listed but never emitted comes out only
      once: the pass under the parent is never made. */
  lemma VisibleChildOfUnreachedParentOnce(p1: Page, p2: Page)
    requires p1.postID == Some(1) && p1.parentID == Some(7) && !p1.hasVisibleParent
    requires p2.postID == Some(2) && p2.parentID == Some(1) && p2.hasVisibleParent
    ensures Flatten([p1, p2], None, true, 3) == Some([p2])
  {
    var pages := [p1, p2];
    assert pages[1..] == [p2];
    assert Select([p2], None, true) == [p2];
    assert Select([p2], Some(p2), false) == [];
    assert Select(pages, None, true) == [p2];
    assert Select(pages, Some(p2), false) == [];
    assert [p2][..0] == [];
    assert FlattenEach(pages, [], 1) == Some([]);
    assert Flatten(pages, Some(p2), false, 2) == Some([]);
    assert FlattenEach(pages, [], 2) == Some([]);
    assert [] + [p2] + [] == [p2];
  }
}
