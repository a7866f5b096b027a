# Page list hierarchy (WordPress iOS `Array+Page.swift`)

A Dafny model of the `Array where Element == Page` extension that the page
list uses to show a hierarchy of pages as one flat, indented list:

- `firstIndex` and `lastIndex`, the index accessors;
- `containsPage(for:)`, the lookup by page identifier;
- `map(_:)`, whose transform receives each page and the whole list;
- `sort(by:consideringTopLevel:)`, the depth-first flattener. The top-level
  pass selects the pages that are visible. A deeper pass selects the pages
  whose `parentID` equals the parent's `postID`. Each selected page is followed
  by the flattening of its children;
- `hierachyIndexes()`, the forward pass that writes each page's indentation
  (`hierarchyIndex`);
- `remove(from:)`, which drops a page and the run of non-visible pages after
  it.

Files:

- `Page.dfy` (module `Pages`): `Option` and the `Page` class. `postID`,
  `parentID` and `hasVisibleParent` are constants, because this code only reads
  them. `hierarchyIndex` is a mutable field, written in place through the shared
  reference. A Swift `NSNumber?` is an `Option<int>`.
- `PageArray.dfy` (module `PageArray`): the operations. A Swift array is a
  value, so the list is a `seq<Page>`. The code's loops are methods (`Map`,
  `Sort`, `HierarchyIndexes`, `Remove`). `Sort`, `HierarchyIndexes` and
  `Remove` are proved against a function (`Flatten`, `IndexAt`,
  `RemoveSubtree`); `Map` states its result directly in terms of the
  transform.
- `PageArrayProperties.dfy` (module `PageArrayProperties`): lemmas about
  those functions, and the behaviour on small lists.

The public call `sort()`, with the defaults `parent = nil` and
`consideringTopLevel = true`, is `Flatten(pages, None, true, fuel)` (or
`Sort(pages, None, true, fuel)`).

`sort` recurses with no decreasing measure. On a `parentID` cycle reachable
from a page the pass selects it never returns. `Flatten` and `Sort` therefore take a `fuel` bound on the depth of the
recursion and return `None` when that bound is too small.
`FlattenMonotone` and `SortDeterministic` prove that the bound never changes a
result that is returned. `SelfParentDiverges` proves that no bound is enough
when a visible page is its own parent. `SortTerminates` proves that a bound
exists when a rank decreases from each parent to its children.

Four behaviours of the code are easy to miss, and the model keeps them:

- `sort` can list a page more than once. A visible page whose parent is itself
  in the output of `sort` (for example a visible parent) comes out once at the
  top level and once each time its parent is emitted, so at least twice
  (`VisibleChildRepeated`). So the output is not free of duplicates. A visible
  page whose listed parent is never emitted comes out once
  (`VisibleChildOfUnreachedParentOnce`).
- The sibling rule of the annotator uses the predecessor's *position*, not its
  depth. Root 1, child 2, sibling 3, root 4 get indexes 0, 1, 1, 0
  (`ScenarioIndexes`).
- The annotator does not give position 0 the index 0 by itself. It reads
  `self[-1]` when the first page is not visible. `HierarchyIndexes` therefore
  requires the first page to be visible.
- `remove(from:)` stops only at the next visible page. Removing a child page
  also removes its following siblings (`ScenarioRemove`: removing page 2 of
  1, 2, 3, 4 leaves 1, 4).

The annotator's result does not depend on earlier `hierarchyIndex` values,
because `IndexAt` reads only the constant fields. So annotating twice writes
the same values.

## Model

| member | source | states |
|---|---|---|
| `PageArray.FirstIndex` | WordPress/Classes/Extensions/Array+Page.swift:7-9 | the first index is 0 for every list, and it is never past `lastIndex` |
| `PageArray.LastIndex` | WordPress/Classes/Extensions/Array+Page.swift:12-14 | 0 for the empty list; otherwise a valid position, the one just before `count` |
| `PageArray.HasPostID` | WordPress/Classes/Extensions/Array+Page.swift:25 | the `contains` scan is true exactly when some position holds a page with that `postID` |
| `PageArray.ContainsPage` | WordPress/Classes/Extensions/Array+Page.swift:20-26 | an absent identifier is never contained; a present one is contained iff some page's `postID` equals it |
| `PageArray.Map` | WordPress/Classes/Extensions/Array+Page.swift:32-39 | the result has the list's length, and element `i` is the transform of page `i` given the whole list |
| `PageArray.ParentKey` | WordPress/Classes/Extensions/Array+Page.swift:50 | the optional chain `parent?.postID?` is absent when there is no parent or the parent has no `postID`, and is the parent's `postID` otherwise |
| `PageArray.BelongsUnder` | WordPress/Classes/Extensions/Array+Page.swift:49-51 | the `block` closure: on the top-level pass a page belongs iff it is visible; on a deeper pass a page with no `parentID` belongs iff there is no parent or the parent has no `postID`, and one with a `parentID` belongs iff the parent's `postID` equals it |
| `PageArray.Select` | WordPress/Classes/Extensions/Array+Page.swift:49-52 | the filter of one pass keeps at most all pages, and every kept page belongs under the pass |
| `PageArrayProperties.SelectSingle` | WordPress/Classes/Extensions/Array+Page.swift:52 | the filter keeps a single page exactly when it belongs under the pass |
| `PageArrayProperties.SelectAppend` | WordPress/Classes/Extensions/Array+Page.swift:52 | the filter is stable: filtering `a + b` gives the filtering of `a` followed by that of `b`, so the kept pages keep their input order and multiplicity |
| `PageArray.SelectMembers` | WordPress/Classes/Extensions/Array+Page.swift:49-52 | a page is kept by the filter exactly when it is listed and belongs under the pass (visible on the top-level pass, else `parentID` equal to the parent's `postID`) |
| `PageArray.Flatten` | WordPress/Classes/Extensions/Array+Page.swift:47-57 | every page `sort` returns is a listed page, and the first one belongs under the pass |
| `PageArray.FlattenEach` | WordPress/Classes/Extensions/Array+Page.swift:52-55 | the `forEach` output holds only selected or listed pages and, when something was selected, starts with the first selected page |
| `PageArray.FlattenEachStopsAt` | WordPress/Classes/Extensions/Array+Page.swift:52-55 | once one selected page's subtree does not return, the whole pass does not return |
| `PageArray.Sort` | WordPress/Classes/Extensions/Array+Page.swift:47-57 | the recursive method with its appending loop returns exactly `Flatten` |
| `PageArray.IndexAt` | WordPress/Classes/Extensions/Array+Page.swift:64-71 | the index written at position `i` lies between 0 and `i` |
| `PageArray.HierarchyIndexes` | WordPress/Classes/Extensions/Array+Page.swift:62-77 | returns the same list; the last occurrence of each page holds `IndexAt`; in a list of distinct pages every position `i` holds `IndexAt` with `0 <= hierarchyIndex <= i`; nothing outside the list is written |
| `PageArray.DropHidden` | WordPress/Classes/Extensions/Array+Page.swift:103-111 | the result is a suffix of its input; it is empty or starts with a visible page; every dropped page is not visible |
| `PageArray.DropHiddenAt` | WordPress/Classes/Extensions/Array+Page.swift:103-111 | dropping a run of non-visible pages that ends at a visible page or at the end gives `DropHidden` |
| `PageArray.InRange` | WordPress/Classes/Extensions/Array+Page.swift:84 | the guard lets an index through exactly when it is a valid position of the list |
| `PageArray.RemoveSubtree` | WordPress/Classes/Extensions/Array+Page.swift:83-113 | an empty list or an out-of-range index leaves the list unchanged; in range, the prefix before `index` is kept and the list gets shorter; the rest is a suffix of the pages after `index` that starts with a visible page; every page skipped after `index` is not visible; `lastIndex` gives `dropLast()` |
| `PageArray.FirstIndexOf` | WordPress/Classes/Extensions/Array+Page.swift:108 | `index(of:)` returns the first position holding that very object, or nothing when the object is absent |
| `PageArray.Remove` | WordPress/Classes/Extensions/Array+Page.swift:83-114 | the method with its three cases and its remove-the-front loop returns exactly `RemoveSubtree` |
| `PageArrayProperties.FlattenMonotone` | WordPress/Classes/Extensions/Array+Page.swift:47-57 | once `sort` returns within some fuel, more fuel returns the same list |
| `PageArrayProperties.FlattenEachMonotone` | WordPress/Classes/Extensions/Array+Page.swift:52-55 | the same for the `forEach` over the selected pages |
| `PageArrayProperties.SortDeterministic` | WordPress/Classes/Extensions/Array+Page.swift:47-57 | any two fuel bounds under which `sort` returns give the same list |
| `PageArrayProperties.FlattenEachAppend` | WordPress/Classes/Extensions/Array+Page.swift:52-55 | flattening a concatenation of selected lists concatenates their flattenings |
| `PageArrayProperties.FlattenEachFront` | WordPress/Classes/Extensions/Array+Page.swift:52-55 | the output is the first selected page, then its children's flattening, then the flattening of the rest, in input order |
| `PageArrayProperties.SelectNothing` | WordPress/Classes/Extensions/Array+Page.swift:52 | a pass under which no page belongs selects nothing |
| `PageArrayProperties.SortNoVisibleIsEmpty` | WordPress/Classes/Extensions/Array+Page.swift:47-57 | a list with no visible page sorts to the empty list |
| `PageArrayProperties.FlattenEachMemberDiverges` | WordPress/Classes/Extensions/Array+Page.swift:52-55 | a selected page whose children never finish makes the whole pass never finish |
| `PageArrayProperties.SelfParentChildDiverges` | WordPress/Classes/Extensions/Array+Page.swift:50-54 | sorting under a page whose `parentID` is its own `postID` never returns |
| `PageArrayProperties.SelfParentDiverges` | WordPress/Classes/Extensions/Array+Page.swift:47-57 | `sort()` never returns on a list holding a visible page that is its own parent |
| `PageArrayProperties.ChildTerminates` | WordPress/Classes/Extensions/Array+Page.swift:54 | with a rank that decreases from parent to child, sorting under a page returns within more fuel than its rank |
| `PageArrayProperties.EachTerminates` | WordPress/Classes/Extensions/Array+Page.swift:52-55 | the same for the `forEach` over selected pages of smaller rank |
| `PageArrayProperties.SortTerminates` | WordPress/Classes/Extensions/Array+Page.swift:47-57 | on a hierarchy without cycles when every rank is below `bound`, every `sort` call returns with a fuel of `bound + 1` nested levels, which is at least two more than the largest rank |
| `PageArrayProperties.FlattenShape` | WordPress/Classes/Extensions/Array+Page.swift:47-57 | the output holds every page the pass selects; it holds every child of each of its pages; each of its pages belongs under the pass or follows a page it names as parent |
| `PageArrayProperties.FlattenEachShape` | WordPress/Classes/Extensions/Array+Page.swift:52-55 | the same for the `forEach`, which also keeps every selected page |
| `PageArrayProperties.SortedListShape` | WordPress/Classes/Extensions/Array+Page.swift:47-57 | `sort()` lists every visible page and every page reachable from it through children, and each listed page is visible or comes after a page it names as parent |
| `PageArrayProperties.IndexAtPrefix` | WordPress/Classes/Extensions/Array+Page.swift:62-77 | the value written at a position depends only on the pages before and at it |
| `PageArrayProperties.ScenarioTopPass` | WordPress/Classes/Extensions/Array+Page.swift:49-52 | on a two-root list with a dangling page the top-level filter keeps exactly the two roots, in input order |
| `PageArrayProperties.ScenarioChildPasses` | WordPress/Classes/Extensions/Array+Page.swift:49-52 | the filter under root 1 keeps its two children in input order; the filter under each of the other four pages keeps nothing |
| `PageArrayProperties.ScenarioSort` | WordPress/Classes/Extensions/Array+Page.swift:47-57 | a two-root list sorts into each root followed by its children in input order, and a page with a dangling `parentID` is omitted |
| `PageArrayProperties.ScenarioIndexes` | WordPress/Classes/Extensions/Array+Page.swift:62-77 | root 1, child 2, sibling 3, root 4 are annotated 0, 1, 1, 0 |
| `PageArrayProperties.ScenarioRemove` | WordPress/Classes/Extensions/Array+Page.swift:88-113 | removing from a child also drops its following sibling, up to the next root |
| `PageArrayProperties.ScenarioRemoveRoot` | WordPress/Classes/Extensions/Array+Page.swift:88-113 | removing from a root drops its children, up to the next root |
| `PageArrayProperties.ScenarioRemoveEdges` | WordPress/Classes/Extensions/Array+Page.swift:84-96 | removing the last page drops it alone; an index past the end changes nothing; a lone page leaves the empty list |
| `PageArrayProperties.VisibleChildRepeated` | WordPress/Classes/Extensions/Array+Page.swift:49-55 | a visible page whose parent is itself in the output of `sort` (here a visible parent) appears at least twice; with a visible parent and child the output is parent, child, child |
| `PageArrayProperties.VisibleChildOfUnreachedParentOnce` | WordPress/Classes/Extensions/Array+Page.swift:49-55 | a visible page whose listed parent is not visible and names an unlisted parent is emitted once, because the parent is never emitted |

## Left out

- `WordPress/WordPressTest/MockContentCoordinator.swift`: a test double that records the arguments of empty navigation methods. It has no logic to model.
- How `hasVisibleParent` is derived, and the rest of `Page` (a Core Data object, its persistence and other fields). These are defined outside the modelled file. `hasVisibleParent` is a constant boolean of each page.
- `NSNumber.intValue`: an identifier is an unbounded integer. Truncation of a number that does not fit in `Int` is not modelled.
- Map: the transform may read the heap but is not modelled as changing it. A transform with side effects on pages is not covered.
- Sort: a call that recurses forever is modelled as `None` for every fuel bound, not as a hang or a stack overflow. The quadratic cost of the repeated filtering is not modelled.
- Remove: the Swift `ArraySlice` index bookkeeping is not modelled. `right` is a sequence whose front is at position 0, and the search `index(of:)` is proved to find the element at that front.
- HierarchyIndexes: requires the first page to be visible. The code reads `self[-1]` otherwise and traps out of bounds (`WordPress/Classes/Extensions/Array+Page.swift:68-69`); the trap is not modelled.
- HierarchyIndexes: fields other than `hierarchyIndex` are constants in the model, so "no other field changes" holds by construction rather than by a postcondition.
