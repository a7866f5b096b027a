/** The `Array where Element == Page` extension: index accessors, a page
    lookup by identifier, a map whose transform also sees the whole list, the
    depth-first flattener `sort`, the indentation annotator and the subtree
    remover. A Swift array of pages is a value, so it is a `seq<Page>` here;
    the pages themselves are shared references.
 */
module PageArray {
  import opened Pages

  // ---------------------------------------------------------------------
  // Index accessors

  /** `firstIndex`: the first position of the list, whatever the list. */
  function FirstIndex(pages: seq<Page>): (r: int)
    ensures r == 0 && r <= LastIndex(pages)
  {
    0
  }

  /** `lastIndex`: the last position of a non-empty list; 0 for the empty one. */
  function LastIndex(pages: seq<Page>): (r: int)
    ensures |pages| == 0 ==> r == 0
    ensures |pages| > 0 ==> 0 <= r < |pages| && r + 1 == |pages|
  {
    if |pages| == 0 then 0 else |pages| - 1
  }

  // ---------------------------------------------------------------------
  // Membership

  /** Linear scan behind `contains`: some page carries the identifier `id`. */
  function HasPostID(pages: seq<Page>, id: int): (r: bool)
    ensures r <==> exists i :: 0 <= i < |pages| && pages[i].postID == Some(id)
  {
    if |pages| == 0 then false
    else if pages[0].postID == Some(id) then true
    else
      assert forall i :: 0 <= i < |pages| - 1 ==> pages[1..][i] == pages[i + 1];
      HasPostID(pages[1..], id)
  }

  /** `containsPage(for:)`: an absent identifier is never contained; a present
      one is contained exactly when some page has it as its `postID`. */
  function ContainsPage(pages: seq<Page>, id: Option<int>): (r: bool)
    ensures id.None? ==> !r
    ensures id.Some? ==> (r <==> exists i :: 0 <= i < |pages| && pages[i].postID == id)
  {
    match id
    case None => false
    case Some(v) => HasPostID(pages, v)
  }

  // ---------------------------------------------------------------------
  // Two-argument map

  /** `map(_:)`: element `i` of the result is the transform of page `i`,
      given together with the whole list. */
  method Map<T>(pages: seq<Page>, transform: (Page, seq<Page>) ~> T) returns (result: seq<T>)
    requires forall i :: 0 <= i < |pages| ==> transform.requires(pages[i], pages)
    ensures |result| == |pages|
    ensures forall i :: 0 <= i < |pages| ==> result[i] == transform(pages[i], pages)
  {
    result := [];
    for i := 0 to |pages|
      invariant |result| == i
      invariant forall k :: 0 <= k < i ==> result[k] == transform(pages[k], pages)
    {
      result := result + [transform(pages[i], pages)];
    }
  }

  // ---------------------------------------------------------------------
  // Depth-first flattener

  /** The identifier a child must name as its `parentID` to sit under
      `parent`; with no parent given that is the absent identifier. */
  function ParentKey(parent: Option<Page>): (r: Option<int>)
    ensures r.Some? <==> parent.Some? && parent.value.postID.Some?
    ensures r.Some? ==> r == parent.value.postID
  {
    match parent
    case None => None
    case Some(p) => p.postID
  }

  /** The filter of one pass of `sort`: on the top-level pass the visible
      pages, on a deeper pass the pages whose `parentID` is the parent's
      `postID` (two absent identifiers are equal). */
  predicate BelongsUnder(row: Page, parent: Option<Page>, consideringTopLevel: bool)
    ensures consideringTopLevel ==> (BelongsUnder(row, parent, consideringTopLevel) <==> row.hasVisibleParent)
    ensures !consideringTopLevel && row.parentID.None? ==>
              (BelongsUnder(row, parent, consideringTopLevel) <==> parent.None? || parent.value.postID.None?)
    ensures !consideringTopLevel && row.parentID.Some? ==>
              (BelongsUnder(row, parent, consideringTopLevel) <==> parent.Some? && parent.value.postID == row.parentID)
  {
    if consideringTopLevel then row.hasVisibleParent else row.parentID == ParentKey(parent)
  }

  /** `filter(block)`: the pages of one pass, in input order. */
  function Select(pages: seq<Page>, parent: Option<Page>, consideringTopLevel: bool): (r: seq<Page>)
    ensures |r| <= |pages|
    ensures forall i :: 0 <= i < |r| ==> BelongsUnder(r[i], parent, consideringTopLevel)
  {
    if |pages| == 0 then []
    else
      (if BelongsUnder(pages[0], parent, consideringTopLevel) then [pages[0]] else [])
        + Select(pages[1..], parent, consideringTopLevel)
  }

  /** The pass selects exactly the listed pages that belong under it. */
  lemma {:induction false} SelectMembers(pages: seq<Page>, parent: Option<Page>, consideringTopLevel: bool)
    ensures forall x :: x in Select(pages, parent, consideringTopLevel) ==>
              x in pages && BelongsUnder(x, parent, consideringTopLevel)
    ensures forall x :: x in pages && BelongsUnder(x, parent, consideringTopLevel) ==>
              x in Select(pages, parent, consideringTopLevel)
  {
    if |pages| > 0 {
      assert pages == [pages[0]] + pages[1..];
      SelectMembers(pages[1..], parent, consideringTopLevel);
    }
  }

  /** What `sort(by: parent, consideringTopLevel:)` returns when its recursion
      is at most `fuel` calls deep; `None` when it needs more. On a `parentID`
      cycle reachable from a page the pass selects every fuel gives `None`:
      the code recurses forever there. */
  function Flatten(pages: seq<Page>, parent: Option<Page>, consideringTopLevel: bool, fuel: nat)
    : (r: Option<seq<Page>>)
    ensures r.Some? ==> forall x :: x in r.value ==> x in pages
    ensures r.Some? && |r.value| > 0 ==> BelongsUnder(r.value[0], parent, consideringTopLevel)
    decreases fuel, 0, 0
  {
    if fuel == 0 then None
    else
      SelectMembers(pages, parent, consideringTopLevel);
      FlattenEach(pages, Select(pages, parent, consideringTopLevel), fuel - 1)
  }

  /** The `forEach` of `sort`: each selected page followed by the flattening
      of its children, concatenated in the order of `selected`. */
  function FlattenEach(pages: seq<Page>, selected: seq<Page>, fuel: nat): (r: Option<seq<Page>>)
    ensures r.Some? ==> forall x :: x in r.value ==> x in selected || x in pages
    ensures r.Some? && |selected| > 0 ==> |r.value| > 0 && r.value[0] == selected[0]
    decreases fuel, 1, |selected|
  {
    if |selected| == 0 then Some([])
    else
      var row := selected[|selected| - 1];
      match FlattenEach(pages, selected[..|selected| - 1], fuel)
      case None => None
      case Some(front) =>
        match Flatten(pages, Some(row), false, fuel)
        case None => None
        case Some(children) => Some(front + [row] + children)
  }

  /** A selected page whose subtree does not flatten within the fuel makes
      the whole pass fail: the pages after it are never reached. */
  lemma {:induction false} FlattenEachStopsAt(pages: seq<Page>, selected: seq<Page>, i: nat, fuel: nat)
    requires i <= |selected|
    requires FlattenEach(pages, selected[..i], fuel) == None
    ensures FlattenEach(pages, selected, fuel) == None
    decreases |selected| - i
  {
    if i < |selected| {
      var front := selected[..|selected| - 1];
      assert front[..i] == selected[..i];
      FlattenEachStopsAt(pages, front, i, fuel);
    } else {
      assert selected[..i] == selected;
    }
  }

  /** `sort(by:consideringTopLevel:)`, recursion bounded by `fuel`: `None`
      stands for a call that does not return within `fuel` nested levels. */
  method Sort(pages: seq<Page>, parent: Option<Page>, consideringTopLevel: bool, fuel: nat)
    returns (sorted: Option<seq<Page>>)
    ensures sorted == Flatten(pages, parent, consideringTopLevel, fuel)
    decreases fuel
  {
    if fuel == 0 {
      return None;
    }
    var selected := Select(pages, parent, consideringTopLevel);
    var sortedList: seq<Page> := [];
    var i := 0;
    while i < |selected|
      invariant 0 <= i <= |selected|
      invariant FlattenEach(pages, selected[..i], fuel - 1) == Some(sortedList)
    {
      var row := selected[i];
      assert selected[..i + 1][..i] == selected[..i];
      var children := Sort(pages, Some(row), false, fuel - 1);
      if children.None? {
        FlattenEachStopsAt(pages, selected, i + 1, fuel - 1);
        return None;
      }
      sortedList := sortedList + [row] + children.value;
      i := i + 1;
    }
    assert selected[..i] == selected;
    return Some(sortedList);
  }

  // ---------------------------------------------------------------------
  // Indentation annotator

  /** The annotator reads `self[index - 1]` for a page that is not visible, so
      the first page must be visible. */
  predicate HeadVisible(pages: seq<Page>)
  {
    |pages| == 0 || pages[0].hasVisibleParent
  }

  /** The `hierarchyIndex` written at position `i`: 0 for a visible page;
      the predecessor's position for a page with the predecessor's
      `parentID`; otherwise one more than the value written for the
      predecessor. */
  function IndexAt(pages: seq<Page>, i: nat): (r: int)
    requires i < |pages| && HeadVisible(pages)
    ensures 0 <= r <= i
    decreases i
  {
    if pages[i].hasVisibleParent then 0
    else if pages[i].parentID == pages[i - 1].parentID then i - 1
    else IndexAt(pages, i - 1) + 1
  }

  /** Position `k` holds the last occurrence of its page among the first `n`. */
  predicate LastIn(pages: seq<Page>, k: nat, n: nat)
    requires k < n <= |pages|
  {
    forall j :: k < j < n ==> pages[j] != pages[k]
  }

  /** No page object occurs twice in the list. */
  predicate Distinct(pages: seq<Page>)
  {
    forall i, j :: 0 <= i < j < |pages| ==> pages[i] != pages[j]
  }

  /** `hierachyIndexes()`: one forward pass that writes `hierarchyIndex` on
      every page and returns the same list. A page object that occurs more
      than once keeps the value of its last occurrence; in a list of distinct
      pages every position holds `IndexAt`, which lies between 0 and the
      position. */
  method HierarchyIndexes(pages: seq<Page>) returns (result: seq<Page>)
    requires HeadVisible(pages)
    modifies set p | p in pages
    ensures result == pages
    ensures forall k :: 0 <= k < |pages| && LastIn(pages, k, |pages|) ==>
              pages[k].hierarchyIndex == IndexAt(pages, k)
    ensures Distinct(pages) ==> forall k :: 0 <= k < |pages| ==>
              pages[k].hierarchyIndex == IndexAt(pages, k) && 0 <= pages[k].hierarchyIndex <= k
  {
    var index := 0;
    while index < |pages|
      invariant 0 <= index <= |pages|
      invariant forall k :: 0 <= k < index && LastIn(pages, k, index) ==>
                  pages[k].hierarchyIndex == IndexAt(pages, k)
    {
      var page := pages[index];
      if page.hasVisibleParent {
        page.hierarchyIndex := 0;
      } else {
        var parentIndex := index - 1;
        var parent := pages[parentIndex];
        assert LastIn(pages, parentIndex, index);
        page.hierarchyIndex :=
          if page.parentID == parent.parentID then parentIndex else parent.hierarchyIndex + 1;
      }
      assert page.hierarchyIndex == IndexAt(pages, index);
      forall k | 0 <= k < index + 1 && LastIn(pages, k, index + 1)
        ensures pages[k].hierarchyIndex == IndexAt(pages, k)
      {
        if k < index {
          assert LastIn(pages, k, index);
        }
      }
      index := index + 1;
    }
    if Distinct(pages) {
      forall k | 0 <= k < |pages| ensures LastIn(pages, k, |pages|) { }
    }
    result := pages;
  }

  // ---------------------------------------------------------------------
  // Subtree remover

  /** The pages left once the leading run of pages that are not visible is
      dropped: a suffix of `s` that is empty or starts with a visible page,
      everything before it not visible. */
  function DropHidden(s: seq<Page>): (r: seq<Page>)
    ensures |r| <= |s| && r == s[|s| - |r|..]
    ensures r == [] || r[0].hasVisibleParent
    ensures forall j :: 0 <= j < |s| - |r| ==> !s[j].hasVisibleParent
  {
    if |s| == 0 || s[0].hasVisibleParent then s else DropHidden(s[1..])
  }

  /** `index` designates a page of a non-empty list. */
  predicate InRange(pages: seq<Page>, index: int)
    ensures InRange(pages, index) <==> 0 <= index < |pages|
  {
    |pages| > 0 && FirstIndex(pages) <= index <= LastIndex(pages)
  }

  /** What `remove(from:)` returns: the list itself when it is empty or
      `index` is out of range; otherwise the pages before `index`, followed by
      what is left of the pages after it once the run of pages that are not
      visible is dropped. */
  function RemoveSubtree(pages: seq<Page>, index: int): (r: seq<Page>)
    ensures !InRange(pages, index) ==> r == pages
    ensures InRange(pages, index) ==> index <= |r| < |pages| && r[..index] == pages[..index]
    ensures InRange(pages, index) ==> r[index..] == pages[index + 1 + (|pages| - |r| - 1)..]
    ensures InRange(pages, index) ==>
              forall j :: index < j < index + 1 + (|pages| - |r| - 1) ==> !pages[j].hasVisibleParent
    ensures InRange(pages, index) && |r| > index ==> r[index].hasVisibleParent
    ensures InRange(pages, index) && index == LastIndex(pages) ==> r == pages[..|pages| - 1]
  {
    if !InRange(pages, index) then pages
    else
      var after := pages[index + 1..];
      var rest := DropHidden(after);
      assert forall j :: index < j < |pages| ==> after[j - index - 1] == pages[j];
      assert rest == after[|after| - |rest|..] == pages[index + 1 + (|after| - |rest|)..];
      pages[..index] + rest
  }

  /** Dropping a run of pages that are not visible, up to a visible page or
      the end, is what `DropHidden` does. */
  lemma DropHiddenAt(s: seq<Page>, k: nat)
    requires k <= |s|
    requires forall j :: 0 <= j < k ==> !s[j].hasVisibleParent
    requires k == |s| || s[k].hasVisibleParent
    ensures DropHidden(s) == s[k..]
  {
  }

  /** First position of the object `x` in `s` (`index(of:)` compares pages by
      identity). */
  function FirstIndexOf(s: seq<Page>, x: Page): (r: Option<nat>)
    ensures r.Some? ==> r.value < |s| && s[r.value] == x && forall j :: 0 <= j < r.value ==> s[j] != x
    ensures r.None? ==> x !in s
  {
    if |s| == 0 then None
    else if s[0] == x then Some(0)
    else
      match FirstIndexOf(s[1..], x)
      case None => None
      case Some(k) => Some(k + 1)
  }

  /** `remove(from:)`, following the code's three cases and its loop over a
      copy of `right` that removes the element it is looking at. */
  method Remove(pages: seq<Page>, index: int) returns (result: seq<Page>)
    ensures result == RemoveSubtree(pages, index)
  {
    if |pages| == 0 || index < FirstIndex(pages) || index > LastIndex(pages) {
      return pages;
    }
    var left: seq<Page> := [];
    var right: seq<Page> := [];
    if index == FirstIndex(pages) {
      right := pages[1..];
    } else if index == LastIndex(pages) {
      return pages[..|pages| - 1];
    } else {
      left := pages[..index];
      right := pages[index + 1..];
    }
    assert left == pages[..index] && right == pages[index + 1..];
    var elements := right;
    var k := 0;
    while k < |elements|
      invariant 0 <= k <= |elements|
      invariant right == elements[k..]
      invariant forall j :: 0 <= j < k ==> !elements[j].hasVisibleParent
    {
      var element := elements[k];
      if element.hasVisibleParent {
        break;
      }
      var at := FirstIndexOf(right, element);
      assert at == Some(0);
      right := right[..at.value] + right[at.value + 1..];
      assert right == elements[k + 1..];
      k := k + 1;
    }
    DropHiddenAt(elements, k);
    result := left + right;
  }
}
