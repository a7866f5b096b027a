/** The page record the page list works on.

    Only the four fields that the `Array where Element == Page` extension
    touches are modelled. `postID`, `parentID` and `hasVisibleParent` are read
    and never written by that code, so they are constants here; `hierarchyIndex`
    is the one field it writes, through the reference. An `NSNumber?` is an
    `Option<int>`.
 */
module Pages {

  datatype Option<+T> = None | Some(value: T)

  class Page {
    /** The page's own identifier; `None` when the page is not yet stored. */
    const postID: Option<int>
    /** The identifier of the page's parent; `None` for a page without one. */
    const parentID: Option<int>
    /** Whether the page is shown at the top level of the list. */
    const hasVisibleParent: bool
    /** Indentation annotation written by the hierarchy annotator. */
    var hierarchyIndex: int

    constructor (postID: Option<int>, parentID: Option<int>, hasVisibleParent: bool)
      ensures this.postID == postID
      ensures this.parentID == parentID
      ensures this.hasVisibleParent == hasVisibleParent
      ensures hierarchyIndex == 0
    {
      this.postID := postID;
      this.parentID := parentID;
      this.hasVisibleParent := hasVisibleParent;
      hierarchyIndex := 0;
    }
  }
}
