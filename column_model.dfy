/** The part of a column that the drag engine reads and writes: its identity
    and its scroll state. Columns are shared objects whose scroll state the
    board and the column component update in place. */
module ColumnModels {

  class ColumnModel {
    const id: string
    var title: string
    var scrollOffset: int
    var contentHeight: int

    constructor (id: string, title: string, scrollOffset: int, contentHeight: int)
      ensures this.id == id && this.title == title
      ensures this.scrollOffset == scrollOffset && this.contentHeight == contentHeight
    {
      this.id := id;
      this.title := title;
      this.scrollOffset := scrollOffset;
      this.contentHeight := contentHeight;
    }

    method SetScrollOffset(offset: int)
      modifies this`scrollOffset
      ensures scrollOffset == offset
    {
      scrollOffset := offset;
    }

    method SetContentHeight(height: int)
      modifies this`contentHeight
      ensures contentHeight == height
    {
      contentHeight := height;
    }
  }
}
