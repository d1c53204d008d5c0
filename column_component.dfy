/** The column component (src/components/columns/column.component.tsx): the
    list of one column, which follows its scroll events to keep the column's
    stored scroll offset in step with what the list shows. */
module ColumnComponent {

  import opened Wrappers
  import opened CardModels
  import opened ColumnModels
  import opened BoardState

  /** Whether a scroll report at `liveOffset` counts as scrolling down: it is
      past the offset the column last stored. */
  predicate ScrollsDown(liveOffset: int, stored: int)
  {
    liveOffset > stored
  }

  /** Whether a scroll that ends at `currentOffset` is committed: a downward
      scroll must end at or past the stored offset, an upward one at or
      before it. An end on the wrong side of the stored offset for the
      direction of the last report is dropped. */
  predicate SettleCommits(scrollingDown: bool, currentOffset: int, stored: int)
  {
    (scrollingDown && currentOffset >= stored) || (!scrollingDown && currentOffset <= stored)
  }

  /** The list shown for a column: its entry in the cards map, or nothing
      when the column has no entry. */
  function ColumnItems(cards: CardsMap, columnId: string): seq<CardModel>
  {
    if columnId in cards then cards[columnId] else []
  }

  /** After a rebuild, a board column shows exactly the supplied cards that
      name it, in input order; with no cards supplied it keeps the list it
      had, and a column new to the board shows nothing. */
  lemma ColumnShowsItsCards(columns: ColumnsMap, prev: CardsMap, cards: Option<seq<CardModel>>, columnId: string)
    requires columnId in columns
    ensures cards.Some? ==> ColumnItems(RebuiltCards(columns, prev, cards), columnId) == ColumnCards(cards.value, columnId)
    ensures cards.None? && columnId in prev ==> ColumnItems(RebuiltCards(columns, prev, cards), columnId) == prev[columnId]
    ensures cards.None? && columnId !in prev ==> ColumnItems(RebuiltCards(columns, prev, cards), columnId) == []
  {
  }

  /** While every card sits in the list of the column it names, a column
      shows only cards that name it. */
  lemma ColumnShowsOnlyItsCards(cards: CardsMap, columnId: string)
    requires ListsMatchColumns(cards)
    ensures forall c :: c in ColumnItems(cards, columnId) ==> c.columnId == columnId
  {
  }

  /** The scroll events a column's list reports: a live position while it
      moves, and the position where a drag or a momentum scroll ends. */
  datatype ScrollEvent = Scrolled(liveOffset: int) | Ended(currentOffset: int)

  /** The direction flag and the stored offset after a column has handled
      `events` in order. */
  datatype ScrollState = ScrollState(scrollingDown: bool, stored: int)

  function RunScrollEvents(s: ScrollState, events: seq<ScrollEvent>): (r: ScrollState)
    decreases |events|
  {
    if events == [] then s
    else
      var next := match events[0]
        case Scrolled(live) => s.(scrollingDown := ScrollsDown(live, s.stored))
        case Ended(cur) => if SettleCommits(s.scrollingDown, cur, s.stored) then s.(stored := cur) else s;
      RunScrollEvents(next, events[1..])
  }

  /** Every end is announced: it comes right after a live report at the
      same position. */
  predicate EndsAnnounced(events: seq<ScrollEvent>)
  {
    forall i :: 0 <= i < |events| && events[i].Ended? ==>
      i > 0 && events[i - 1] == Scrolled(events[i].currentOffset)
  }

  /** The position of the last end in `events`, or `stored` when none. */
  function LastEnd(stored: int, events: seq<ScrollEvent>): int
    decreases |events|
  {
    if events == [] then stored
    else if events[|events| - 1].Ended? then events[|events| - 1].currentOffset
    else LastEnd(stored, events[..|events| - 1])
  }

  /** When every end is announced by a live report at the same position, no
      end is dropped: the stored offset is where the last scroll ended. */
  lemma {:induction false} AnnouncedEndsAllCommit(s: ScrollState, events: seq<ScrollEvent>)
    requires EndsAnnounced(events)
    ensures RunScrollEvents(s, events).stored == LastEnd(s.stored, events)
    decreases |events|
  {
    if events != [] {
      var n := |events| - 1;
      var prefix := events[..n];
      assert EndsAnnounced(prefix) by {
        forall i | 0 <= i < |prefix| && prefix[i].Ended?
          ensures i > 0 && prefix[i - 1] == Scrolled(prefix[i].currentOffset)
        {
          assert events[i] == prefix[i];
        }
      }
      AnnouncedEndsAllCommit(s, prefix);
      RunScrollEventsSnoc(s, prefix, events[n]);
      assert events == prefix + [events[n]];
      if events[n].Ended? {
        assert n > 0 && events[n - 1] == Scrolled(events[n].currentOffset);
        var m := n - 1;
        RunScrollEventsSnoc(s, events[..m], events[m]);
        assert events[..m] + [events[m]] == prefix;
      }
    }
  }

  /** Running one more event is one more step of the run. */
  lemma {:induction false} RunScrollEventsSnoc(s: ScrollState, events: seq<ScrollEvent>, e: ScrollEvent)
    ensures var t := RunScrollEvents(s, events);
      RunScrollEvents(s, events + [e]) == match e
        case Scrolled(live) => t.(scrollingDown := ScrollsDown(live, t.stored))
        case Ended(cur) => if SettleCommits(t.scrollingDown, cur, t.stored) then t.(stored := cur) else t
    decreases |events|
  {
    if events != [] {
      var next := match events[0]
        case Scrolled(live) => s.(scrollingDown := ScrollsDown(live, s.stored))
        case Ended(cur) => if SettleCommits(s.scrollingDown, cur, s.stored) then s.(stored := cur) else s;
      assert (events + [e])[1..] == events[1..] + [e];
      RunScrollEventsSnoc(next, events[1..], e);
    }
  }

  /** An end reported on the far side of where the last report pointed is
      dropped: after a report past the stored offset, an end before the
      stored offset leaves it in place. */
  lemma EndAgainstDirectionIsDropped(s: ScrollState, live: int, cur: int)
    requires live > s.stored && cur < s.stored
    ensures RunScrollEvents(s, [Scrolled(live), Ended(cur)]).stored == s.stored
  {
    var down := s.(scrollingDown := true);
    assert [Scrolled(live), Ended(cur)][1..] == [Ended(cur)];
    assert RunScrollEvents(s, [Scrolled(live), Ended(cur)]) == RunScrollEvents(down, [Ended(cur)]);
    assert [Ended(cur)][1..] == [];
    assert RunScrollEvents(down, [Ended(cur)]) == RunScrollEvents(down, []);
  }

  class Column {
    /** The column this list shows. */
    const column: ColumnModel
    /** The direction of the last live report. */
    var scrollingDown: bool

    constructor (column: ColumnModel)
      ensures this.column == column && !scrollingDown
    {
      this.column := column;
      scrollingDown := false;
    }

    /** A live scroll report: remembers whether the list is past the
        column's stored offset. */
    method HandleScroll(liveOffset: int)
      modifies this`scrollingDown
      ensures scrollingDown == ScrollsDown(liveOffset, column.scrollOffset)
      ensures scrollingDown <==> liveOffset > column.scrollOffset
    {
      scrollingDown := liveOffset > column.scrollOffset;
    }

    /** A drag or momentum scroll ends at `currentOffset`: the offset is
        stored in the column, and a board re-measure requested, exactly when
        the end agrees with the direction of the last report. */
    method EndScrolling(currentOffset: int) returns (remeasure: bool)
      modifies column`scrollOffset
      ensures remeasure == SettleCommits(scrollingDown, currentOffset, old(column.scrollOffset))
      ensures remeasure ==> column.scrollOffset == currentOffset
      ensures !remeasure ==> column.scrollOffset == old(column.scrollOffset)
    {
      var scrollingDownEnded := scrollingDown && currentOffset >= column.scrollOffset;
      var scrollingUpEnded := !scrollingDown && currentOffset <= column.scrollOffset;
      remeasure := scrollingDownEnded || scrollingUpEnded;
      if remeasure {
        column.SetScrollOffset(currentOffset);
      }
    }

    /** The list's content was laid out: its height is stored in the column,
        the width is ignored. */
    method OnContentSizeChange(width: int, contentHeight: int)
      modifies column`contentHeight
      ensures column.contentHeight == contentHeight
    {
      column.SetContentHeight(contentHeight);
    }
  }
}
