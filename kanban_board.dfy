/** The kanban board component (src/components/kanban-board.component.tsx):
    the board state store, the drag session controller, and the snap and
    autoscroll timers, as one object whose fields the event handlers update. */
module KanbanBoard {

  import opened Wrappers
  import opened CardModels
  import opened ColumnModels
  import opened BoardState
  import opened Timers

  /** A JavaScript array passed in as a prop: `ref` stands for its identity,
      which is all the update guard compares. */
  datatype ArrayRef<T> = ArrayRef(ref: nat, items: seq<T>)

  function ItemsOf<T>(a: Option<ArrayRef<T>>): Option<seq<T>>
  {
    if a.Some? then Some(a.value.items) else None
  }

  /** `prev !== next` on two optional array props. */
  predicate PropChanged<T>(prev: Option<ArrayRef<T>>, next: Option<ArrayRef<T>>)
  {
    if prev.None? || next.None? then prev.None? != next.None? else prev.value.ref != next.value.ref
  }

  /** The states a long-press gesture handler reports. */
  datatype GestureState = Undetermined | Failed | Began | Cancelled | Active | End

  /** The host's drag-end callback: absent, or present and returning or throwing. */
  datatype DragEndCallback = NoCallback | CallbackReturns | CallbackThrows

  /** The answer of the scroll-direction probe for a column and a pointer y. */
  datatype ScrollProbe = ScrollProbe(scrolling: bool, offset: int)

  /** The requests the board makes of its collaborators, in the order made:
      carousel snaps, list scrolls, and the host's drag-end notification. */
  datatype BoardEvent =
    | SnapRequested(direction: SnapDirection)
    | ScrollToOffset(columnId: string, offset: int)
    | DragEnded(srcColumn: ColumnModel?, destColumn: ColumnModel, item: CardModel, targetIndex: int)

  /** The request a firing snap timer issues. */
  function SnapEvents(slot: Option<SnapDirection>): seq<BoardEvent>
  {
    if slot.Some? then [SnapRequested(slot.value)] else []
  }

  /** Whether a drag start is refused: a drag is already on, no column is
      under the pointer, or the card found there cannot be dragged. */
  predicate StartRefused(movingMode: bool, column: ColumnModel?, draggable: bool)
  {
    movingMode || column == null || !draggable
  }

  /** A card a drag may start from: it has been measured and names a column
      (the empty string is falsy in the source). */
  predicate Draggable(card: CardModel?)
    reads card
  {
    card != null && card.rect.Some? && card.columnId != ""
  }

  /** The cards map after the drag controller sees the dragged `item` (whose
      column was `fromId`) over `target`; None when nothing moves: the source
      column is unknown, it is the target, or a list is missing. */
  function MoveCardOutcome(columns: ColumnsMap, cards: CardsMap, fromId: string, item: CardModel,
                           target: ColumnModel): Option<CardsMap>
  {
    if fromId !in columns || target.id == columns[fromId].id then None
    else MoveToOtherColumnLists(cards, item, columns[fromId].id, target.id)
  }

  /** `indexOf`: the first position of the card `c` itself, or -1. */
  function IndexOfCard(s: seq<CardModel>, c: CardModel): int
  {
    FindIndex(s, (x: CardModel) => x == c)
  }

  /** `findIndex` by id: the first position of a card with id `id`, or -1. */
  function IndexOfId(s: seq<CardModel>, id: string): int
  {
    FindIndex(s, (x: CardModel) => x.id == id)
  }

  /** The host notifications a drag end makes: one, carrying the source
      column (null when unknown), the card's current column, the card and its
      index in that column's list, when the current column is on the board
      and a callback is supplied; none otherwise. */
  function DragEndEvents(columns: ColumnsMap, cards: CardsMap, srcId: Option<string>, item: CardModel,
                         destId: string, callback: DragEndCallback): (r: seq<BoardEvent>)
    ensures |r| <= 1
    ensures |r| == 1 <==> destId in columns && callback != NoCallback
    ensures |r| == 1 ==> r[0].DragEnded? && r[0].destColumn == columns[destId] && r[0].item == item
  {
    if destId !in columns || callback == NoCallback then []
    else
      var src: ColumnModel? := if srcId.Some? && srcId.value in columns then columns[srcId.value] else null;
      var dest := columns[destId];
      var index := if dest.id in cards then IndexOfCard(cards[dest.id], item) else 0;
      [DragEnded(src, dest, item, index)]
  }

  /** Whether a drag end forgets the dragged card: only when the report ran
      to completion. */
  predicate DragEndForgets(columns: ColumnsMap, destId: string, callback: DragEndCallback)
  {
    destId in columns && callback != CallbackThrows
  }

  /** On a board whose columns are stored under their ids, the index a drag
      end reports is the first position of the card in its column's list,
      and -1 when the list does not hold the card. */
  lemma DragEndReportsPosition(columns: ColumnsMap, cards: CardsMap, srcId: Option<string>, item: CardModel,
                               destId: string, callback: DragEndCallback)
    requires KeyedById(columns) && destId in columns && destId in cards && callback != NoCallback
    ensures var r := DragEndEvents(columns, cards, srcId, item, destId, callback);
      var list := cards[destId];
      && |r| == 1
      && (item in list ==> 0 <= r[0].targetIndex < |list| && list[r[0].targetIndex] == item
                           && item !in list[..r[0].targetIndex])
      && (item !in list ==> r[0].targetIndex == -1)
  {
    var list := cards[destId];
    var index := IndexOfCard(list, item);
    assert DragEndEvents(columns, cards, srcId, item, destId, callback)[0].targetIndex == index;
    if item in list {
      var j :| 0 <= j < |list| && list[j] == item;
      assert index != -1;
    }
  }

  /** The list `moveCardToPosition` installs for column `columnId`: the helper
      `move` (moveElementToNewIndex, whose source is not part of this model)
      applied to the column's cards, the dragged card and the index of the
      first card with the reference card's id. */
  function Repositioned(cards: CardsMap, columnId: string, dragged: CardModel, reference: CardModel,
                        move: (seq<CardModel>, CardModel, int) -> seq<CardModel>): seq<CardModel>
  {
    if columnId in cards then move(cards[columnId], dragged, IndexOfId(cards[columnId], reference.id))
    else []
  }

  /** The `columns.forEach` loop of a rebuild: each column stored under its
      id, a later one replacing an earlier one. */
  method BuildColumnsMap(columns: seq<ColumnModel>) returns (m: ColumnsMap)
    ensures m == ColumnsById(columns)
  {
    m := map[];
    var i := 0;
    while i < |columns|
      invariant 0 <= i <= |columns|
      invariant m == ColumnsById(columns[..i])
    {
      assert columns[..i + 1][..i] == columns[..i];
      m := m[columns[i].id := columns[i]];
      i := i + 1;
    }
    assert columns[..|columns|] == columns;
  }

  /** The `cards.forEach` loop of a rebuild: a card of a known column is
      appended to that column's list, created on first use; any other card
      is skipped. */
  method PartitionCards(cards: seq<CardModel>, columns: ColumnsMap) returns (m: CardsMap)
    ensures m == Partition(cards, columns.Keys)
  {
    m := map[];
    var i := 0;
    while i < |cards|
      invariant 0 <= i <= |cards|
      invariant m == Partition(cards[..i], columns.Keys)
    {
      var card := cards[i];
      PartitionSnoc(cards[..i], card, columns.Keys);
      assert cards[..i + 1] == cards[..i] + [card];
      if card.columnId in columns {
        var list := if card.columnId in m then m[card.columnId] else [];
        m := m[card.columnId := list + [card]];
      }
      i := i + 1;
    }
    assert cards[..|cards|] == cards;
  }

  /** The `columnsMap.forEach` loop of a rebuild: every column lacking a list
      receives an empty one. */
  method AddEmptyLists(base: CardsMap, columns: ColumnsMap) returns (m: CardsMap)
    requires KeyedById(columns)
    ensures m == Complete(base, columns.Keys)
  {
    m := base;
    var pending := columns.Keys;
    while pending != {}
      invariant pending <= columns.Keys
      invariant m.Keys == base.Keys + (columns.Keys - pending)
      invariant forall k :: k in base ==> m[k] == base[k]
      invariant forall k :: k in columns.Keys - pending && k !in base ==> m[k] == []
      decreases pending
    {
      var k :| k in pending;
      var column := columns[k];
      if column.id !in m {
        m := m[column.id := []];
      }
      pending := pending - {k};
    }
  }

  /** The `forEach` that invalidates every card of a list: each card is
      marked invalidated and nothing else about it changes. */
  method InvalidateAll(cards: seq<CardModel>)
    modifies cards
    ensures forall c :: c in cards ==> c.State() == old(c.State()).(invalidated := true)
  {
    var i := 0;
    while i < |cards|
      invariant 0 <= i <= |cards|
      invariant forall c :: c in cards ==> c.State() == old(c.State()).(invalidated := c.invalidated)
      invariant forall j :: 0 <= j < i ==> cards[j].invalidated
    {
      cards[i].Invalidate();
      i := i + 1;
    }
  }

  class KanbanBoard {
    var columnsMap: ColumnsMap
    var columnCardsMap: CardsMap
    var startingX: int
    var startingY: int
    var movingMode: bool
    var draggedItem: CardModel?
    var srcColumnId: Option<string>
    var draggedItemWidth: int
    var draggedItemHeight: int
    var dragX: int
    var dragY: int
    /** The pending snap timer, by the direction it will request. */
    var snapTimeout: Option<SnapDirection>
    /** Whether an autoscroll cooldown is pending. */
    var scrollTimeout: bool
    /** Whether the host supplies the timer used for the autoscroll cooldown. */
    const timersProvided: bool
    /** The requests made so far. */
    var events: seq<BoardEvent>

    /** Columns are stored under their ids, every column has a card list, and
        a drag in progress has a card and a source column. */
    ghost predicate Valid()
      reads this
    {
      && KeyedById(columnsMap)
      && columnsMap.Keys <= columnCardsMap.Keys
      && (movingMode ==> draggedItem != null && srcColumnId.Some?)
    }

    constructor (timersProvided: bool)
      ensures Valid()
      ensures columnsMap == map[] && columnCardsMap == map[]
      ensures startingX == 0 && startingY == 0 && !movingMode && draggedItem == null
      ensures srcColumnId == None && draggedItemWidth == 0 && draggedItemHeight == 0
      ensures dragX == 0 && dragY == 0 && snapTimeout == None && !scrollTimeout
      ensures this.timersProvided == timersProvided && events == []
    {
      columnsMap := map[];
      columnCardsMap := map[];
      startingX, startingY := 0, 0;
      movingMode := false;
      draggedItem := null;
      srcColumnId := None;
      draggedItemWidth, draggedItemHeight := 0, 0;
      dragX, dragY := 0, 0;
      snapTimeout := None;
      scrollTimeout := false;
      this.timersProvided := timersProvided;
      events := [];
    }

    method ComponentDidMount(columns: Option<seq<ColumnModel>>, cards: Option<seq<CardModel>>)
      requires Valid()
      modifies this`columnsMap, this`columnCardsMap
      ensures Valid()
      ensures columnsMap == RebuiltColumns(old(columnsMap), columns)
      ensures columnCardsMap == old(RebuiltCards(RebuiltColumns(columnsMap, columns), columnCardsMap, cards))
    {
      RefreshBoard(columns, cards);
    }

    /** The board is rebuilt only when a new columns or cards array is passed
        in; an array changed in place goes unnoticed. */
    method ComponentDidUpdate(prevColumns: Option<ArrayRef<ColumnModel>>, prevCards: Option<ArrayRef<CardModel>>,
                              columns: Option<ArrayRef<ColumnModel>>, cards: Option<ArrayRef<CardModel>>)
      requires Valid()
      modifies this`columnsMap, this`columnCardsMap
      ensures Valid()
      ensures !PropChanged(prevColumns, columns) && !PropChanged(prevCards, cards) ==> unchanged(this)
      ensures PropChanged(prevColumns, columns) || PropChanged(prevCards, cards) ==>
        && columnsMap == RebuiltColumns(old(columnsMap), ItemsOf(columns))
        && columnCardsMap == old(RebuiltCards(RebuiltColumns(columnsMap, ItemsOf(columns)), columnCardsMap, ItemsOf(cards)))
    {
      if PropChanged(prevColumns, columns) || PropChanged(prevCards, cards) {
        RefreshBoard(ItemsOf(columns), ItemsOf(cards));
      }
    }

    /** Rebuilds both maps: supplied columns replace the columns map, supplied
        cards are partitioned by column in input order (cards of unknown
        columns are dropped), and every column ends up with a list. */
    method RefreshBoard(columns: Option<seq<ColumnModel>>, cards: Option<seq<CardModel>>)
      requires Valid()
      modifies this`columnsMap, this`columnCardsMap
      ensures Valid()
      ensures columnsMap == RebuiltColumns(old(columnsMap), columns)
      ensures columnCardsMap == old(RebuiltCards(RebuiltColumns(columnsMap, columns), columnCardsMap, cards))
    {
      var cols := columnsMap;
      if columns.Some? {
        cols := BuildColumnsMap(columns.value);
      }
      var cardsMap := columnCardsMap;
      if cards.Some? {
        cardsMap := PartitionCards(cards.value, cols);
      }
      cardsMap := AddEmptyLists(cardsMap, cols);
      columnsMap := cols;
      columnCardsMap := cardsMap;
    }

    /** Dispatches a gesture state change: activation starts a drag, ending or
        cancelling ends it, and every other state is ignored. */
    method OnHandlerStateChange(state: GestureState, x: int, y: int, column: ColumnModel?, item: CardModel?,
                                callback: DragEndCallback)
      requires Valid()
      modifies this`movingMode, this`draggedItem, this`srcColumnId, this`startingX, this`startingY
      modifies this`draggedItemWidth, this`draggedItemHeight, this`events
      modifies item, draggedItem
      ensures Valid()
      ensures state !in {Active, End, Cancelled} ==>
        && unchanged(this)
        && (item != null ==> unchanged(item))
        && (old(draggedItem) != null ==> unchanged(old(draggedItem)))
      ensures state == Active && old(draggedItem) != null && old(draggedItem) != item ==>
        unchanged(old(draggedItem))
      ensures state == Active && StartRefused(old(movingMode), column, old(Draggable(item))) ==>
        unchanged(this) && (item != null ==> unchanged(item))
      ensures state == Active && !StartRefused(old(movingMode), column, old(Draggable(item))) ==>
        && item != null && item.State() == old(item.State()).(hidden := true)
        && movingMode && draggedItem == item && srcColumnId == Some(item.columnId)
        && startingX == x && startingY == y
        && draggedItemWidth == item.rect.value.width && draggedItemHeight == item.rect.value.height
        && events == old(events)
      ensures (state == End || state == Cancelled) ==>
        && !movingMode
        && srcColumnId == old(srcColumnId)
        && draggedItemWidth == old(draggedItemWidth) && draggedItemHeight == old(draggedItemHeight)
        && (item != null && item != old(draggedItem) ==> unchanged(item))
      ensures (state == End || state == Cancelled) && old(draggedItem) == null ==>
        && draggedItem == null && events == old(events)
        && startingX == old(startingX) && startingY == old(startingY)
      ensures (state == End || state == Cancelled) && old(draggedItem) != null ==>
        var dragged := old(draggedItem);
        && dragged.State() == old(dragged.State()).(hidden := false)
        && startingX == 0 && startingY == 0
        && events == old(events) + DragEndEvents(columnsMap, columnCardsMap, srcColumnId, dragged, dragged.columnId, callback)
        && draggedItem == (if DragEndForgets(columnsMap, dragged.columnId, callback) then null else dragged)
    {
      if state == Active {
        OnDragStart(x, y, column, item);
      } else if state == End || state == Cancelled {
        OnDragEnd(callback);
      }
    }

    /** Starts a drag on the card under the pointer. Refused, changing
        nothing, while a drag is on, when no column or card is found, or when
        the card is unmeasured or names no column. Otherwise the card is
        hidden and becomes the dragged card, its column the source, the
        pointer the anchor, and its size is frozen. `column` is what the
        geometry index finds at x, `item` what it finds at y in that column. */
    method OnDragStart(x: int, y: int, column: ColumnModel?, item: CardModel?)
      requires Valid()
      modifies this`movingMode, this`draggedItem, this`srcColumnId, this`startingX, this`startingY
      modifies this`draggedItemWidth, this`draggedItemHeight
      modifies item
      ensures Valid()
      ensures StartRefused(old(movingMode), column, old(Draggable(item))) ==>
        unchanged(this) && (item != null ==> unchanged(item))
      ensures !StartRefused(old(movingMode), column, old(Draggable(item))) ==>
        && item != null && item.State() == old(item.State()).(hidden := true)
        && movingMode && draggedItem == item && srcColumnId == Some(item.columnId)
        && startingX == x && startingY == y
        && draggedItemWidth == item.rect.value.width && draggedItemHeight == item.rect.value.height
    {
      if movingMode {
        return;
      }
      if column == null {
        return;
      }
      if item == null || item.rect.None? || item.columnId == "" {
        return;
      }
      var width := item.rect.value.width;
      var height := item.rect.value.height;
      item.Hide();
      movingMode := true;
      draggedItem := item;
      srcColumnId := Some(item.columnId);
      startingX, startingY := x, y;
      draggedItemWidth, draggedItemHeight := width, height;
    }

    /** One autoscroll tick: refused while the cooldown is pending or no drag
        is on; otherwise the column's offset advances by 40 per unit of
        `anOffset`, the list is asked to scroll there, and a cooldown is armed
        when the host provides a timer. */
    method ScrollColumn(column: ColumnModel, anOffset: int)
      requires Valid()
      modifies this`scrollTimeout, this`events, column`scrollOffset
      ensures Valid()
      ensures old(scrollTimeout) || !movingMode ==>
        && scrollTimeout == old(scrollTimeout) && events == old(events)
        && column.scrollOffset == old(column.scrollOffset)
      ensures !old(scrollTimeout) && movingMode ==>
        && column.scrollOffset == old(column.scrollOffset) + ScrollStep * anOffset
        && events == old(events) + [ScrollToOffset(column.id, column.scrollOffset)]
        && scrollTimeout == timersProvided
      ensures movingMode ==>
        Cooldown(scrollTimeout, column.scrollOffset)
          == TickStep(Cooldown(old(scrollTimeout), old(column.scrollOffset)), anOffset, timersProvided)
    {
      if scrollTimeout || !movingMode {
        return;
      }
      var next := TickStep(Cooldown(scrollTimeout, column.scrollOffset), anOffset, timersProvided);
      column.SetScrollOffset(next.scrollOffset);
      events := events + [ScrollToOffset(column.id, next.scrollOffset)];
      scrollTimeout := next.pending;
    }

    /** The autoscroll cooldown elapses. */
    method FireScrollCooldown()
      requires Valid()
      modifies this`scrollTimeout
      ensures Valid()
      ensures !scrollTimeout
    {
      scrollTimeout := false;
    }

    /** The snap timer part of a pointer move at `dragX`. */
    method UpdateSnapTimer(snapMargin: int, deviceWidth: int)
      requires Valid()
      modifies this`snapTimeout
      ensures Valid()
      ensures snapTimeout == SnapSlotAfterMove(old(snapTimeout), dragX, snapMargin, deviceWidth)
    {
      var shouldSnapPrev := dragX < snapMargin;
      var shouldSnapNext := dragX > deviceWidth - snapMargin;
      if !shouldSnapPrev && !shouldSnapNext && snapTimeout.Some? {
        snapTimeout := None;
      }
      if snapTimeout.None? && shouldSnapPrev {
        snapTimeout := Some(Prev);
      } else if snapTimeout.None? && shouldSnapNext {
        snapTimeout := Some(Next);
      }
    }

    /** The pending snap timer elapses: it requests its snap and empties the
        slot. With no timer pending nothing happens. */
    method FireSnapTimer()
      requires Valid()
      modifies this`snapTimeout, this`events
      ensures Valid()
      ensures events == old(events) + SnapEvents(old(snapTimeout))
      ensures snapTimeout == None
    {
      if snapTimeout.Some? {
        events := events + [SnapRequested(snapTimeout.value)];
      }
      snapTimeout := None;
    }

    /** A pointer move during a drag: records the pointer, updates the snap
        timer, moves the dragged card to the column under the pointer when
        that differs from its own, and asks for an autoscroll tick when the
        probe says so. Ignored when no drag is on. `targetColumn` is what the
        geometry index finds at x, `probe` what the scroll-direction probe
        answers for that column and y. */
    method OnGestureEvent(x: int, y: int, deviceWidth: int, snapMargin: int,
                          targetColumn: ColumnModel?, probe: Option<ScrollProbe>)
      requires Valid()
      modifies this`dragX, this`dragY, this`snapTimeout, this`columnCardsMap, this`events, this`scrollTimeout
      modifies draggedItem, targetColumn
      ensures Valid()
      ensures !old(movingMode) || old(draggedItem) == null ==>
        unchanged(this) && (targetColumn != null ==> unchanged(targetColumn))
      ensures !old(movingMode) && old(draggedItem) != null ==> unchanged(old(draggedItem))
      ensures old(ListsMatchColumns(columnCardsMap)) ==> ListsMatchColumns(columnCardsMap)
      ensures old(movingMode) && old(draggedItem) != null ==>
        && dragX == x && dragY == y
        && snapTimeout == SnapSlotAfterMove(old(snapTimeout), x, snapMargin, deviceWidth)
      ensures old(movingMode) && old(draggedItem) != null && targetColumn == null ==>
        && columnCardsMap == old(columnCardsMap) && events == old(events)
        && scrollTimeout == old(scrollTimeout) && unchanged(old(draggedItem))
      ensures old(movingMode) && old(draggedItem) != null && targetColumn != null ==>
        var item := old(draggedItem);
        var moved := MoveCardOutcome(old(columnsMap), old(columnCardsMap), old(item.columnId), item, targetColumn);
        && (moved.None? ==> columnCardsMap == old(columnCardsMap) && unchanged(item))
        && (moved.Some? ==> columnCardsMap == moved.value
                            && item.State() == old(item.State()).(columnId := targetColumn.id, invalidated := true))
      ensures old(movingMode) && old(draggedItem) != null && targetColumn != null ==>
        if probe.Some? && probe.value.scrolling && !old(scrollTimeout) then
          && targetColumn.scrollOffset == old(targetColumn.scrollOffset) + ScrollStep * probe.value.offset
          && events == old(events) + [ScrollToOffset(targetColumn.id, targetColumn.scrollOffset)]
          && scrollTimeout == timersProvided
        else
          targetColumn.scrollOffset == old(targetColumn.scrollOffset) && events == old(events)
          && scrollTimeout == old(scrollTimeout)
      ensures targetColumn != null ==>
        targetColumn.title == old(targetColumn.title) && targetColumn.contentHeight == old(targetColumn.contentHeight)
    {
      if !movingMode || draggedItem == null {
        return;
      }
      var item := draggedItem;
      dragX, dragY := x, y;
      UpdateSnapTimer(snapMargin, deviceWidth);
      if targetColumn != null {
        MoveCard(item, targetColumn);
        if probe.Some? && probe.value.scrolling {
          ScrollColumn(targetColumn, probe.value.offset);
        }
      }
    }

    /** Ends the drag: leaves moving mode first, whatever follows. With a
        dragged card, shows it again, resets the anchor, and reports the drop
        to the host (see ReportDragEnd). */
    method OnDragEnd(callback: DragEndCallback)
      requires Valid()
      modifies this`movingMode, this`startingX, this`startingY, this`draggedItem, this`events, draggedItem
      ensures Valid()
      ensures !movingMode
      ensures old(draggedItem) == null ==>
        && draggedItem == null && events == old(events)
        && startingX == old(startingX) && startingY == old(startingY)
      ensures old(draggedItem) != null ==>
        var item := old(draggedItem);
        && item.State() == old(item.State()).(hidden := false)
        && startingX == 0 && startingY == 0
        && events == old(events) + DragEndEvents(columnsMap, columnCardsMap, srcColumnId, item, item.columnId, callback)
        && draggedItem == (if DragEndForgets(columnsMap, item.columnId, callback) then null else item)
    {
      movingMode := false;
      if draggedItem == null {
        return;
      }
      var item := draggedItem;
      item.Show();
      startingX, startingY := 0, 0;
      ReportDragEnd(item, callback);
    }

    /** Reports the drop to the host: the source column, the card's current
        column, the card and its index in that column's list, then forgets the
        card. A current column that is not on the board aborts the report
        (reading its id throws), and a throwing callback aborts forgetting the
        card; both errors are only logged. */
    method ReportDragEnd(item: CardModel, callback: DragEndCallback)
      requires Valid() && !movingMode && draggedItem == item
      modifies this`draggedItem, this`events
      ensures Valid()
      ensures events == old(events) + DragEndEvents(columnsMap, columnCardsMap, srcColumnId, item, item.columnId, callback)
      ensures draggedItem == (if DragEndForgets(columnsMap, item.columnId, callback) then null else item)
    {
      var destColumnId := item.columnId;
      var srcColumn: ColumnModel? := if srcColumnId.Some? && srcColumnId.value in columnsMap
                                     then columnsMap[srcColumnId.value] else null;
      if destColumnId !in columnsMap {
        return;
      }
      var destColumn := columnsMap[destColumnId];
      var targetCardIndex := if destColumn.id in columnCardsMap
                             then IndexOfCard(columnCardsMap[destColumn.id], item) else 0;
      if callback != NoCallback {
        events := events + [DragEnded(srcColumn, destColumn, item, targetCardIndex)];
        if callback == CallbackThrows {
          return;
        }
      }
      draggedItem := null;
    }

    /** Moves the dragged card to `targetColumn` when its own column is known
        and differs from the target. */
    method MoveCard(item: CardModel, targetColumn: ColumnModel)
      requires Valid()
      modifies this`columnCardsMap, item
      ensures Valid()
      ensures var moved := MoveCardOutcome(old(columnsMap), old(columnCardsMap), old(item.columnId), item, targetColumn);
        && (moved.None? ==> columnCardsMap == old(columnCardsMap) && unchanged(item))
        && (moved.Some? ==> columnCardsMap == moved.value
                            && item.State() == old(item.State()).(columnId := targetColumn.id, invalidated := true))
      ensures old(ListsMatchColumns(columnCardsMap)) ==> ListsMatchColumns(columnCardsMap)
    {
      if item.columnId !in columnsMap {
        return;
      }
      var fromColumn := columnsMap[item.columnId];
      if targetColumn.id != fromColumn.id {
        MoveToOtherColumn(item, fromColumn, targetColumn);
      }
    }

    /** Removes every card with the item's id from the source list, puts the
        item at the head of the destination list, repoints it to the
        destination and invalidates it. Missing lists make the source throw
        before anything changes. */
    method MoveToOtherColumn(item: CardModel, fromColumn: ColumnModel, toColumn: ColumnModel)
      requires Valid()
      modifies this`columnCardsMap, item
      ensures Valid()
      ensures var moved := MoveToOtherColumnLists(old(columnCardsMap), item, fromColumn.id, toColumn.id);
        && (moved.None? ==> columnCardsMap == old(columnCardsMap) && unchanged(item))
        && (moved.Some? ==> columnCardsMap == moved.value
                            && item.State() == old(item.State()).(columnId := toColumn.id, invalidated := true))
      ensures old(ListsMatchColumns(columnCardsMap)) && old(item.columnId) == fromColumn.id ==>
        ListsMatchColumns(columnCardsMap)
    {
      if fromColumn.id !in columnCardsMap || toColumn.id !in columnCardsMap {
        // `filter` or `unshift` on a missing list throws; the error is logged
        return;
      }
      ghost var m := columnCardsMap;
      ghost var matched := ListsMatchColumns(m) && item.columnId == fromColumn.id;
      if matched {
        MatchedCardInOwnListOnly(m, item);
      }
      RelinkCard(item, fromColumn.id, toColumn.id);
      if matched {
        forall k, c | k in m && c in m[k] && c != item
          ensures c.columnId == k
        {
          assert old(c.columnId) == k;
        }
        MoveKeepsListsMatching(m, item, fromColumn.id, toColumn.id);
      }
    }

    /** The effect of a move between two existing lists: the lists are
        rebuilt, then the card is repointed and invalidated. */
    method RelinkCard(item: CardModel, fromId: string, toId: string)
      requires Valid() && fromId in columnCardsMap && toId in columnCardsMap
      modifies this`columnCardsMap, item
      ensures Valid()
      ensures columnCardsMap == MoveToOtherColumnLists(old(columnCardsMap), item, fromId, toId).value
      ensures item.State() == old(item.State()).(columnId := toId, invalidated := true)
    {
      var itemsFromColumn := RemoveById(columnCardsMap[fromId], item.id);
      var itemsToColumn := [item] + columnCardsMap[toId];
      item.columnId := toId;
      item.Invalidate();
      columnCardsMap := columnCardsMap[fromId := itemsFromColumn][toId := itemsToColumn];
    }

    /** Replaces the column's list by `moveElementToNewIndex` of it, with the
        index of the first card carrying the reference card's id, and
        invalidates every card of the new list. A missing list throws out of
        the method (`ok` false) before anything changes. */
    method MoveCardToPosition(draggedItem: CardModel, itemAtPosition: CardModel, column: ColumnModel,
                              moveElementToNewIndex: (seq<CardModel>, CardModel, int) -> seq<CardModel>)
      returns (ok: bool)
      requires Valid()
      requires forall cs, d, i, k :: 0 <= k < |moveElementToNewIndex(cs, d, i)| ==>
        moveElementToNewIndex(cs, d, i)[k] in cs || moveElementToNewIndex(cs, d, i)[k] == d
      modifies this`columnCardsMap
      modifies Repositioned(columnCardsMap, column.id, draggedItem, itemAtPosition, moveElementToNewIndex)
      ensures Valid()
      ensures ok == (column.id in old(columnCardsMap))
      ensures !ok ==> columnCardsMap == old(columnCardsMap)
      ensures ok ==>
        var moved := Repositioned(old(columnCardsMap), column.id, draggedItem, itemAtPosition, moveElementToNewIndex);
        && columnCardsMap == old(columnCardsMap)[column.id := moved]
        && (forall c :: c in moved ==> old(allocated(c)))
        && forall c :: c in moved ==> c.State() == old(c.State()).(invalidated := true)
    {
      if column.id !in columnCardsMap {
        return false;
      }
      var cardsForCurrentColumn := columnCardsMap[column.id];
      var itemAtPositionIndex := IndexOfId(cardsForCurrentColumn, itemAtPosition.id);
      ghost var before := cardsForCurrentColumn;
      cardsForCurrentColumn := moveElementToNewIndex(cardsForCurrentColumn, draggedItem, itemAtPositionIndex);
      forall k | 0 <= k < |cardsForCurrentColumn|
        ensures allocated(cardsForCurrentColumn[k])
      {
        assert cardsForCurrentColumn[k] in before || cardsForCurrentColumn[k] == draggedItem;
      }
      InvalidateAll(cardsForCurrentColumn);
      columnCardsMap := columnCardsMap[column.id := cardsForCurrentColumn];
      ok := true;
    }
  }
}
