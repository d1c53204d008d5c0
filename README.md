# Kanban drag engine, modelled in Dafny

This project models the drag-and-drop engine of a React Native kanban board,
plus the small state machines of the models it drives:

- **Board state store.** Two maps: column id to column, and column id to the
  ordered list of that column's cards. A rebuild partitions the cards by
  `columnId` in input order and drops cards of unknown columns. Every column
  is given a list. A cross-column move takes the card out of its source list
  by id, puts it at the head of the destination list, repoints it and
  invalidates it.
- **Drag session controller.** A two-state machine on `movingMode`.
  - A drag start is refused in several cases. When it succeeds it hides the
    card and freezes its size.
  - Every pointer move re-homes the card to the column under the pointer.
  - A drag end shows the card again and reports the drop to the host.
- **Timers.** The edge-paging snap timer and the autoscroll cooldown. Each is
  a single slot that is armed, cancelled, or fired by an explicit event.
- **Card model.** The `hidden` and `invalidated` flags, and a
  rendered-and-visible flag with hysteresis driven by the measured rectangle.
- **Column component.** A scroll-direction flag that decides whether the
  offset where a scroll ends is stored in the column.

Modules:

- `Wrappers` (`wrappers.dfy`): `Option`.
- `CardModels` (`card_model.dfy`): `class CardModel`, plus the pure
  visibility rule it follows.
- `ColumnModels` (`column_model.dfy`): the part of a column the engine reads
  and writes.
- `BoardState` (`board_state.dfy`): the two maps as values, and the functions
  that say what a rebuild and a move leave in them.
- `Timers` (`timers.dfy`): the slot rules, and runs of them over event
  sequences.
- `KanbanBoard` (`kanban_board.dfy`): `class KanbanBoard`, whose fields the
  event handlers update in place.
- `ColumnComponent` (`column_component.dfy`): `class Column`.

Cards and columns are objects updated in place, so the board's methods carry
field-level `modifies` clauses. A `CardState` snapshot lets a contract say
which card fields an operation changes, and that all other fields are kept.

Collaborators whose code is not part of this model become method parameters.
These are the geometry lookups (`BoardTools.findColumn`, `findCardInColumn`,
`getScrollingDirection`), the host's drag-end callback (absent, returning or
throwing) and `moveElementToNewIndex`. Foreign calls are recorded in the
board's `events` log instead of being performed: the carousel's
`snapToPrev`/`snapToNext`, the list's `scrollToOffset` and the host's
`onDragEnd`.

Two timer behaviours of the code are easy to miss; the model keeps both:

- `onDragEnd` (src/components/kanban-board.component.tsx:335-371) clears
  neither pending timer, so a snap timer armed during the drag still fires
  after the drop.
- A pending snap timer fires wherever the pointer then is. Only the next
  pointer move outside both edge zones cancels it.

## Model

| member | source | states |
|---|---|---|
| CardModels.NextVisibility | src/models/card-model.ts:104-121 | the visibility flag switches on only from off and only for an all-non-zero rectangle, switches off only from on and only for an all-zero rectangle, and stays put for any mix of zero and non-zero fields |
| CardModels.VisibilityFollowsLastVerdict | src/models/card-model.ts:104-121 | after any sequence of measurements, the flag is the verdict of the last decisive (all-non-zero or all-zero) rectangle, or its starting value if none was decisive |
| CardModels.CardModel.constructor | src/models/card-model.ts:64-90 | a new card stores the given field values and starts unhidden, not locked, not rendered-and-visible, not invalidated, with no view and no rectangle |
| CardModels.CardModel.SetRef | src/models/card-model.ts:92-94 | attaching or detaching the view changes only that |
| CardModels.CardModel.ValidateAndMeasure | src/models/card-model.ts:96-102 | with no view the rectangle is cleared and the flags are untouched; with a view a measurement is requested and nothing changes yet |
| CardModels.CardModel.MeasureCallback | src/models/card-model.ts:102-124 | the rectangle becomes `{pageX, pageY, width, height}`, visibility follows the hysteresis rule, and `invalidated` is always cleared; nothing else changes |
| CardModels.CardModel.SetDimensions | src/models/card-model.ts:127-129 | overwrites exactly the rectangle |
| CardModels.CardModel.SetIsRenderedAndVisible | src/models/card-model.ts:131-133 | overwrites exactly the visibility flag |
| CardModels.CardModel.Hide | src/models/card-model.ts:135-137 | sets `hidden` and touches no other field |
| CardModels.CardModel.Show | src/models/card-model.ts:139-141 | clears `hidden` and touches no other field |
| CardModels.CardModel.Invalidate | src/models/card-model.ts:143-145 | sets `invalidated` and touches no other field |
| ColumnModels.ColumnModel.SetScrollOffset | src/components/kanban-board.component.tsx:196 | overwrites exactly the column's scroll offset |
| ColumnModels.ColumnModel.SetContentHeight | src/components/columns/column.component.tsx:100 | overwrites exactly the column's content height |
| BoardState.ColumnsById | src/components/kanban-board.component.tsx:140-145 | the rebuilt columns map stores every column under its own id |
| BoardState.ColumnsByIdMembers | src/components/kanban-board.component.tsx:140-145 | the rebuilt columns map holds every given column's id, and only given columns |
| BoardState.ColumnsByIdLastWins | src/components/kanban-board.component.tsx:140-145 | of several columns with one id, the last one in the input is kept |
| BoardState.RebuiltColumns | src/components/kanban-board.component.tsx:135-145 | without supplied columns the previous map is kept; either way the map stays keyed by id |
| BoardState.ColumnCards | src/components/kanban-board.component.tsx:147-159 | a column's list is never longer than the input |
| BoardState.ColumnCardsMembers | src/components/kanban-board.component.tsx:147-159 | a column's list holds exactly the input cards naming that column |
| BoardState.ColumnCardsKeepsOrder | src/components/kanban-board.component.tsx:147-159 | two cards of one column appear in its list in their input order |
| BoardState.ColumnCardsCount | src/components/kanban-board.component.tsx:147-159 | a card occurs in its own column's list as often as in the input, and in no other column's list |
| BoardState.PartitionSnoc | src/components/kanban-board.component.tsx:150-157 | partitioning one more card appends it to its own column's list, creating the list on first use, and skips it when the column is unknown |
| BoardState.Complete | src/components/kanban-board.component.tsx:161-165 | the second phase keeps every existing list and gives every column that lacks one an empty list |
| BoardState.RebuiltCards | src/components/kanban-board.component.tsx:132-173 | after a rebuild every column has a list; supplied cards yield exactly one list per column, each holding that column's cards; otherwise the previous lists are kept |
| BoardState.RebuildDropsOrphans | src/components/kanban-board.component.tsx:149-151 | a supplied card whose column is unknown appears in no list after a rebuild |
| BoardState.RebuildPlacesCard | src/components/kanban-board.component.tsx:147-165 | a supplied card of a known column appears in its own column's list as often as supplied, and in no other list |
| BoardState.RemoveById | src/components/kanban-board.component.tsx:406 | the filtered list holds exactly the cards whose id differs from the moved card's |
| BoardState.RemoveByIdCount | src/components/kanban-board.component.tsx:406 | filtering by id removes every copy of that id and keeps every other card's multiplicity |
| BoardState.MoveToOtherColumnLists | src/components/kanban-board.component.tsx:391-425 | a move succeeds iff both lists exist; it keeps the key set and every other list, puts the card at the head of the destination, and filters the source by id |
| BoardState.MoveConservesCards | src/components/kanban-board.component.tsx:403-412 | for a card held exactly once in its source list, with no other card of its id in that list, and absent from the destination, a move leaves it only at the head of the destination and keeps every card's combined count over both lists |
| BoardState.RebuildMatchesColumns | src/components/kanban-board.component.tsx:147-165 | a rebuild leaves every card only in the list of the column it names: always from supplied cards, and from the previous map when that map already did |
| BoardState.MatchedCardInOwnListOnly | src/components/kanban-board.component.tsx:403-409 | while every card sits in its own column's list, the card being moved is in no other list, so not in its destination |
| BoardState.MoveKeepsListsMatching | src/components/kanban-board.component.tsx:403-412 | once the card names its destination, the moved lists again hold every card only in its own column's list |
| BoardState.FindIndex | src/components/kanban-board.component.tsx:440-442 | `findIndex`/`indexOf`: the first position satisfying the test, or -1 exactly when none does |
| Timers.SnapSlotAfterMove | src/components/kanban-board.component.tsx:293-315 | a pointer outside both edge zones cancels the pending timer; with none pending, the left zone arms "prev" and otherwise the right zone arms "next"; a pending timer is otherwise kept |
| Timers.SnapsAtMostFires | src/components/kanban-board.component.tsx:305-315 | over any run, each firing issues at most one snap |
| Timers.NoSnapAwayFromEdges | src/components/kanban-board.component.tsx:293-315 | a pointer that never enters an edge zone never causes a snap |
| Timers.LeavingEdgeCancelsSnap | src/components/kanban-board.component.tsx:296-303 | a move out of the edge zones before the delay elapses means no snap from the later firings |
| Timers.LingeringAtLeftEdgeSnapsOnce | src/components/kanban-board.component.tsx:305-309 | staying in the left edge zone until the delay elapses yields exactly one "prev" snap and an empty slot |
| Timers.LingeringAtRightEdgeSnapsOnce | src/components/kanban-board.component.tsx:310-315 | staying in the right edge zone only (the left zone takes priority) until the delay elapses yields exactly one "next" snap and an empty slot |
| Timers.TicksBoundedByCooldown | src/components/kanban-board.component.tsx:191-204 | with a host timer, at most one autoscroll tick is applied per cooldown expiry, plus one |
| Timers.EveryTickAppliedWithoutTimers | src/components/kanban-board.component.tsx:191-204 | without a host timer no cooldown arms, so every autoscroll tick is applied |
| KanbanBoard.DragEndEvents | src/components/kanban-board.component.tsx:345-363 | a drag end notifies the host at most once: exactly when the card's current column is on the board and a callback is supplied; the report names that column and the card |
| KanbanBoard.DragEndReportsPosition | src/components/kanban-board.component.tsx:355-357 | the reported index is the card's first position in its column's list, or -1 when the list lacks the card |
| KanbanBoard.BuildColumnsMap | src/components/kanban-board.component.tsx:140-145 | the `columns.forEach` loop builds `ColumnsById` |
| KanbanBoard.PartitionCards | src/components/kanban-board.component.tsx:147-159 | the `cards.forEach` loop builds `Partition` over the known columns |
| KanbanBoard.AddEmptyLists | src/components/kanban-board.component.tsx:161-165 | the `columnsMap.forEach` loop builds `Complete` |
| KanbanBoard.KanbanBoard.constructor | src/components/kanban-board.component.tsx:100-118 | a new board has empty maps, no drag, zero anchor and size, no pending timer and an empty event log |
| KanbanBoard.KanbanBoard.ComponentDidMount | src/components/kanban-board.component.tsx:120-122 | mounting rebuilds the board from the props |
| KanbanBoard.KanbanBoard.ComponentDidUpdate | src/components/kanban-board.component.tsx:124-130 | the board is rebuilt exactly when a different columns or cards array is passed, and is otherwise untouched |
| KanbanBoard.KanbanBoard.RefreshBoard | src/components/kanban-board.component.tsx:132-173 | the maps become `RebuiltColumns` and `RebuiltCards` of the state at the call; the board stays keyed by id and every column keeps a list |
| KanbanBoard.KanbanBoard.OnHandlerStateChange | src/components/kanban-board.component.tsx:175-185 | activation has exactly the effect of `OnDragStart` (a refused start changes neither the board nor any card); end and cancel have exactly the effect of `OnDragEnd`, including the report and the forget condition; every other state changes neither the board, the card under the pointer nor the dragged card |
| KanbanBoard.KanbanBoard.OnDragStart | src/components/kanban-board.component.tsx:207-253 | refused, changing nothing and hiding no card, while moving, with no column or no card, or for a card without dimensions or column; otherwise hides the card, enters moving mode, records card, source column and anchor, and freezes the size |
| KanbanBoard.KanbanBoard.ScrollColumn | src/components/kanban-board.component.tsx:188-205 | does nothing while a cooldown is pending or no drag is on; otherwise advances the offset by 40 per unit, asks the list to scroll there, and arms a cooldown only when the host provides a timer; during a drag the cooldown slot and offset follow `TickStep`, the rule the cooldown traces run on |
| KanbanBoard.KanbanBoard.FireScrollCooldown | src/components/kanban-board.component.tsx:201-203 | the cooldown elapses and the slot empties |
| KanbanBoard.KanbanBoard.UpdateSnapTimer | src/components/kanban-board.component.tsx:293-315 | the snap slot becomes `SnapSlotAfterMove` of the old slot and the pointer |
| KanbanBoard.KanbanBoard.FireSnapTimer | src/components/kanban-board.component.tsx:306-314 | firing issues exactly the pending snap, if any, and empties the slot |
| KanbanBoard.KanbanBoard.OnGestureEvent | src/components/kanban-board.component.tsx:256-333 | ignored outside a drag, leaving the board, the target column and any lingering dragged card unchanged; otherwise records the pointer, updates the snap slot, moves the card to the column under the pointer when it differs, and applies an autoscroll tick when the probe asks and no cooldown is pending; every card stays in its own column's list if it was before |
| KanbanBoard.KanbanBoard.OnDragEnd | src/components/kanban-board.component.tsx:335-371 | leaves moving mode first in every case; with a dragged card, shows it, resets the anchor, reports `DragEndEvents`, and forgets the card only when the report ran to completion |
| KanbanBoard.KanbanBoard.ReportDragEnd | src/components/kanban-board.component.tsx:351-363 | an unknown current column aborts the report; a throwing callback aborts forgetting the card |
| KanbanBoard.KanbanBoard.MoveCard | src/components/kanban-board.component.tsx:373-389 | nothing changes when the card's column is unknown or is the target; otherwise the lists become `MoveToOtherColumnLists` and the card is repointed and invalidated; every card still sits in its own column's list afterwards if it did before |
| KanbanBoard.KanbanBoard.MoveToOtherColumn | src/components/kanban-board.component.tsx:391-425 | with both lists present, installs the moved lists, repoints the card to the destination and invalidates it; with a list missing, changes nothing; moving a card out of the column it names keeps every card in its own column's list |
| KanbanBoard.KanbanBoard.RelinkCard | src/components/kanban-board.component.tsx:403-412 | the filtered source and the destination with the card at its head are installed, and the card is repointed and invalidated with nothing else about it changed |
| KanbanBoard.KanbanBoard.MoveCardToPosition | src/components/kanban-board.component.tsx:427-464 | only the column's list is replaced, by `moveElementToNewIndex` at the first index of the reference card's id; every card of the new list is invalidated and nothing else about it changes; a missing list changes nothing |
| KanbanBoard.InvalidateAll | src/components/kanban-board.component.tsx:448-450 | every card of the list is marked invalidated and nothing else about it changes |
| ColumnComponent.ColumnShowsItsCards | src/components/columns/column.component.tsx:122-124 | after a rebuild a board column shows exactly the supplied cards naming it, in input order; with no cards supplied it shows its previous list, or nothing when it had none |
| ColumnComponent.ColumnShowsOnlyItsCards | src/components/columns/column.component.tsx:122-124 | while every card sits in its own column's list, a column shows only cards that name it |
| ColumnComponent.AnnouncedEndsAllCommit | src/components/columns/column.component.tsx:68-87 | when every scroll end follows a live report at the same offset, no end is dropped and the stored offset is where the last scroll ended |
| ColumnComponent.EndAgainstDirectionIsDropped | src/components/columns/column.component.tsx:75-87 | after a report past the stored offset, an end before it is dropped |
| ColumnComponent.Column.constructor | src/components/columns/column.component.tsx:47-48 | a new column component starts with `scrollingDown` false |
| ColumnComponent.Column.HandleScroll | src/components/columns/column.component.tsx:68-73 | `scrollingDown` becomes true exactly when the live offset is past the stored offset |
| ColumnComponent.Column.EndScrolling | src/components/columns/column.component.tsx:75-87 | the final offset is stored, and a re-measure requested, exactly when a downward scroll ends at or past the stored offset or an upward one at or before it; otherwise the offset is unchanged |
| ColumnComponent.Column.OnContentSizeChange | src/components/columns/column.component.tsx:98-101 | stores the content height and ignores the width |

## Left out

- Rendering and styling are pure presentation: `render`, `renderDragCard`, `renderCard`, `renderColumn`, the header, empty-column and dot components.
- The `Animated` pan values and the `RFValue` screen scaling are floating-point display arithmetic. The snap margin and `deviceWidth` are integer parameters, and coordinates are integers.
- `BoardTools.findColumn`, `findCardInColumn` and `getScrollingDirection` are not part of this model. Their answers are method parameters.
- `moveElementToNewIndex` is not part of this model. It is a function parameter whose result may only hold cards of the given list or the dragged card. No relocation semantics are claimed for it.
- `BoardTools.validateAndMeasureBoard` and `requestAnimationFrame` are deferred, best-effort re-measurement and are not part of this model. `EndScrolling` returns whether it would be requested.
- The native `measure` is asynchronous. Its request is `ValidateAndMeasure`, and its callback is `MeasureCallback`, which takes the measured numbers.
- `scrollToOffset`, `snapToPrev`/`snapToNext` and the host's `onDragEnd` are foreign calls. They are recorded as events in the board's log.
- `KanbanBoard.KanbanBoard.ScrollColumn`: logs the scroll request even when no list component is registered for the column, because `columnListViewsMap` is not modelled.
- `KanbanBoard.KanbanBoard.FireSnapTimer`: logs the snap even when the carousel is not mounted, because the carousel reference is not modelled.
- Wall-clock time is not modelled. The 500 ms snap delay and the 50 ms cooldown are slots with an explicit fire step. The order in which two timers fire is the caller's.
- React's `setState` batching is not modelled. Each handler's updates are committed as it runs, which matches every read the handlers make.
- Array aliasing is not modelled. `unshift` mutates the destination array that the previous board state shares. Lists are values here, so the previous state is never observed to change.
- `logError` is not modelled. A caught error means the rest of the handler is skipped, and that is what the model does.
- `src/models/column-model.ts` is not part of this model. `ColumnModel` holds only the id, title, scroll offset and content height the engine uses.
- `CardModels.CardModel.MeasureCallback`: the falsiness of `NaN` is not modelled, because coordinates are integers.
- `KanbanBoard.KanbanBoard.MoveCardToPosition`: requires the relocation helper to return only cards of its input list or the dragged card. The source calls it without such a guarantee, but nothing can be said about cards the helper invents.
- `KanbanBoard.KanbanBoard.RefreshBoard`: requires the board invariant (columns stored by id), which the constructor establishes and every handler keeps.
- `cardPressed`, `onScrollEnd`, `setBoardPositionY` and the other callbacks outside the drag engine are not modelled.
- `BoardState.MoveConservesCards`: assumes the moved card occurs once in its source list and shares its id with no other card there. Nothing makes supplied cards carry distinct ids, so no operation establishes this; the host must supply cards that do.
- `BoardState.ListsMatchColumns`: the invariant that every card sits in the list of the column it names is proved for a rebuild (`RebuildMatchesColumns`) and for `MoveCard`/`MoveToOtherColumn`. It is also kept by `OnGestureEvent`. It is not carried through `RefreshBoard` or `MoveCardToPosition`, whose relocation helper is foreign. Nor is it made part of `Valid`, because it reads every card.
- The insertion order of the columns map is not modelled. The source's `columnsMap` is a JavaScript `Map`, which iterates in the order ids were first set (src/components/kanban-board.component.tsx:141-144). That order is the carousel's column order (:583), so it decides which column `snapToPrev`/`snapToNext` reach, and the order in which `findColumn` scans. `ColumnsMap` is an unordered Dafny `map`, and nothing the model computes reads that order: snaps are logged as directions, and `findColumn`'s answer is a parameter.
