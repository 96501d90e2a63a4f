# trello-clone board core in Dafny

This project models the core of a small Trello-style board. It verifies in Dafny 4.11 and covers five parts.

- **The server's card and column endpoints.** There are five card endpoints: create, read a board's cards, reorder, update and delete. There are five column endpoints: create, reorder, rename, read and delete.
  - Each collection is a class holding a `map` from document id to record.
  - Every handler is a method that answers with the HTTP status code.
  - Position bookkeeping is shared. A new member goes one past the largest position in its container. A reorder writes index `i` to the `i`-th id. A read returns the container sorted by position.
- **The board's drag-and-drop hook.** It holds one array of card objects for the whole board.
  - The card objects are instances of a class, because drag-over writes `listId` in place and every holder of the object sees the change.
  - The dnd-kit `arrayMove` is modelled with JavaScript `splice` semantics.
  - The requests a drop sends are recorded as a sequence.
- **The older board screen (`BoardDetail.tsx`) and the board page's card handlers (`useCardOperations.tsx`).** Each keeps three things consistent: the card array, the card open in the dialog, and the request body it sends.
- **The card detail dialog.** It covers label toggling, checklist add, toggle and delete, the progress counts, and the debounced title save.
- **The focus timer.** This is the global store, the floating widget's watcher that runs when a session ends, its `mm:ss` clock, and the card panel's buttons, counts and `Hh MMm` format.

Values are datatypes in `entities.dfy`. Objects the source updates in place are classes. The specification functions beside them are what the methods are proved against.

Some things the code does that a reader might not expect, all of them modelled as written:
- A drop does not renumber the column the card left: the reorder request carries only the destination column's ids (`frontend/src/hooks/useBoardDragAndDrop.tsx:169-179`).
- Drag-over moves the card one slot further only when its top edge is below the hovered card's bottom edge; there is no midpoint rule (`frontend/src/hooks/useBoardDragAndDrop.tsx:55-64`).
- Hovering a card of the same column does nothing (`frontend/src/hooks/useBoardDragAndDrop.tsx:48`).
- The "reassign column" request `PUT /cards/{id}` with `{listId}` changes nothing on the server, because `listId` is not among the fields it accepts (`backend/controllers/cardController.js:48-65`).
- A drop always sends the reassign request, even when the column did not change (`frontend/src/hooks/useBoardDragAndDrop.tsx:163-167`).
- A reorder request skips ids that name no document (`backend/controllers/cardController.js:34-37`).

## Model

| member | source | states |
|---|---|---|
| Sortable.Target | frontend/src/hooks/useBoardDragAndDrop.tsx:69 | the landing index of `arrayMove` lies inside the array |
| Sortable.ArrayMove | frontend/src/hooks/useBoardDragAndDrop.tsx:106 | same length; the moved element sits at the normalised target; removing it gives the other elements in their old order |
| Sortable.ArrayMoveAt | frontend/src/hooks/useBoardDragAndDrop.tsx:143 | every index of the result holds the element of one computed original index |
| Sortable.ArrayMoveSame | frontend/src/hooks/useBoardDragAndDrop.tsx:141-144 | moving an element onto its own index changes nothing |
| Sortable.ArrayMovePermutes | frontend/src/hooks/useBoardDragAndDrop.tsx:106 | the result is a permutation of the input (multisets equal) |
| BoardDragAndDrop.IndexOf | frontend/src/hooks/useBoardDragAndDrop.tsx:50-51 | `findIndex`: the first card with the id, or -1 exactly when no card has it |
| BoardDragAndDrop.ListIndex | frontend/src/hooks/useBoardDragAndDrop.tsx:102-103 | `findIndex` over the columns: first match, or -1 when none |
| BoardDragAndDrop.ListIds | frontend/src/hooks/useBoardDragAndDrop.tsx:111 | the column ids in column order |
| BoardDragAndDrop.IdsInListMember | frontend/src/hooks/useBoardDragAndDrop.tsx:170-173 | an id is in the filtered id list iff some card of that column has it |
| BoardDragAndDrop.OverCard | frontend/src/hooks/useBoardDragAndDrop.tsx:46-72 | step A of drag-over on the array's view; it keeps the length, and `DragOverOtherColumn` and `HoverLanding` state where the card lands |
| BoardDragAndDrop.OverColumn | frontend/src/hooks/useBoardDragAndDrop.tsx:74-89 | step B of drag-over; the ids stay where they were, and `DragOverColumn` states the column write |
| BoardDragAndDrop.DragOverIgnores | frontend/src/hooks/useBoardDragAndDrop.tsx:34-44 | no target, a target equal to the dragged id, or a dragged element that is no card: the array is unchanged |
| BoardDragAndDrop.DragOverSameColumn | frontend/src/hooks/useBoardDragAndDrop.tsx:47-48 | hovering a card of the same column leaves the array unchanged |
| BoardDragAndDrop.DragOverOtherColumn | frontend/src/hooks/useBoardDragAndDrop.tsx:47-70 | over a card of another column, the dragged card takes that column and lands at the hovered index, +1 when below, clamped at the end; the other cards keep their order |
| BoardDragAndDrop.HoverLanding | frontend/src/hooks/useBoardDragAndDrop.tsx:53-69 | the dragged card's neighbours after the move, for each case of earlier or later in the array and above or below |
| BoardDragAndDrop.DragOverColumn | frontend/src/hooks/useBoardDragAndDrop.tsx:76-89 | over a column, the dragged card takes that column id; order and every other card stay |
| BoardDragAndDrop.DropListsMoves | frontend/src/hooks/useBoardDragAndDrop.tsx:98-111 | a column dropped on itself changes nothing; otherwise it lands on the hovered index (the end on a miss), and the ids sent are a permutation of the column ids |
| BoardDragAndDrop.DropCardsShape | frontend/src/hooks/useBoardDragAndDrop.tsx:129-155 | the dropped card sits at the hovered card's index, or its own, with `finalListId`; every other entry is `arrayMove`'s |
| BoardDragAndDrop.DropLists | frontend/src/hooks/useBoardDragAndDrop.tsx:98-107 | the columns after a column drop are a permutation of the old ones; `DropListsMoves` states where it lands |
| BoardDragAndDrop.DropCards | frontend/src/hooks/useBoardDragAndDrop.tsx:137-158 | `finalCards` has the board's length; `DropCardsShape` states each entry |
| BoardDragAndDrop.DropPayload | frontend/src/hooks/useBoardDragAndDrop.tsx:169-173 | the `orderedIds` of the card reorder request: the ids of `finalCards` in `finalListId`'s column, as `DropPayloadNamesCard` states |
| BoardDragAndDrop.DropPayloadNamesCard | frontend/src/hooks/useBoardDragAndDrop.tsx:169-173 | the reorder request lists exactly the destination column's cards in array order, the dropped card included |
| BoardDragAndDrop.DragHook.HandleDragStart | frontend/src/hooks/useBoardDragAndDrop.tsx:187-194 | the overlay shows the card object with the dragged id, or keeps its old card when no card has that id |
| BoardDragAndDrop.DragHook.HandleDragOver | frontend/src/hooks/useBoardDragAndDrop.tsx:32-90 | the array's view becomes `DragOverResult`, with the same objects; only objects with the dragged id are written |
| BoardDragAndDrop.DragHook.MoveIntoColumnOf | frontend/src/hooks/useBoardDragAndDrop.tsx:49-70 | in-place `listId` write, then `arrayMove` to the hover index |
| BoardDragAndDrop.DragHook.AssignColumn | frontend/src/hooks/useBoardDragAndDrop.tsx:79-88 | the dragged object's `listId` is set in place |
| BoardDragAndDrop.DragHook.HandleDragEnd | frontend/src/hooks/useBoardDragAndDrop.tsx:92-184 | the overlay clears, and no old object changes. It covers nothing without a target, the column reorder and its request, and the card drop with its reassign and reorder requests |
| BoardDragAndDrop.DragHook.DropColumn | frontend/src/hooks/useBoardDragAndDrop.tsx:98-123 | the columns become `DropLists`; one reorder request for a real move |
| BoardDragAndDrop.DragHook.DropCard | frontend/src/hooks/useBoardDragAndDrop.tsx:125-179 | the array becomes `DropCards`, and the two requests are sent in order |
| BoardDragAndDrop.DragHook.OverCardStep | frontend/src/hooks/useBoardDragAndDrop.tsx:46-72 | over a card of another column the array's view becomes `OverCard`, the same objects rearranged; only the dragged object is written |
| BoardDragAndDrop.OverCardKeepsCard | frontend/src/hooks/useBoardDragAndDrop.tsx:46-72 | after step A the dragged card is still on the board, so step B finds it |
| BoardDragAndDrop.DragHook.OverColumnStep | frontend/src/hooks/useBoardDragAndDrop.tsx:74-89 | over a column the view becomes `OverColumn`; only the dragged object is written |
| BoardDragAndDrop.FinalListId | frontend/src/hooks/useBoardDragAndDrop.tsx:129-134 | the sequential overwrites compute `DropListId`: the hovered column, else the hovered card's column, else the card's own |
| BoardDragAndDrop.Dropped | frontend/src/hooks/useBoardDragAndDrop.tsx:126-155 | `finalListId` is the hovered column, else the hovered card's column, else the card's own; the dropped card is a fresh copy |
| BoardDragAndDrop.MovedOnto | frontend/src/hooks/useBoardDragAndDrop.tsx:137-144 | `arrayMove` only when a card is hovered; the same objects, still distinct |
| BoardDragAndDrop.WithCopy | frontend/src/hooks/useBoardDragAndDrop.tsx:147-155 | one entry becomes a fresh object with the new `listId`; the others are untouched |
| Positions.NextPositionUnique | backend/controllers/cardController.js:8-9 | the "one past the last position, or 0" rule determines a unique position |
| Positions.NextPosition | backend/controllers/listsController.js:13-14 | the scan yields that position |
| Positions.LastIndex | backend/controllers/cardController.js:34-36 | the last index of an id in the request, or -1 exactly when it is absent |
| Positions.LastIndexSnoc | backend/controllers/cardController.js:34-36 | one more request entry changes only that id's last index |
| Positions.ReorderedNamed | backend/controllers/cardController.js:34-36 | with distinct ids, the i-th named member gets position i |
| Positions.ReorderedUnnamed | backend/controllers/cardController.js:34-36 | an unnamed member keeps its position |
| Positions.ReorderedIdempotent | backend/controllers/cardController.js:34-36 | repeating a reorder changes nothing |
| Positions.SortedSelection | backend/controllers/cardController.js:23 | exactly the selected ids, each once, by ascending position |
| Positions.InsertSorted | backend/controllers/cardController.js:23 | insertion keeps the sequence sorted and distinct and adds exactly one id |
| CardStore.FilterAllowed | backend/controllers/cardController.js:48-65 | the allow-list loop drops exactly `listId`, `boardId` and `recurrence` |
| CardStore.RestrictAllowed | backend/controllers/cardController.js:48-58 | restricting a body to the allow-list clears exactly `listId`, `boardId` and `recurrence` |
| CardStore.FilterKeepsAllowed | backend/controllers/cardController.js:48-65 | a field is defined after the filter iff it is on the allow-list and the body carried it |
| CardStore.RestrictOneMore | backend/controllers/cardController.js:61-65 | one loop step copies the field only when it is defined |
| CardStore.Updated | backend/controllers/cardController.js:60-70 | the `$set` of the filtered body, as `findByIdAndUpdate` applies it; its field-by-field meaning is `UpdateKeepsPlacement` |
| CardStore.UpdateKeepsPlacement | backend/controllers/cardController.js:48-70 | an update never changes id, column, board or recurrence; each of the nine allowed fields takes the body's value when sent and keeps the card's when not |
| CardStore.ReassignIgnored | backend/controllers/cardController.js:48-58 | a body with only `listId` leaves the card as it was |
| CardStore.ReorderStep | backend/controllers/cardController.js:34-36 | one position write extends the reorder invariant by one request entry |
| CardStore.NewCard | backend/controllers/cardController.js:10 | the document `new Card({title, listId, boardId, position})` stores, with the schema's defaults for every other field |
| CardStore.CardCollection.CreateCard | backend/controllers/cardController.js:3-18 | 400 without a truthy title, column and board; otherwise it stores the schema-default card at the next position of its column |
| CardStore.CardCollection.GetCardsByBoard | backend/controllers/cardController.js:20-28 | exactly the board's stored cards, each once, ascending position |
| CardStore.CardCollection.ReorderCards | backend/controllers/cardController.js:30-43 | each card's new position is its last index in the request, or stays; the key set is unchanged |
| CardStore.CardCollection.UpdateCard | backend/controllers/cardController.js:45-81 | 404 for an unknown id; otherwise the filtered body is applied to that card only |
| CardStore.CardCollection.DeleteCard | backend/controllers/cardController.js:83-97 | 404 for an unknown id; otherwise exactly that card is removed |
| ListStore.ReorderStep | backend/controllers/listsController.js:35-37 | one position write extends the reorder invariant |
| ListStore.ListCollection.CreateList | backend/controllers/listsController.js:4-27 | 404 for an unknown board; otherwise the column is stored at the next position of its board |
| ListStore.ListCollection.ReorderLists | backend/controllers/listsController.js:29-45 | each column's new position is its last index in the request, or stays |
| ListStore.ListCollection.UpdateTitleList | backend/controllers/listsController.js:47-65 | 404 for an unknown id; otherwise only that title changes |
| ListStore.ListCollection.GetLists | backend/controllers/listsController.js:67-77 | exactly the board's columns, each once, ascending position |
| ListStore.ListCollection.DeleteLists | backend/controllers/listsController.js:79-93 | 404 for an unknown id; otherwise exactly that column is removed |
| Decimal.DigitRoundTrip | frontend/src/components/FloatingTimer.tsx:190-191 | a digit character reads back as its digit |
| Decimal.NatToString | frontend/src/components/FloatingTimer.tsx:190-191 | `String(n)` is all digits, one digit iff n < 10, no leading zero |
| Decimal.ParseNatToString | frontend/src/components/FloatingTimer.tsx:190-191 | reading `String(n)` back gives n |
| Decimal.TwoDigits | frontend/src/components/FloatingTimer.tsx:190-191 | a number under 100 has at most two digits |
| Decimal.PadStart2 | frontend/src/components/FloatingTimer.tsx:190-191 | `padStart(2, "0")` has length max(2, n), the input as its suffix, and zeros before it |
| Decimal.ParseNatPadded | frontend/src/components/FloatingTimer.tsx:190-191 | padding keeps a digit string a digit string of the same value |
| Decimal.LeadingZero | frontend/src/components/FloatingTimer.tsx:190-191 | a leading zero does not change the value |
| Decimal.JsRem | frontend/src/components/FloatingTimer.tsx:169 | JavaScript `%`: Dafny's `%` for a non-negative dividend, non-positive for a negative one, below the divisor in magnitude |
| PomodoroStore.Ticked | frontend/src/store/usePomodoroStore.ts:29 | one second less, never below zero |
| PomodoroStore.TickedTimesFloor | frontend/src/store/usePomodoroStore.ts:29 | after n ticks the time is max(0, t - n) |
| PomodoroStore.Timer.constructor | frontend/src/store/usePomodoroStore.ts:21-24 | no card, 1500 s, stopped, focus |
| PomodoroStore.Timer.SetActiveCard | frontend/src/store/usePomodoroStore.ts:26 | only the card field changes |
| PomodoroStore.Timer.StartTimer | frontend/src/store/usePomodoroStore.ts:27 | only `isRunning` changes, to true |
| PomodoroStore.Timer.PauseTimer | frontend/src/store/usePomodoroStore.ts:28 | only `isRunning` changes, to false |
| PomodoroStore.Timer.Tick | frontend/src/store/usePomodoroStore.ts:29 | only the time changes, to `Ticked` of the old time |
| PomodoroStore.Timer.ResetTimer | frontend/src/store/usePomodoroStore.ts:30 | time and running flag set; card and phase stay |
| PomodoroStore.Timer.SetMode | frontend/src/store/usePomodoroStore.ts:31-32 | phase, time and running flag set; the card stays |
| FloatingTimer.FindCard | frontend/src/components/FloatingTimer.tsx:74 | a found card is on the board with that id; no card only if none has it |
| FloatingTimer.LongBreakEveryFourth | frontend/src/components/FloatingTimer.tsx:79 | a long break exactly after every fourth session, periodic with period 4 |
| FloatingTimer.SessionUpdate | frontend/src/components/FloatingTimer.tsx:95-111 | the update appends exactly the new session; target 1 and recurrence "none" replace falsy values |
| FloatingTimer.WatchCompletion | frontend/src/components/FloatingTimer.tsx:70-138 | acts only at 0 while running, and then always pauses. After focus it sends one session and enters the 15 or 5 min break; after a break it enters 25 min focus; without the card it only pauses |
| Decimal.PaddedNumber | frontend/src/components/FloatingTimer.tsx:190-191 | `String(n).padStart(2, "0")` is all digits, reads back to n, and has two characters below 100 |
| FloatingTimer.Clock | frontend/src/components/FloatingTimer.tsx:176-191 | `mm:ss` from `Math.floor(t / 60)` and truncating `t % 60`, each padded to two characters; what it shows is stated by `ClockReadsBack` |
| FloatingTimer.ClockReadsBack | frontend/src/components/FloatingTimer.tsx:168-191 | `mm:ss` of a non-negative time reads back to the time: two-digit seconds below 60, 60 * mm + ss = t |
| FloatingTimer.Render | frontend/src/components/FloatingTimer.tsx:166-191 | the widget shows nothing exactly for a falsy card id; otherwise it shows the clock, the running flag, and a title iff the card exists |
| FloatingTimer.PressPlayPause | frontend/src/components/FloatingTimer.tsx:199 | the running flag flips |
| FloatingTimer.PressClose | frontend/src/components/FloatingTimer.tsx:214-217 | stopped, with no card |
| PomodoroTracker.PhaseLength | frontend/src/components/PomodoroTracker.tsx:54-58 | 1500 s focus, 900 s long break, 300 s short break |
| PomodoroTracker.PhaseLengthsAgree | frontend/src/components/PomodoroTracker.tsx:54-58 | the panel's lengths are the ones the watcher enters each phase with |
| PomodoroTracker.PanelOf | frontend/src/components/PomodoroTracker.tsx:34-41 | busy iff another card holds the timer, active iff this one does, never both; an inactive card shows a stopped 1500 s focus |
| PomodoroTracker.DoneCount | frontend/src/components/PomodoroTracker.tsx:44-51 | the count never exceeds the sessions |
| PomodoroTracker.DoneCountNoRecurrence | frontend/src/components/PomodoroTracker.tsx:44-51 | without recurrence, the count is the sessions with a completion date |
| PomodoroTracker.DoneCountAppend | frontend/src/components/PomodoroTracker.tsx:44-51 | one more session adds one iff it passes the filter |
| PomodoroTracker.DecreasedTarget | frontend/src/components/PomodoroTracker.tsx:130 | `Math.max(1, target - 1)`: one less above 1, and exactly 1 at or below 1 |
| PomodoroTracker.IncreasedTarget | frontend/src/components/PomodoroTracker.tsx:139 | `Math.min(20, target + 1)`: one more below 20, and exactly 20 at or above 20 |
| PomodoroTracker.FormatHoursMinutes | frontend/src/components/PomodoroTracker.tsx:83-89 | `formatoHorasMinutos` with truncating `%` and `padStart`; what it shows is stated by `FormatReadsBack` |
| PomodoroTracker.TargetStaysInRange | frontend/src/components/PomodoroTracker.tsx:130-139 | both buttons keep a target in 1 .. 20 within 1 .. 20 |
| PomodoroTracker.FormatReadsBack | frontend/src/components/PomodoroTracker.tsx:83-89 | "0m" for 0, "Nm" under 60, else "Hh MMm" with two-digit MM < 60 and 60H + MM = N |
| PomodoroTracker.PressToggle | frontend/src/components/PomodoroTracker.tsx:91-99 | disabled while busy. On an inactive card it takes the timer and starts it; on the active card it pauses a running timer and starts a stopped one |
| PomodoroTracker.PressReset | frontend/src/components/PomodoroTracker.tsx:209-214 | nothing on an inactive card; otherwise stopped at the full length of the phase |
| CardPatches.Patch | frontend/src/hooks/useCardOperations.tsx:22-26 | same length; the cards with the id are patched and every other card is identical |
| CardPatches.ToggleOnlyTarget | frontend/src/hooks/useCardOperations.tsx:20-26 | only `completed` changes, and only on the matching cards |
| CardPatches.ToggleBack | frontend/src/hooks/useCardOperations.tsx:22-26 | toggling back restores the array |
| CardPatches.CardIndex | frontend/src/components/BoardDetail.tsx:139-140 | `findIndex`: first match, or -1 when none |
| CardPatches.ColumnCards | frontend/src/components/BoardDetail.tsx:168-170 | a column shows only cards of the array that have its `listId` |
| CardPatches.ColumnCardsComplete | frontend/src/components/BoardDetail.tsx:168-170 | every card of the column is shown |
| CardPatches.ColumnCardsAppend | frontend/src/components/BoardDetail.tsx:168-170 | the filter keeps array order |
| CardPatches.ColumnOfCard | frontend/src/components/BoardDetail.tsx:168-170 | a card shows in a column iff it is the column of its `listId` |
| LegacyBoardDetail.ArrayEdit | frontend/src/components/BoardDetail.tsx:93-102 | the array's edit changes only title and description, and takes a truthy new description |
| LegacyBoardDetail.OpenCardEdit | frontend/src/components/BoardDetail.tsx:104-110 | the open card's edit changes only title and description, and shows "" for a falsy one |
| LegacyBoardDetail.LegacyEditBody | frontend/src/components/BoardDetail.tsx:87-91 | the body carries the title, the description as given, and no other field |
| LegacyBoardDetail.ClearedDescriptionDiverges | frontend/src/components/BoardDetail.tsx:93-110 | with an empty or absent description the array keeps the old one while the open card shows ""; otherwise both agree |
| LegacyBoardDetail.LegacyServerDisagrees | frontend/src/components/BoardDetail.tsx:87-100 | for description "" the server stores "" while the array keeps the old one; otherwise server and array agree |
| LegacyBoardDetail.LegacyBoard.HandleToggleCompleted | frontend/src/components/BoardDetail.tsx:47-78 | the matching cards and the open card, if it matches, take the new status |
| LegacyBoardDetail.LegacyBoard.HandleUpdateCard | frontend/src/components/BoardDetail.tsx:81-117 | the body sent; nothing changes unless ok; then the array edit and the open-card edit |
| LegacyBoardDetail.LegacyBoard.HandleDeleteCard | frontend/src/components/BoardDetail.tsx:120-130 | the dialog closes iff it shows the deleted card |
| LegacyBoardDetail.LegacyBoard.HandleDragEnd | frontend/src/components/BoardDetail.tsx:132-145 | unchanged without a target or over itself; otherwise one `arrayMove` over the whole board array |
| LegacyBoardDetail.LegacyDropLands | frontend/src/components/BoardDetail.tsx:138-143 | the card lands on the hovered index (the end on a miss); the others keep their order; a permutation |
| CardOperations.EditBody | frontend/src/hooks/useCardOperations.tsx:70-84 | the wire body carries every edited field, and no deadline when it is `undefined` |
| CardOperations.ToggleBody | frontend/src/hooks/useCardOperations.tsx:38 | the toggle body carries the new status and no other field |
| CardOperations.ArrayPatch | frontend/src/hooks/useCardOperations.tsx:90-105 | the array's spread patch keeps id, column, board, status, position and recurrence of every card |
| CardOperations.OpenCardPatch | frontend/src/hooks/useCardOperations.tsx:108-123 | the open card's patch keeps the same fields and, because of the `checkList` key, the checklist too |
| CardOperations.OpenCardChecklistStale | frontend/src/hooks/useCardOperations.tsx:108-123 | the open card gets all of the edit but the checklist, so it differs from the array whenever the checklist changed |
| CardOperations.ServerAgreesWithArray | frontend/src/hooks/useCardOperations.tsx:70-105 | the server's stored card equals the array's, except that a cleared deadline stays on the server; neither changes recurrence |
| CardOperations.ServerAgreesOnToggle | frontend/src/hooks/useCardOperations.tsx:20-39 | the server stores the status the browser shows |
| CardOperations.SessionRecorded | frontend/src/hooks/useCardOperations.tsx:90-105 | saving the timer's update appends the session and changes only a zero target to 1 |
| CardOperations.EditTouchesOnlyTarget | frontend/src/hooks/useCardOperations.tsx:90-105 | other cards and the unedited fields stay |
| CardOperations.CardOps.Open | frontend/src/components/ListColumn.tsx:98 | clicking a card opens exactly that card in the dialog |
| CardOperations.CardOps.HandleToggleCompleted | frontend/src/hooks/useCardOperations.tsx:16-54 | the matching cards and the open card take the new status; the body carries only it |
| CardOperations.CardOps.HandleUpdateCard | frontend/src/hooks/useCardOperations.tsx:57-130 | the body sent; nothing changes unless ok; then the array patch and the open-card patch |
| CardOperations.CardOps.HandleUpdateTitle | frontend/src/hooks/useCardOperations.tsx:133-149 | the title changes only on ok, and no board stays none |
| CardOperations.CardOps.HandleDeleteCard | frontend/src/hooks/useCardOperations.tsx:180-190 | the dialog closes iff it shows the deleted card |
| CardDetail.WithoutColor | frontend/src/components/CardDetailModal.tsx:123 | only labels of the list, none of the colour |
| CardDetail.WithoutColorKeeps | frontend/src/components/CardDetailModal.tsx:123 | every other-coloured label stays; identity when the colour is absent |
| CardDetail.WithoutColorAppend | frontend/src/components/CardDetailModal.tsx:123 | the filter keeps order |
| CardDetail.ToggleLabel | frontend/src/components/CardDetailModal.tsx:120-127 | removes every label of the colour when there is one, else appends `{color, ""}`; its meaning is `ToggleLabelFlips` |
| CardDetail.ToggleLabelFlips | frontend/src/components/CardDetailModal.tsx:120-127 | presence of the colour flips; other labels stay; insertion appends `{color, ""}` |
| CardDetail.ToggleAbsentTwice | frontend/src/components/CardDetailModal.tsx:120-127 | toggling an absent colour twice restores the labels |
| CardDetail.NewItem | frontend/src/components/CardDetailModal.tsx:156-160 | the new item is not completed and has the given id and text |
| CardDetail.ToggledItems | frontend/src/components/CardDetailModal.tsx:179-184 | only items with the id flip `completed` |
| CardDetail.ToggleItemTwice | frontend/src/components/CardDetailModal.tsx:179-184 | toggling twice restores the checklist |
| CardDetail.WithoutItem | frontend/src/components/CardDetailModal.tsx:204 | only items of the checklist, none with the id |
| CardDetail.WithoutItemKeepsOrder | frontend/src/components/CardDetailModal.tsx:204 | deletion keeps order |
| CardDetail.WithoutItemKeepsOthers | frontend/src/components/CardDetailModal.tsx:204 | every other item stays; identity when the id is absent |
| CardDetail.CompletedCount | frontend/src/components/CardDetailModal.tsx:224-225 | at most the total; 0 iff none is completed, the total iff all are |
| CardDetail.Progress | frontend/src/components/CardDetailModal.tsx:224-227 | within 0 .. 100; 0 with no items or none completed; 100 when all are completed |
| CardDetail.TargetOrOne | frontend/src/components/CardDetailModal.tsx:91 | the target, or 1 in place of a zero target: never 0 |
| CardDetail.CardEditor.constructor | frontend/src/components/CardDetailModal.tsx:60-78 | the local copies start as the card's fields |
| CardDetail.CardEditor.CardChanged | frontend/src/components/CardDetailModal.tsx:103-118 | title, description and labels are copied again; the checklist is not |
| CardDetail.CardEditor.SetTitle | frontend/src/components/CardDetailModal.tsx:245 | the title input sets the local title and nothing else |
| CardDetail.CardEditor.SetDescription | frontend/src/components/CardDetailModal.tsx:307 | the description input sets the local description and nothing else |
| CardDetail.CardEditor.SetNewItemText | frontend/src/components/CardDetailModal.tsx:471 | the new-item input sets the pending text and nothing else |
| CardDetail.CardEditor.ChecklistCall | frontend/src/components/CardDetailModal.tsx:165-174 | the checklist handlers' call: the card's id and labels with the given checklist, and a target that is never 0 |
| CardDetail.CardEditor.ToggleLabelColor | frontend/src/components/CardDetailModal.tsx:120-127 | only the local labels change, nothing is sent |
| CardDetail.CardEditor.AddItem | frontend/src/components/CardDetailModal.tsx:153-175 | blank text changes nothing; otherwise one new item is appended, the text is cleared, and the checklist is sent with the card's own labels |
| CardDetail.CardEditor.ToggleItem | frontend/src/components/CardDetailModal.tsx:177-200 | the toggled checklist is kept and sent |
| CardDetail.CardEditor.DeleteItem | frontend/src/components/CardDetailModal.tsx:202-220 | the filtered checklist is kept and sent |
| CardDetail.CardEditor.TitleSettled | frontend/src/components/CardDetailModal.tsx:81-93 | no call when the title equals the card's; otherwise one call with the local fields |
| CardDetail.CardEditor.Save | frontend/src/components/CardDetailModal.tsx:129-151 | one call with every local field and the composed deadline |

## Left out

- HTTP transport, `fetch`, toasts and the 500 (exception) paths of every handler. Requests are recorded as values, and responses are a status code or an `ok` flag given as a parameter.
- MongoDB and Mongoose are replaced by an in-memory `map`. Left out with them are schema validation (a required or trimmed title, id casting), `runValidators`, and the ids the database assigns, which are a parameter.
- The parallel writes of the reorder endpoints are taken to land in request order. This only matters for a request that repeats an id.
- `backend/index.js` (older duplicate routes, server start-up) and the board endpoints are not part of this model.
- dnd-kit's sensors, collision detection and DOM geometry. The "below the hovered card" test is a boolean parameter.
- The timer worker, the interval wiring, `Notification`, `document.title`, `crypto.randomUUID`, `Date.now` and `new Date()`. The session id, the current time and the new item id are parameters.
- date-fns `isToday` / `isThisWeek`. They are function parameters of the session count.
- Composing the deadline from the date picker and the time field is left out. The composed deadline is a parameter of `Save`.
- The timer panel's progress bar width is left out (a floating-point ratio).
- Pure UI widgets, forms, pages, router and fetch hooks.
- CardDetail.Progress: `Math.round` of a floating-point ratio is modelled in exact arithmetic, as round half up. Floating-point error is not modelled.
- BoardDragAndDrop.DragHook.HandleDragEnd: a dragged column must be one of the board's columns. dnd-kit only reports rendered sortable elements as active. The source's `arrayMove` from index -1 is not modelled.
- LegacyBoardDetail.LegacyBoard.HandleDragEnd: the dragged card must be in the array. The drag context only holds that column's rendered cards.
- Decimal.JsRem: for a negative dividend the contract states only the sign and the bound, not the exact value.
- FloatingTimer.ClockReadsBack: the read-back is stated for non-negative times only. The store never produces a negative time.
- Positions.SortedSelection: the order of members with equal positions is left open. The database does not fix it either.
- Card objects appear as classes only in the drag hook, where the source writes them in place. Elsewhere the browser copies cards with spreads, and those copies are values.
