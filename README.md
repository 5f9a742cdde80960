# Top 5 Lists: store, undo/redo stack and item component

This project models the editing core of the Top 5 Lists web front end. A
user opens one of their ranked lists of five items. They can rename an item
or drag it to another rank, and undo and redo those edits.

- **`StoreItems`** (`store_items.dfy`) covers the two in-place list edits of
  the global store, `moveItem` and `changeListItemName`. The store's open
  list is an `array`. `moveItem` is the same pair of shifting loops as the
  source. Its result matches `Moved`, which is defined by exchanging
  neighbours one step at a time. Lemmas about `Moved` give it slot by slot,
  prove it a permutation, and prove that moving back undoes it. A position
  that is `NaN` fails both comparisons of `moveItem`, so the list is left as
  it is and still saved.
- **`StoreReducer`** (`store_reducer.dfy`) covers `storeReducer`, a pure
  function from the state record and an action to the next record. `Writes`
  lists which fields each action may set, and `Reduce` promises that every
  other field keeps its value.
- **`Transactions`** (`transactions.dfy`) models the undo/redo stack the store
  drives (`tps`) and its two transaction kinds. Doing and undoing a
  transaction is the store's own `moveItem` or `changeListItemName`, through
  `MoveTo` and `Renamed`. The lemmas prove:
  - the branch above the cursor is discarded on a new add;
  - `hasUndo` and `hasRedo` hold exactly when an undo or a redo changes something;
  - a run of additions followed by as many undos restores the items, when
    each change records the text its slot holds;
  - redoing them returns to the same stack and items, for any run;
  - `closeCurrentList` leaves nothing to undo or redo.
- **`Top5ItemComponent`** (`top5_item.dfy`) models the `Top5Item` component
  as a class over its state hooks. It records, in order, the store calls its
  handlers make. An item's id `'item-' + (index + 1)` is proved to parse
  back to the item's 1-based position. A drop onto the same item issues
  nothing. A drop onto another item issues exactly one move, which moves the
  dragged item into the target's slot. Drops that do not go from one item to
  another still issue a move (see Findings). Enter issues a change
  transaction only when the text changed.
- **`NumberText`** (`number_text.dfy`) models the two JavaScript
  conversions the ids rely on: a small non-negative integer joined to a
  string becomes its decimal text, and a string in arithmetic becomes its
  number or `NaN`.
- **`Wrappers`** (`wrappers.dfy`) holds `Option`. `None` stands for `null`
  and `undefined`.

The store imports `jsTPS`, `MoveItem_Transaction` and `ChangeItem_Transaction`
(`client/src/store/index.js:2-5`), and their code is not part of this model.
`Transactions` assumes the following of them:
- adding a transaction drops the undone transactions above the cursor,
  pushes the new one and does it;
- undo and redo do nothing at the ends of the history;
- clearing resets the stack without undoing anything;
- a move transaction does `moveItem(start, end)` and undoes with
  `moveItem(end, start)`;
- a change transaction does `changeListItemName(newText, index)` and undoes
  with `changeListItemName(oldText, index)`.

Under these assumptions, `Transactions.RedoBranchDiscarded` proves what
adding after an undo leaves: the history below the old cursor followed by the
new transaction, the cursor on top, and nothing to redo.

Some reducer details follow the code:
- `SET_LIST_NAME_EDIT_ACTIVE` rebuilds the record without
  `listIdBeingEdited`, so that field becomes `undefined` (`None`).
- `MARK_LIST_IN_EDIT_MODE` is declared but has no case in the reducer, so it
  returns the state unchanged.

## Model

| member | source | states |
|---|---|---|
| NumberText.Digit | client/src/components/Top5Item.js:102 | the character written for a digit below ten is a decimal digit whose distance from `'0'` is that digit |
| NumberText.DecimalText | client/src/components/Top5Item.js:102 | the text a non-negative number becomes when joined to a string is non-empty, all digits, without a leading zero unless the number is 0, and one digit long exactly for numbers below ten |
| NumberText.DigitsValueOfDecimalText | client/src/store/index.js:303-305 | reading the decimal text of `n` back as a number, as `start -= 1` does, gives `n` |
| NumberText.DecimalTextInjective | client/src/components/Top5Item.js:45 | two positions have equal id texts exactly when they are equal, in both directions |
| NumberText.ToNumber | client/src/store/index.js:303-304 | a position's text used in arithmetic reads as a number that is never negative, or as `NaN` |
| NumberText.ToNumberCases | client/src/store/index.js:303-304 | the decimal text of `n` reads as `n`, the empty text reads as 0, and a text holding any character that is not a digit reads as `NaN` |
| StoreItems.Moved | client/src/store/index.js:303-319 | moving an item keeps the list's length |
| StoreItems.MovedAt | client/src/store/index.js:306-319 | the moved item lands in the target slot; for `start < end` the slots from the source up to before the target take their right neighbour's item; for `start > end` the slots after the target up to the source take their left neighbour's; slots outside the two positions are untouched; `start == end` changes nothing |
| StoreItems.MovedFrom | client/src/store/index.js:306-319 | every slot of the moved list holds the item of one slot of the old list, the one `MoveSource` names, which lies inside the list |
| StoreItems.MovedIsPermutation | client/src/store/index.js:306-319 | moving an item keeps the same items with the same multiplicities |
| StoreItems.MoveUndo | client/src/store/index.js:303-319 | moving from the target back to the source restores the list exactly |
| StoreItems.MoveTo | client/src/store/index.js:303-319 | moving between two positions, either of which may be `NaN`, keeps the list's length |
| StoreItems.MoveToRearranges | client/src/store/index.js:303-319 | a move keeps the same items with the same multiplicities; with a `NaN` position it leaves the list exactly as it was, since both `start < end` and `start > end` are false; moving with the two positions swapped restores the list |
| StoreItems.Renamed | client/src/store/index.js:296 | writing a slot keeps the list's length |
| StoreItems.RenamedAt | client/src/store/index.js:296 | the written slot holds the new name and every other slot keeps its item |
| StoreItems.RenameUndo | client/src/store/index.js:296 | writing the slot's previous text back restores the list |
| StoreItems.Store.UpdateCurrentList | client/src/store/index.js:324-335 | one persist request is logged, carrying the current items |
| StoreItems.Store.ChangeListItemName | client/src/store/index.js:295-298 | the array holds the old items with the one slot renamed, then exactly one persist request with those items is logged |
| StoreItems.Store.MoveItem | client/src/store/index.js:303-323 | each position is a 1-based number or `NaN`; with a `NaN` the array is unchanged, otherwise it holds the old items moved from `start - 1` to `end - 1`; either way exactly one persist request with the new items is logged |
| StoreItems.Store.Rotate | client/src/store/index.js:306-319 | the two shifting loops leave the array holding the old items moved from `from` to `to` |
| StoreReducer.Reduce | client/src/store/index.js:48-151 | every field an action does not write keeps its value, for every action including unknown ones |
| StoreReducer.CloseCurrentListEffect | client/src/store/index.js:64-74 | closing drops the open list, clears both edit flags, the deletion mark and the edited id, and keeps the pairs and the counter |
| StoreReducer.SingleFieldActions | client/src/store/index.js:127-146 | `NO_LONGER_EDIT`, `LIST_ITEM_EDIT_CHANGE` and `MARK_LIST_FOR_DELETE` each overwrite exactly one field with their payload and copy all others |
| StoreReducer.UnhandledActionsKeepState | client/src/store/index.js:148-149 | `MARK_LIST_IN_EDIT_MODE` and any undeclared action type return the state unchanged |
| StoreReducer.FromInitial | client/src/store/index.js:36-44 | the store starts with no list open and neither kind of editing active, and from there the counter equals the number of lists created by any run of actions |
| StoreReducer.CounterCountsCreations | client/src/store/index.js:111-125 | over any run of actions, `newListCounter` grows by exactly the number of `CREATE_NEW_LIST` actions among them |
| Transactions.DoEffect | client/src/store/index.js:291-302 | doing a transaction that fits a five-item list keeps its length |
| Transactions.UndoEffect | client/src/store/index.js:291-302 | undoing a transaction that fits a five-item list keeps its length |
| Transactions.UndoAfterDo | client/src/store/index.js:291-302 | undoing right after doing restores the items, for a move always and for a change when its slot held the recorded old text |
| Transactions.DoEffectFrom | client/src/store/index.js:295-319 | slot by slot, a change writes its new text into its own slot, and every other slot of the result holds the item of one slot of the list it was done on |
| Transactions.NumberedMove | client/src/store/index.js:303-319 | the move between 1-based positions `from + 1` and `to + 1` carries the item at `from` into slot `to` and keeps the same items |
| Transactions.MoveExample | client/src/store/index.js:303-319 | moving position 1 to 4 turns `[A,B,C,D,E]` into `[B,C,D,A,E]`, and undoing it turns that back |
| Transactions.ChangeExample | client/src/store/index.js:295-298 | changing index 2 from `X` to `Y` and back on a five-item list |
| Transactions.AddTransaction | client/src/store/index.js:291-302 | after an add the stack stays valid, there is something to undo and nothing to redo |
| Transactions.AddTransactionHistory | client/src/store/index.js:291-302 | an add keeps the history below the cursor, drops the part above it, and puts the new transaction at the old cursor |
| Transactions.Undo | client/src/store/index.js:336-338 | undo keeps the history, steps the cursor back by one when there is something to undo, and otherwise changes nothing |
| Transactions.Redo | client/src/store/index.js:339-341 | redo keeps the history, steps the cursor forward by one when there is something to redo, and otherwise changes nothing |
| Transactions.ClearAllTransactions | client/src/store/index.js:235 | clearing keeps the items and leaves nothing to undo or redo |
| Transactions.UndoRedoAvailable | client/src/store/index.js:396-403 | `hasUndo` (`hasTransactionToUndo`) holds exactly when an undo would change the stack, and `hasRedo` (`hasTransactionToRedo`) exactly when a redo would |
| Transactions.AddNaNMove | client/src/store/index.js:299-319 | adding a move with a `NaN` position leaves the items as they were, and undoing it does too, yet the add drops everything that could have been redone |
| Transactions.RedoBranchDiscarded | client/src/store/index.js:291-302 | adding after an undo replaces the undone transaction: the history is the part below the old cursor plus the new transaction, and nothing is left to redo |
| Transactions.AddAll | client/src/store/index.js:291-302 | any run of adds keeps the stack valid |
| Transactions.AddAllHistory | client/src/store/index.js:291-302 | a run of adds keeps the history below the cursor and puts the run right after it, ending at the new cursor |
| Transactions.AddAllItems | client/src/store/index.js:291-302 | a run of adds does its transactions in order on top of the items, so the items are the history from `lo` up to the new cursor done on the same starting list |
| Transactions.AddAllRun | client/src/store/index.js:291-302 | when the history from `lo` up to the cursor is a run in which each change records its slot's text, adding a run with the same property from the current items extends it up to the new cursor |
| Transactions.UndoRangeRestores | client/src/store/index.js:336-338 | `n` undos over a run of `n` transactions done from items `x` return the cursor to the run's start and the items to `x` |
| Transactions.UndoRange | client/src/store/index.js:336-338 | undoing a stretch of the history, last transaction first, keeps the list's length |
| Transactions.UndoRunItems | client/src/store/index.js:336-338 | `n` undos keep the history, step the cursor back `n` slots, and leave the items with those slots' transactions undone last first |
| Transactions.TrackStep | client/src/store/index.js:339-341 | redoing one transaction keeps each slot equal to what the undo pass left in it at that point, or to what doing the same transactions from the start gave |
| Transactions.RedoTracks | client/src/store/index.js:336-341 | after any prefix of the redos, each slot holds what the undos had left there at that point, or what the transactions of that prefix done forward put there |
| Transactions.RedoRangeReturns | client/src/store/index.js:339-341 | redoing the `n` transactions just undone returns exactly to the stack and items they were undone from, whatever the undos left in the list |
| Transactions.UndoAllRestores | client/src/store/index.js:336-338 | adding `N` transactions and undoing `N` times restores the cursor and the items from before the additions |
| Transactions.RedoAllReturns | client/src/store/index.js:339-341 | adding any `N` transactions, undoing `N` times and redoing `N` times returns to the stack and items right after the additions |
| Transactions.CloseCurrentList | client/src/store/index.js:230-236 | closing drops the open list and both edit flags, keeps the pairs and the counter, and leaves nothing to undo or redo |
| Top5ItemComponent.IndexOf | client/src/components/Top5Item.js:39-41 | the result is -1 exactly when the character is absent, and otherwise the first slot holding it |
| Top5ItemComponent.AfterFirst | client/src/components/Top5Item.js:39-41 | the result is the whole text when it has no `-`, and otherwise the suffix that follows the first `-` |
| Top5ItemComponent.IndexOfPrefix | client/src/components/Top5Item.js:39-41 | the first `-` of a text that starts with a prefix holding a `-` is the prefix's first `-` |
| Top5ItemComponent.AfterIdPrefix | client/src/components/Top5Item.js:39-41 | the text after the first `-` of `item-` or `edit-` followed by any text is that text |
| Top5ItemComponent.ElementId | client/src/components/Top5Item.js:102 | an item's id is `item-` followed by at least one digit and nothing else |
| Top5ItemComponent.EditButtonId | client/src/components/Top5Item.js:130 | a pencil button's id starts with `edit-item-` and ends with the character `1` after the index's digits |
| Top5ItemComponent.ParseElementId | client/src/components/Top5Item.js:39-41 | the text after the first `-` of the id made at line 102 is the decimal text of `index + 1` and reads back as `index + 1` |
| Top5ItemComponent.ParseEditButtonId | client/src/components/Top5Item.js:37-39 | the text after the first `-` of a pencil button's id is `item-` followed by the index's digits and `1`, which reads as `NaN` |
| Top5ItemComponent.DropCalls | client/src/components/Top5Item.js:35-48 | a drop makes at most one store call |
| Top5ItemComponent.DropBetweenItems | client/src/components/Top5Item.js:45-47 | a drop between two items issues nothing exactly when they are the same item, and otherwise exactly one move with the arguments in the order (source, target) |
| Top5ItemComponent.TransactionOf | client/src/store/index.js:291-305 | only the two add calls build a transaction; a move's positions read as numbers exactly when their texts are digit strings, and as `NaN` otherwise; a change call's `(oldText, newText, index)` become the transaction's index, old and new text |
| Top5ItemComponent.MoveOfPositions | client/src/store/index.js:303-304 | the move call built from two positions' decimal texts becomes the move transaction between those positions |
| Top5ItemComponent.DropMovesItem | client/src/components/Top5Item.js:45-46 | dragging item `i` onto a different item `j` builds the move `(i + 1, j + 1)`, which puts item `i` into slot `j` and keeps the same items |
| Top5ItemComponent.ForeignDropIssuesMove | client/src/components/Top5Item.js:37-47 | a drag carrying no item data, dropped on item 3, issues the move `("", "3")`, whose source reads as position 0, outside the list |
| Top5ItemComponent.DropOnEditButton | client/src/components/Top5Item.js:37-47 | dropping an item on a pencil button issues one move whose end is `NaN`; adding it leaves the items as they were and nothing to redo |
| Top5ItemComponent.CheckedDropCalls | client/src/components/Top5Item.js:35-48 | the guarded drop makes at most one call, and any move it makes has two numeric positions inside the list |
| Top5ItemComponent.CheckedDropAgrees | client/src/components/Top5Item.js:45-47 | between two items of the list, the guarded drop issues the same calls as `handleDrop` |
| Top5ItemComponent.EmptyIdNoPosition | client/src/components/Top5Item.js:40-41 | the text after the first `-` of the empty id names no position |
| Top5ItemComponent.CheckedDropRefusesForeign | client/src/components/Top5Item.js:40-46 | the guarded drop issues nothing for a drag that carries no item, whatever the target |
| Top5ItemComponent.CheckedDropRefusesButton | client/src/components/Top5Item.js:37-46 | the guarded drop issues nothing for a drop on a pencil button, whatever the source |
| Top5ItemComponent.KeyPressCalls | client/src/components/Top5Item.js:67-75 | a key other than Enter makes no call; Enter ends with one toggle to the negated edit mode, preceded by a change transaction `(oldText, text, index)` exactly when the text changed |
| Top5ItemComponent.EnterChangeIsReversible | client/src/components/Top5Item.js:68-72 | when the store's slot holds the confirmed text, the change Enter issues writes the new text there and undoing it restores the list |
| Top5ItemComponent.StaleChangeAfterUndo | client/src/components/Top5Item.js:66-73 | after editing item 3 from `X` to `Y` and undoing it, editing it to `Z` records `Y` as the old text while the slot holds `X`, so that change is not reversible and undoing it leaves `Y` |
| Top5ItemComponent.KeyPressCallsFromStore | client/src/components/Top5Item.js:66-73 | Enter with the old text read from the store's slot issues a change `(slot text, text, index)` exactly when the text differs, then the toggle |
| Top5ItemComponent.ChangeFromStoreUndoes | client/src/components/Top5Item.js:66-73 | the change issued with the store's slot text is reversible: adding it writes the new text, and undoing it restores the list, whatever was undone before |
| Top5ItemComponent.Top5Item.constructor | client/src/components/Top5Item.js:11-14 | the item starts not dragged over, not editing, with both texts equal to the given text and no calls made |
| Top5ItemComponent.Top5Item.HandleDragEnter | client/src/components/Top5Item.js:25-28 | marks the item as dragged over and changes nothing else |
| Top5ItemComponent.Top5Item.HandleDragLeave | client/src/components/Top5Item.js:30-33 | unmarks it and changes nothing else |
| Top5ItemComponent.Top5Item.HandleDrop | client/src/components/Top5Item.js:35-48 | unmarks the item and adds exactly the calls of `DropCalls`; texts and edit mode are untouched |
| Top5ItemComponent.Top5Item.ToggleEdit | client/src/components/Top5Item.js:61-65 | edit mode becomes its negation and that same new value is the one handed to the store's flag |
| Top5ItemComponent.Top5Item.HandleEditKeyPress | client/src/components/Top5Item.js:67-75 | adds exactly the calls of `KeyPressCalls`; after Enter the confirmed text equals the text and edit mode has flipped; other keys change nothing |
| Top5ItemComponent.Top5Item.HandleUpdate | client/src/components/Top5Item.js:77-79 | the typed value becomes the text and nothing else changes |

## Left out

- The server API, routing and list persistence are asynchronous I/O. `updateCurrentList` is modelled as a log of the item contents sent to be saved. The reply's `SET_CURRENT_LIST` dispatch is not modelled.
- The `localeCompare` sort in `CREATE_NEW_LIST` is a `collate` parameter of `StoreReducer.Reduce`. The sorts done before `CHANGE_LIST_NAME` and `LOAD_ID_NAME_PAIRS` happen outside the reducer and are not modelled.
- The store's async operations (`createNewList`, `changeListName`, `loadIdNamePairs`, `setCurrentList`, `deleteMarkedList`) are left out as network I/O. Their reducer actions are all modelled in `StoreReducer.Reduce`.
- `jsTPS`, `MoveItem_Transaction` and `ChangeItem_Transaction` (imported at `client/src/store/index.js:2-5`) are not part of this model. `Transactions` models them by the assumptions listed above.
- A Top 5 list always holds five items (`Transactions.ListLength`). The stack's lemmas are stated for that length.
- StoreItems.Store.MoveItem: requires each position to be `NaN` or to lie inside the list. A numeric position outside it makes `moveItem` read or write outside the array. Position 0, which an empty drag source reads as, writes the array property `-1` and leaves `undefined` in a slot; a position past the end grows the array (moving 1 to 7 gives `[B, C, D, E, undefined, undefined, A]`). The model does not capture either result; the first Findings row shows how the component issues such a move, and `Transactions.Fits` keeps it off the modelled stack.
- StoreItems.Store.ChangeListItemName: requires the position to lie inside the list. The component passes its own index, which always does.
- NumberText.DecimalText: is JavaScript's number-to-text conversion only for integers below 2^53. JavaScript numbers are doubles: above 2^53 `index + 1` rounds, so two indices can share an id, and from 10^21 the text has an exponent. `DecimalTextInjective`, `ParseElementId` and `DropBetweenItems` hold for the model's unbounded integers; item ids only ever carry the positions 1 to 5.
- NumberText.ToNumber: only strings of decimal digits read as numbers. Other spellings that JavaScript's `Number` also accepts (blanks around the digits, a sign, a `0x` prefix, a fraction or an exponent) read as `NaN` here. No element id of the component produces them.
- Transactions.UndoAllRestores: proved only for runs in which each change records the text its slot holds when it is added (`Replayable`). The component does not ensure this: `oldText` is set only when the component is created and on Enter (`client/src/components/Top5Item.js:14` and `:71`), so after a store undo, or a move that brings another item into its slot, it can be stale (third Findings row). Without the condition, undoing a run need not restore the items.
- The store's items array and the open list inside the reducer's record are kept apart. The model does not capture that `moveItem` mutates the list object the record points to.
- React rendering, `useContext`, and the drag-and-drop plumbing (`handleDragStart`, `handleDragOver`, `preventDefault`) are left out. A drop's target and source ids are parameters of `HandleDrop`.
- `handleEditClick` and `handleOnBlur` only call `toggleEdit`, so they are covered by `Top5ItemComponent.Top5Item.ToggleEdit`.
- `draggedTo` starts as `0` in the source and is only ever tested for truth. The model starts it as `false`.
- The pencil button and the edit box share the id `"edit-item-" + index + 1` (`Top5ItemComponent.EditButtonId`). The model covers that id as a drop target, the one place the code parses it.
- The class `Top5ItemComponent.Top5Item` models the handlers as written. The corrected members of the Findings stand beside it and are not wired into the class.
- `EditToolbar` and `ListSelector` are left out. They only call the store.

## Findings

| source | as written | input that shows it | evidently intended | confidence | as-written member | corrected member |
|---|---|---|---|---|---|---|
| client/src/components/Top5Item.js:40-46 | The drag's `"item"` data is used unchecked. A drag that did not start on an item carries none, so the source text is empty and `"" !== "3"` lets the move through. | A drag of selected text dropped on item 3 calls `addMoveItemTransaction("", "3")`. `moveItem` then has `start = -1`, writes `undefined` into the third slot and saves `[B, C, undefined, D, E]`. | Issue a move only when both texts name positions of the list. | not executed | Top5ItemComponent.ForeignDropIssuesMove | Top5ItemComponent.CheckedDropCalls |
| client/src/components/Top5Item.js:37-46 | The target text comes from whatever element is under the pointer. Over the pencil button (line 130) it is `item-<index>1`, which reads as `NaN`, and the guard lets the move through. | Dropping item 1 on the pencil button of item 3 adds a move whose end is `NaN`. `moveItem` changes nothing, yet the add drops every undone edit that could have been redone. | Most likely a move onto item 3, which reading the id of the item's own element (`event.currentTarget`) would give, as `Top5ItemComponent.DropMovesItem` proves for item ids. The corrected member takes the safe course of issuing nothing, so the drop at least cannot cut the redo branch. | not executed | Top5ItemComponent.DropOnEditButton | Top5ItemComponent.CheckedDropCalls |
| client/src/components/Top5Item.js:14 | `oldText` is set only when the component is created and on Enter (line 71). A store undo of the item's change does not reset it, and neither does a move that brings another item into the component's slot. | Item 3 is edited from `X` to `Y`, the edit is undone, and the item is edited to `Z`. The change records `Y -> Z` while the slot holds `X`, so undoing it leaves `Y`. After a move the same happens with another item's text: undoing a later change writes the text that slot held before the move, duplicating an item. | A change records the text the list holds in that slot. | not executed; it also depends on the component surviving the undo, which the parent's `key` decides, and that parent is not part of this model | Top5ItemComponent.StaleChangeAfterUndo | Top5ItemComponent.KeyPressCallsFromStore |
