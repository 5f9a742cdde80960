/**
 * One item of the open list as the `Top5Item` component shows it. A drop
 * reads the two item positions back out of DOM element ids, and the edit
 * handlers decide which calls reach the store. The component's state hooks
 * are the fields of a class, and the store calls it issues are kept in order
 * in `calls`.
 */
module Top5ItemComponent {
  import opened Wrappers
  import opened NumberText
  import opened StoreItems
  import opened Transactions

  /** A call the component makes on the store, with its arguments. */
  datatype StoreCall =
    | AddMoveItemTransaction(start: string, end: string)
    | AddChangeItemTransaction(oldText: string, newText: string, index: nat)
    | ToggleListItemEdit(flag: bool)

  /** `s.indexOf(c)`: the first slot holding `c`, or -1 when there is none. */
  function IndexOf(s: string, c: char): (k: int)
    ensures -1 <= k < |s|
    ensures k == -1 <==> c !in s
    ensures 0 <= k ==> s[k] == c && c !in s[..k]
    decreases |s|
  {
    if s == [] then -1
    else if s[0] == c then 0
    else
      var k := IndexOf(s[1..], c);
      if k == -1 then -1
      else
        assert s[..k + 1] == [s[0]] + s[1..][..k];
        k + 1
  }

  /**
   * `s.substring(s.indexOf(c) + 1)`: the text after the first `c`, or all of
   * `s` when it holds no `c`.
   */
  function AfterFirst(s: string, c: char): (r: string)
    ensures c !in s ==> r == s
    ensures c in s ==> |r| < |s| && s[|s| - |r| - 1] == c && c !in s[..|s| - |r| - 1] && s[|s| - |r|..] == r
  {
    s[IndexOf(s, c) + 1..]
  }

  /** The first `c` of a text that starts with `p` is the first `c` of `p`, when `p` holds one. */
  lemma {:induction false} IndexOfPrefix(p: string, rest: string, c: char)
    requires c in p
    ensures IndexOf(p + rest, c) == IndexOf(p, c)
    decreases |p|
  {
    if p[0] != c {
      assert (p + rest)[1..] == p[1..] + rest;
      IndexOfPrefix(p[1..], rest, c);
    }
  }

  /** What follows the `-` of an id's five-character prefix `item-` or `edit-`. */
  lemma AfterIdPrefix(p: string, rest: string)
    requires p == "item-" || p == "edit-"
    ensures AfterFirst(p + rest, '-') == rest
  {
    IndexOfPrefix(p, rest, '-');
    assert IndexOf(p, '-') == 4;
    assert (p + rest)[5..] == rest;
  }

  /** The element id of the item at 0-based `index`: `'item-' + (index + 1)`. */
  function ElementId(index: nat): (id: string)
    ensures |id| > 5 && id[..5] == "item-" && IsDigits(id[5..])
  {
    "item-" + DecimalText(index + 1)
  }

  /**
   * The id of the pencil button (and of the edit box) of the item at 0-based
   * `index`: `"edit-item-" + index + 1` concatenates left to right, so the
   * index's decimal text is followed by the character `1`.
   */
  function EditButtonId(index: nat): (id: string)
    ensures |id| > 11 && id[..10] == "edit-item-" && id[|id| - 1] == '1'
  {
    "edit-item-" + DecimalText(index) + "1"
  }

  /**
   * The text after the first `-` of an item's id is the decimal text of its
   * 1-based position, and reads back as that number.
   */
  lemma ParseElementId(index: nat)
    ensures AfterFirst(ElementId(index), '-') == DecimalText(index + 1)
    ensures DigitsValue(AfterFirst(ElementId(index), '-')) == index + 1
  {
    AfterIdPrefix("item-", DecimalText(index + 1));
    DigitsValueOfDecimalText(index + 1);
  }

  /** `handleDrop`: the store calls a drop of the element `sourceId` onto `targetId` makes. */
  function DropCalls(targetId: string, sourceId: string): (r: seq<StoreCall>)
    ensures |r| <= 1
  {
    var target := AfterFirst(targetId, '-');
    var source := AfterFirst(sourceId, '-');
    if source != target then [AddMoveItemTransaction(source, target)] else []
  }

  /**
   * Dropping item `source` onto item `target` issues nothing when they are
   * the same item, and otherwise exactly one move, from the source's
   * position to the target's.
   */
  lemma DropBetweenItems(source: nat, target: nat)
    ensures DropCalls(ElementId(target), ElementId(source)) == [] <==> source == target
    ensures source != target ==>
      DropCalls(ElementId(target), ElementId(source)) ==
        [AddMoveItemTransaction(DecimalText(source + 1), DecimalText(target + 1))]
  {
    ParseElementId(source);
    ParseElementId(target);
    DecimalTextInjective(source + 1, target + 1);
  }

  /**
   * The transaction `store.addMoveItemTransaction` or
   * `store.addChangeItemTransaction` builds from a call; toggling the edit
   * flag builds none. A move's positions arrive as text and are read as
   * numbers when `moveItem` subtracts one from them: digits as the number
   * they spell, any other text as `NaN`.
   */
  function TransactionOf(c: StoreCall): (t: Option<Transaction>)
    ensures t.None? <==> c.ToggleListItemEdit?
    ensures c.AddMoveItemTransaction? ==>
      t.value.MoveItemTransaction? &&
      (t.value.start.Num? <==> IsDigits(c.start)) && (t.value.end.Num? <==> IsDigits(c.end))
    ensures c.AddChangeItemTransaction? ==>
      t.value.ChangeItemTransaction? && t.value.index == c.index &&
      t.value.oldText == c.oldText && t.value.newText == c.newText
  {
    match c
    case AddMoveItemTransaction(start, end) =>
      Some(MoveItemTransaction(ToNumber(start), ToNumber(end)))
    case AddChangeItemTransaction(oldText, newText, index) =>
      Some(ChangeItemTransaction(index, oldText, newText))
    case ToggleListItemEdit(_) => None
  }

  /** The move built from two positions' decimal texts has those positions. */
  lemma MoveOfPositions(start: nat, end: nat)
    ensures IsDigits(DecimalText(start)) && IsDigits(DecimalText(end))
    ensures TransactionOf(AddMoveItemTransaction(DecimalText(start), DecimalText(end))) ==
      Some(MoveItemTransaction(Num(start), Num(end)))
  {
    ToNumberCases(start, "", 0);
    ToNumberCases(end, "", 0);
  }

  /**
   * Dragging item `source` onto a different item `target` of a list adds a
   * move transaction that, done, moves the dragged item into the target's
   * slot.
   */
  lemma DropMovesItem(source: nat, target: nat, items: seq<string>)
    requires source < ListLength && target < ListLength && source != target
    requires |items| == ListLength
    ensures var calls := DropCalls(ElementId(target), ElementId(source));
      |calls| == 1 && calls[0].AddMoveItemTransaction? &&
      IsDigits(calls[0].start) && IsDigits(calls[0].end) &&
      TransactionOf(calls[0]) == Some(MoveItemTransaction(Num(source + 1), Num(target + 1)))
    ensures DoEffect(MoveItemTransaction(Num(source + 1), Num(target + 1)), items)[target] == items[source]
    ensures multiset(DoEffect(MoveItemTransaction(Num(source + 1), Num(target + 1)), items)) == multiset(items)
  {
    DropBetweenItems(source, target);
    MoveOfPositions(source + 1, target + 1);
    NumberedMove(items, source, target);
  }

  /**
   * A drag that did not start on an item carries no `"item"` data, so its
   * source text is empty. Dropped on an item, it still issues a move, whose
   * source position reads as 0: outside the list, which `moveItem` then
   * indexes at -1.
   */
  lemma ForeignDropIssuesMove()
    ensures DropCalls(ElementId(2), "") == [AddMoveItemTransaction("", "3")]
    ensures TransactionOf(AddMoveItemTransaction("", "3")) == Some(MoveItemTransaction(Num(0), Num(3)))
    ensures !Fits(MoveItemTransaction(Num(0), Num(3)))
  {
    ParseElementId(2);
    ToNumberCases(3, "", 0);
    assert DecimalText(3) == "3";
  }

  /**
   * The text after the first `-` of a pencil button's id is `item-`
   * followed by digits, which reads as `NaN`.
   */
  lemma ParseEditButtonId(index: nat)
    ensures AfterFirst(EditButtonId(index), '-') == "item-" + DecimalText(index) + "1"
    ensures ToNumber(AfterFirst(EditButtonId(index), '-')) == NaN
  {
    var d := DecimalText(index);
    var after := "item-" + d + "1";
    assert after[0] == 'i';
    assert ("edit-item-" + d + "1") == "edit-" + after by {
      assert "edit-item-" == "edit-" + "item-";
    }
    AfterIdPrefix("edit-", after);
    ToNumberCases(0, after, 0);
  }

  /**
   * Dropping an item on the pencil button of an item, which sits inside the
   * item, makes the button the drop target. Its id's text after the first
   * `-` is not a number, so the move issued has a `NaN` end: done, it
   * leaves the items as they are, yet adding it drops what could have been
   * redone.
   */
  lemma DropOnEditButton(e: Editor, source: nat, target: nat)
    requires Valid(e) && source < ListLength
    ensures var calls := DropCalls(EditButtonId(target), ElementId(source));
      |calls| == 1 && TransactionOf(calls[0]) == Some(MoveItemTransaction(Num(source + 1), NaN)) &&
      AddTransaction(e, TransactionOf(calls[0]).value).items == e.items &&
      !HasTransactionToRedo(AddTransaction(e, TransactionOf(calls[0]).value).tps)
  {
    ParseEditButtonId(target);
    ParseElementId(source);
    ToNumberCases(source + 1, "", 0);
    AddNaNMove(e, Num(source + 1), NaN);
  }

  /** Text that spells a position of a Top 5 list, from 1 to `ListLength`. */
  predicate IsPosition(s: string) {
    IsDigits(s) && 1 <= DigitsValue(s) <= ListLength
  }

  /**
   * `handleDrop` with a guard that issues a move only when both texts name
   * positions of the list, as dropping one item on another does.
   */
  function CheckedDropCalls(targetId: string, sourceId: string): (r: seq<StoreCall>)
    ensures |r| <= 1
    ensures |r| == 1 ==>
      r[0].AddMoveItemTransaction? &&
      var t := TransactionOf(r[0]).value;
      Fits(t) && t.start.Num? && t.end.Num?
  {
    var source := AfterFirst(sourceId, '-');
    if !IsPosition(source) then []
    else
      var target := AfterFirst(targetId, '-');
      if IsPosition(target) && source != target then [AddMoveItemTransaction(source, target)] else []
  }

  /** The guarded drop issues the same calls as `handleDrop` between the items of the list. */
  lemma CheckedDropAgrees(source: nat, target: nat)
    requires source < ListLength && target < ListLength
    ensures CheckedDropCalls(ElementId(target), ElementId(source)) == DropCalls(ElementId(target), ElementId(source))
  {
    ParseElementId(source);
    ParseElementId(target);
    assert IsPosition(AfterFirst(ElementId(source), '-'));
    assert IsPosition(AfterFirst(ElementId(target), '-'));
  }

  /** The guarded drop issues nothing for a drag that carries no item. */
  lemma CheckedDropRefusesForeign(targetId: string)
    ensures CheckedDropCalls(targetId, "") == []
  {
    EmptyIdNoPosition();
  }

  /** An empty id has empty text after its (missing) `-`, which names no position. */
  lemma EmptyIdNoPosition()
    ensures !IsPosition(AfterFirst("", '-'))
  {
    assert AfterFirst("", '-') == "";
  }

  /** The guarded drop issues nothing for a drop on a pencil button. */
  lemma CheckedDropRefusesButton(j: nat, sourceId: string)
    ensures CheckedDropCalls(EditButtonId(j), sourceId) == []
  {
    ParseEditButtonId(j);
  }

  /**
   * `handleEditKeyPress`: the store calls a key press makes while the item
   * holds `text`, was last confirmed as `oldText`, and has edit mode `active`.
   */
  function KeyPressCalls(code: string, oldText: string, text: string, index: nat, active: bool)
    : (r: seq<StoreCall>)
    ensures code != "Enter" ==> r == []
    ensures code == "Enter" ==> |r| > 0 && r[|r| - 1] == ToggleListItemEdit(!active)
    ensures code == "Enter" && oldText != text ==> r[0] == AddChangeItemTransaction(oldText, text, index)
    ensures |r| == (if code != "Enter" then 0 else if oldText == text then 1 else 2)
  {
    if code == "Enter" then
      (if oldText != text then [AddChangeItemTransaction(oldText, text, index)] else []) +
      [ToggleListItemEdit(!active)]
    else []
  }

  /**
   * When the store's slot still holds the text last confirmed there, the
   * change transaction Enter adds writes the new text into that slot, and
   * undoing it brings the old text back.
   */
  lemma EnterChangeIsReversible(items: seq<string>, index: nat, oldText: string, text: string)
    requires |items| == ListLength && index < ListLength && items[index] == oldText
    requires oldText != text
    ensures var t := TransactionOf(KeyPressCalls("Enter", oldText, text, index, false)[0]).value;
      Reversible(t, items) && DoEffect(t, items)[index] == text && UndoEffect(t, DoEffect(t, items)) == items
  {
    var t := ChangeItemTransaction(index, oldText, text);
    RenamedAt(items, index, text);
    UndoAfterDo(t, items);
  }

  /**
   * `oldText` is set only when the component is created and on Enter, so a
   * store undo does not reach it. Item 3 is edited from "X" to "Y", the
   * edit is undone, and the item is edited again to "Z": the second change
   * records "Y" as the old text while the slot holds "X", so undoing it
   * leaves "Y" where "X" was.
   */
  lemma StaleChangeAfterUndo()
    ensures var e := Editor(Tps([], 0), ["A", "B", "X", "D", "E"]);
      var first := TransactionOf(KeyPressCalls("Enter", "X", "Y", 2, true)[0]).value;
      var undone := Undo(AddTransaction(e, first));
      var second := TransactionOf(KeyPressCalls("Enter", "Y", "Z", 2, true)[0]).value;
      undone.items[2] == "X" && !Reversible(second, undone.items) &&
      Undo(AddTransaction(undone, second)).items == ["A", "B", "Y", "D", "E"]
  {
  }

  /**
   * `handleEditKeyPress` taking the old text from the list the store holds
   * rather than from the component's own record of it.
   */
  function KeyPressCallsFromStore(code: string, items: seq<string>, text: string, index: nat, active: bool)
    : (r: seq<StoreCall>)
    requires index < |items|
    ensures |r| == (if code != "Enter" then 0 else if items[index] == text then 1 else 2)
    ensures code == "Enter" && items[index] != text ==>
      r[0] == AddChangeItemTransaction(items[index], text, index)
  {
    KeyPressCalls(code, items[index], text, index, active)
  }

  /**
   * With the old text taken from the store, the change Enter adds can always
   * be undone: adding it and undoing restores the list, whatever was undone
   * before.
   */
  lemma ChangeFromStoreUndoes(e: Editor, text: string, index: nat, active: bool)
    requires Valid(e) && index < ListLength && e.items[index] != text
    ensures var t := TransactionOf(KeyPressCallsFromStore("Enter", e.items, text, index, active)[0]).value;
      Reversible(t, e.items) && AddTransaction(e, t).items[index] == text &&
      Undo(AddTransaction(e, t)).items == e.items
  {
    var t := ChangeItemTransaction(index, e.items[index], text);
    RenamedAt(e.items, index, text);
    UndoAfterDo(t, e.items);
  }

  /** The component's state hooks, and the store calls it has made so far. */
  class Top5Item {
    const index: nat
    var draggedTo: bool
    var editActive: bool
    var text: string
    var oldText: string
    var calls: seq<StoreCall>

    constructor (index: nat, text: string)
      ensures this.index == index && !draggedTo && !editActive
      ensures this.text == text && oldText == text && calls == []
    {
      this.index := index;
      draggedTo := false;
      editActive := false;
      this.text := text;
      oldText := text;
      calls := [];
    }

    /** `handleDragEnter`: marks the item as the one being dragged over. */
    method HandleDragEnter()
      modifies this
      ensures draggedTo && editActive == old(editActive)
      ensures text == old(text) && oldText == old(oldText) && calls == old(calls)
    {
      draggedTo := true;
    }

    /** `handleDragLeave`: unmarks it. */
    method HandleDragLeave()
      modifies this
      ensures !draggedTo && editActive == old(editActive)
      ensures text == old(text) && oldText == old(oldText) && calls == old(calls)
    {
      draggedTo := false;
    }

    /**
     * `handleDrop`: `targetId` is the id of the element dropped on and
     * `sourceId` the one the drag carried.
     */
    method HandleDrop(targetId: string, sourceId: string)
      modifies this
      ensures calls == old(calls) + DropCalls(targetId, sourceId)
      ensures !draggedTo && editActive == old(editActive)
      ensures text == old(text) && oldText == old(oldText)
    {
      var target := AfterFirst(targetId, '-');
      var source := AfterFirst(sourceId, '-');
      draggedTo := false;
      if source != target {
        calls := calls + [AddMoveItemTransaction(source, target)];
      }
    }

    /** `toggleEdit`: flips edit mode and hands the new mode to the store's flag. */
    method ToggleEdit()
      modifies this
      ensures editActive == !old(editActive)
      ensures calls == old(calls) + [ToggleListItemEdit(editActive)]
      ensures draggedTo == old(draggedTo) && text == old(text) && oldText == old(oldText)
    {
      var newActive := !editActive;
      calls := calls + [ToggleListItemEdit(newActive)];
      editActive := newActive;
    }

    /** `handleEditKeyPress`, for the key whose `event.code` is `code`. */
    method HandleEditKeyPress(code: string)
      modifies this
      ensures calls == old(calls) + KeyPressCalls(code, old(oldText), old(text), index, old(editActive))
      ensures code == "Enter" ==> oldText == text && editActive == !old(editActive)
      ensures code != "Enter" ==> editActive == old(editActive) && oldText == old(oldText)
      ensures text == old(text) && draggedTo == old(draggedTo)
    {
      if code == "Enter" {
        if oldText != text {
          calls := calls + [AddChangeItemTransaction(oldText, text, index)];
          oldText := text;
        }
        ToggleEdit();
      }
    }

    /** `handleUpdate`: keeps the text typed so far. */
    method HandleUpdate(value: string)
      modifies this
      ensures text == value
      ensures draggedTo == old(draggedTo) && editActive == old(editActive)
      ensures oldText == old(oldText) && calls == old(calls)
    {
      text := value;
    }
  }
}
