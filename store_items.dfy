/**
 * In-place editing of the items of the list currently open in the store:
 * `store.moveItem` (rotating a contiguous run of items) and
 * `store.changeListItemName` (overwriting one slot). Each edit ends by asking
 * for the list to be persisted; the request itself is asynchronous network
 * I/O and is modelled as an entry in a log of persisted snapshots.
 */
module StoreItems {
  import opened NumberText

  function Min(a: int, b: int): int { if a < b then a else b }
  function Max(a: int, b: int): int { if a < b then b else a }

  /** The items with the ones in slots `i` and `j` exchanged. */
  function Swapped(s: seq<string>, i: nat, j: nat): (r: seq<string>)
    requires i < |s| && j < |s|
    ensures |r| == |s|
  {
    s[i := s[j]][j := s[i]]
  }

  /** Slot by slot: the two items change places, and every other slot keeps its item. */
  lemma SwappedAt(s: seq<string>, i: nat, j: nat)
    requires i < |s| && j < |s|
    ensures Swapped(s, i, j)[i] == s[j] && Swapped(s, i, j)[j] == s[i]
    ensures forall k :: 0 <= k < |s| && k != i && k != j ==> Swapped(s, i, j)[k] == s[k]
  {
  }

  /** Exchanging two items rearranges the list: the same items, as many times each. */
  lemma SwappedIsPermutation(s: seq<string>, i: nat, j: nat)
    requires i < |s| && j < |s|
    ensures multiset(Swapped(s, i, j)) == multiset(s)
  {
    var t := s[i := s[j]];
    assert multiset(t) == multiset(s) - multiset{s[i]} + multiset{s[j]};
  }

  /**
   * The items after moving the one at 0-based slot `from` to slot `to`: it
   * changes places with its neighbour towards `to`, one slot at a time,
   * until it gets there.
   */
  function Moved(s: seq<string>, from: nat, to: nat): (r: seq<string>)
    requires from < |s| && to < |s|
    ensures |r| == |s|
    decreases if from < to then to - from else from - to
  {
    if from < to then Moved(Swapped(s, from, from + 1), from + 1, to)
    else if to < from then Moved(Swapped(s, from, from - 1), from - 1, to)
    else s
  }

  /**
   * Slot by slot: the moved item lands in `to`, the slots between shift by
   * one towards `from`, and the slots outside the two positions keep their items.
   */
  lemma {:induction false} MovedAt(s: seq<string>, from: nat, to: nat)
    requires from < |s| && to < |s|
    ensures Moved(s, from, to)[to] == s[from]
    ensures forall i :: from <= i < to ==> Moved(s, from, to)[i] == s[i + 1]
    ensures forall i :: to < i <= from ==> Moved(s, from, to)[i] == s[i - 1]
    ensures forall i :: 0 <= i < |s| && (i < Min(from, to) || Max(from, to) < i) ==> Moved(s, from, to)[i] == s[i]
    ensures from == to ==> Moved(s, from, to) == s
    decreases if from < to then to - from else from - to
  {
    if from < to {
      var t := Swapped(s, from, from + 1);
      SwappedAt(s, from, from + 1);
      MovedAt(t, from + 1, to);
      assert Moved(s, from, to) == Moved(t, from + 1, to);
    } else if to < from {
      var t := Swapped(s, from, from - 1);
      SwappedAt(s, from, from - 1);
      MovedAt(t, from - 1, to);
      assert Moved(s, from, to) == Moved(t, from - 1, to);
    }
  }

  /** Moving an item rearranges the list: the same items, as many times each. */
  lemma {:induction false} MovedIsPermutation(s: seq<string>, from: nat, to: nat)
    requires from < |s| && to < |s|
    ensures multiset(Moved(s, from, to)) == multiset(s)
    decreases if from < to then to - from else from - to
  {
    if from < to {
      SwappedIsPermutation(s, from, from + 1);
      MovedIsPermutation(Swapped(s, from, from + 1), from + 1, to);
    } else if to < from {
      SwappedIsPermutation(s, from, from - 1);
      MovedIsPermutation(Swapped(s, from, from - 1), from - 1, to);
    }
  }

  /** Moving back from `to` to `from` undoes moving from `from` to `to`. */
  lemma MoveUndo(s: seq<string>, from: nat, to: nat)
    requires from < |s| && to < |s|
    ensures Moved(Moved(s, from, to), to, from) == s
  {
    var m := Moved(s, from, to);
    var r := Moved(m, to, from);
    MovedAt(s, from, to);
    MovedAt(m, to, from);
    forall i | 0 <= i < |s|
      ensures r[i] == s[i]
    {
      if from < to && from < i <= to {
        assert r[i] == m[i - 1];
      } else if to < from && to <= i < from {
        assert r[i] == m[i + 1];
      }
    }
  }

  /**
   * The slot whose item lands in slot `p` when the item at `from` moves to
   * `to`.
   */
  function MoveSource(from: nat, to: nat, p: nat): nat {
    if p == to then from
    else if from <= p < to then p + 1
    else if to < p <= from then p - 1
    else p
  }

  /** A move rearranges slots without looking at the items: slot `p` takes the item of `MoveSource`. */
  lemma MovedFrom(s: seq<string>, from: nat, to: nat)
    requires from < |s| && to < |s|
    ensures forall p :: 0 <= p < |s| ==>
      MoveSource(from, to, p) < |s| && Moved(s, from, to)[p] == s[MoveSource(from, to, p)]
  {
    MovedAt(s, from, to);
  }

  /**
   * Whether `moveItem` can be given positions `start` and `end`, once read
   * as numbers, on a list of `n` items: both are 1-based slots of the list,
   * or one of them is `NaN`.
   */
  predicate MovePositions(start: JsNumber, end: JsNumber, n: int) {
    start.NaN? || end.NaN? || (1 <= start.value <= n && 1 <= end.value <= n)
  }

  /**
   * The items after `moveItem(start, end)`. When a position is `NaN`, so is
   * its value less one, neither `start < end` nor `start > end` holds, and
   * the items stay as they are.
   */
  function MoveTo(s: seq<string>, start: JsNumber, end: JsNumber): (r: seq<string>)
    requires MovePositions(start, end, |s|)
    ensures |r| == |s|
  {
    if start.NaN? || end.NaN? then s else Moved(s, start.value - 1, end.value - 1)
  }

  /**
   * `moveItem` only rearranges the items, leaves them alone when a position
   * is `NaN`, and is undone by the move with the positions exchanged.
   */
  lemma MoveToRearranges(s: seq<string>, start: JsNumber, end: JsNumber)
    requires MovePositions(start, end, |s|)
    ensures multiset(MoveTo(s, start, end)) == multiset(s)
    ensures start.NaN? || end.NaN? ==> MoveTo(s, start, end) == s
    ensures MoveTo(MoveTo(s, start, end), end, start) == s
  {
    if start.Num? && end.Num? {
      MovedIsPermutation(s, start.value - 1, end.value - 1);
      MoveUndo(s, start.value - 1, end.value - 1);
    }
  }

  /** The items after writing `name` into slot `position`. */
  function Renamed(s: seq<string>, position: nat, name: string): (r: seq<string>)
    requires position < |s|
    ensures |r| == |s|
  {
    s[position := name]
  }

  /** Slot by slot: `position` holds `name`, and every other slot keeps its item. */
  lemma RenamedAt(s: seq<string>, position: nat, name: string)
    requires position < |s|
    ensures Renamed(s, position, name)[position] == name
    ensures forall i :: 0 <= i < |s| && i != position ==> Renamed(s, position, name)[i] == s[i]
  {
  }

  /** Writing the old text back into a slot undoes a rename of that slot. */
  lemma RenameUndo(s: seq<string>, position: nat, name: string)
    requires position < |s|
    ensures Renamed(Renamed(s, position, name), position, s[position]) == s
  {
  }

  /**
   * The part of the store that holds the open list's items. `persisted`
   * records, in order, the item contents each `updateCurrentList` call was
   * asked to send to the server.
   */
  class Store {
    var items: array<string>
    var persisted: seq<seq<string>>

    constructor (initial: seq<string>)
      ensures fresh(items)
      ensures items[..] == initial && persisted == []
    {
      items := new string[|initial|](i requires 0 <= i < |initial| => initial[i]);
      persisted := [];
    }

    /** `store.updateCurrentList`: requests that the current items be saved. */
    method UpdateCurrentList()
      modifies this`persisted
      ensures persisted == old(persisted) + [items[..]]
    {
      persisted := persisted + [items[..]];
    }

    /** `store.changeListItemName`: overwrites one slot, then persists. */
    method ChangeListItemName(newName: string, position: int)
      requires 0 <= position < items.Length
      modifies this`persisted, items
      ensures items[..] == Renamed(old(items[..]), position, newName)
      ensures persisted == old(persisted) + [items[..]]
    {
      items[position] := newName;
      UpdateCurrentList();
    }

    /**
     * The two shifting loops of `store.moveItem`, on 0-based slots: the item
     * at `from` moves to `to`, and the items in between shift by one.
     */
    method Rotate(from: nat, to: nat)
      requires from < items.Length && to < items.Length
      modifies items
      ensures items[..] == Moved(old(items[..]), from, to)
    {
      ghost var was := items[..];
      if from < to {
        var temp := items[from];
        var i := from;
        while i < to
          modifies items
          invariant from <= i <= to
          invariant forall k :: from <= k < i ==> items[k] == was[k + 1]
          invariant forall k :: 0 <= k < items.Length && (k < from || i <= k) ==> items[k] == was[k]
        {
          items[i] := items[i + 1];
          i := i + 1;
        }
        items[to] := temp;
      } else if from > to {
        var temp := items[from];
        var i := from;
        while i > to
          modifies items
          invariant to <= i <= from
          invariant forall k :: i < k <= from ==> items[k] == was[k - 1]
          invariant forall k :: 0 <= k < items.Length && (k <= i || from < k) ==> items[k] == was[k]
        {
          items[i] := items[i - 1];
          i := i - 1;
        }
        items[to] := temp;
      }
      MovedAt(was, from, to);
      assert items[..] == Moved(was, from, to);
    }

    /**
     * `store.moveItem`: `start -= 1` and `end -= 1` read the positions as
     * numbers. When both are numbers, the item at 1-based position `start`
     * moves to 1-based position `end`, shifting the items in between; when
     * either is `NaN` no comparison holds and nothing moves. Then the list is
     * persisted.
     */
    method MoveItem(start: JsNumber, end: JsNumber)
      requires MovePositions(start, end, items.Length)
      modifies this`persisted, items
      ensures items[..] == MoveTo(old(items[..]), start, end)
      ensures persisted == old(persisted) + [items[..]]
    {
      if start.Num? && end.Num? {
        Rotate(start.value - 1, end.value - 1);
      }
      UpdateCurrentList();
    }
  }
}
