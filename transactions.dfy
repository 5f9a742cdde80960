/**
 * The undo/redo stack the store drives (`tps`, a `jsTPS`) and the two
 * transaction kinds it holds. A transaction records what it needs to redo
 * and undo an edit; doing or undoing it is a call to the store's own list
 * edit (`moveItem` or `changeListItemName`), modelled here by the functions
 * `Moved` and `Renamed` that those methods are proved to compute.
 */
module Transactions {
  import opened NumberText
  import opened StoreItems
  import opened StoreReducer

  datatype Transaction =
    | MoveItemTransaction(start: JsNumber, end: JsNumber)  // 1-based positions, or NaN
    | ChangeItemTransaction(index: int, oldText: string, newText: string)

  /** A Top 5 list always holds five items. */
  const ListLength := 5

  /** Whether the transaction's positions lie inside a Top 5 list. */
  predicate Fits(t: Transaction) {
    match t
    case MoveItemTransaction(start, end) => MovePositions(start, end, ListLength)
    case ChangeItemTransaction(index, _, _) => 0 <= index < ListLength
  }

  /** Whether every transaction of `ts` fits a Top 5 list. */
  predicate AllFit(ts: seq<Transaction>) {
    forall i :: 0 <= i < |ts| ==> Fits(ts[i])
  }

  /** The items after the transaction's `doTransaction`. */
  function DoEffect(t: Transaction, items: seq<string>): (r: seq<string>)
    requires Fits(t) && |items| == ListLength
    ensures |r| == |items|
  {
    match t
    case MoveItemTransaction(start, end) => MoveTo(items, start, end)
    case ChangeItemTransaction(index, _, newText) => Renamed(items, index, newText)
  }

  /** The items after the transaction's `undoTransaction`. */
  function UndoEffect(t: Transaction, items: seq<string>): (r: seq<string>)
    requires Fits(t) && |items| == ListLength
    ensures |r| == |items|
  {
    match t
    case MoveItemTransaction(start, end) => MoveTo(items, end, start)
    case ChangeItemTransaction(index, oldText, _) => Renamed(items, index, oldText)
  }

  /** A change transaction is built with the text its slot holds when it is done. */
  predicate Reversible(t: Transaction, items: seq<string>) {
    Fits(t) && |items| == ListLength && (t.ChangeItemTransaction? ==> items[t.index] == t.oldText)
  }

  /** Undoing a transaction right after doing it restores the items. */
  lemma UndoAfterDo(t: Transaction, items: seq<string>)
    requires Reversible(t, items)
    ensures UndoEffect(t, DoEffect(t, items)) == items
  {
    match t
    case MoveItemTransaction(start, end) => MoveToRearranges(items, start, end);
    case ChangeItemTransaction(index, oldText, newText) => RenameUndo(items, index, newText);
  }

  /** The slot whose item a transaction carries into slot `p`, when it does not write `p`. */
  function EffectSource(t: Transaction, p: nat): nat
    requires Fits(t)
  {
    match t
    case MoveItemTransaction(start, end) =>
      if start.NaN? || end.NaN? then p else MoveSource(start.value - 1, end.value - 1, p)
    case ChangeItemTransaction(_, _, _) => p
  }

  /**
   * Slot by slot, doing a transaction either writes a change's new text or
   * carries over the item of one slot of the list it is done on.
   */
  lemma DoEffectFrom(t: Transaction, items: seq<string>)
    requires Fits(t) && |items| == ListLength
    ensures forall p :: 0 <= p < ListLength ==>
      EffectSource(t, p) < ListLength &&
      DoEffect(t, items)[p] ==
        (if t.ChangeItemTransaction? && p == t.index then t.newText else items[EffectSource(t, p)])
  {
    match t
    case MoveItemTransaction(start, end) =>
      if start.Num? && end.Num? {
        MovedFrom(items, start.value - 1, end.value - 1);
      }
    case ChangeItemTransaction(index, _, newText) =>
      RenamedAt(items, index, newText);
  }

  /**
   * A move between the 1-based positions `from + 1` and `to + 1` carries the
   * item at `from` into slot `to` and only rearranges the items.
   */
  lemma NumberedMove(items: seq<string>, from: nat, to: nat)
    requires |items| == ListLength && from < ListLength && to < ListLength
    ensures DoEffect(MoveItemTransaction(Num(from + 1), Num(to + 1)), items)[to] == items[from]
    ensures multiset(DoEffect(MoveItemTransaction(Num(from + 1), Num(to + 1)), items)) == multiset(items)
  {
    MovedAt(items, from, to);
    MovedIsPermutation(items, from, to);
  }

  /** Moving the first of five items to the fourth slot, and back. */
  lemma MoveExample()
    ensures DoEffect(MoveItemTransaction(Num(1), Num(4)), ["A", "B", "C", "D", "E"]) == ["B", "C", "D", "A", "E"]
    ensures UndoEffect(MoveItemTransaction(Num(1), Num(4)), ["B", "C", "D", "A", "E"]) == ["A", "B", "C", "D", "E"]
  {
    var s := ["A", "B", "C", "D", "E"];
    MovedAt(s, 0, 3);
    assert Moved(s, 0, 3) == ["B", "C", "D", "A", "E"];
    MoveUndo(s, 0, 3);
  }

  /** Changing the third of five items, and back. */
  lemma ChangeExample()
    ensures DoEffect(ChangeItemTransaction(2, "X", "Y"), ["A", "B", "X", "D", "E"]) == ["A", "B", "Y", "D", "E"]
    ensures UndoEffect(ChangeItemTransaction(2, "X", "Y"), ["A", "B", "Y", "D", "E"]) == ["A", "B", "X", "D", "E"]
  {
  }

  /** The stack: the transactions in the order they were added, and the cursor. */
  datatype Tps = Tps(history: seq<Transaction>, cursor: nat)

  /** The stack together with the items of the open list it edits. */
  datatype Editor = Editor(tps: Tps, items: seq<string>)

  /** The cursor stays inside the history, and every transaction fits the list. */
  predicate Valid(e: Editor) {
    e.tps.cursor <= |e.tps.history| && |e.items| == ListLength && AllFit(e.tps.history)
  }

  function HasTransactionToUndo(p: Tps): bool { p.cursor > 0 }

  function HasTransactionToRedo(p: Tps): bool { p.cursor < |p.history| }

  /**
   * `addTransaction`: drops the undone transactions above the cursor, pushes
   * `t`, and does it.
   */
  function AddTransaction(e: Editor, t: Transaction): (r: Editor)
    requires Valid(e) && Fits(t)
    ensures Valid(r)
    ensures HasTransactionToUndo(r.tps) && !HasTransactionToRedo(r.tps)
  {
    var history := e.tps.history[..e.tps.cursor] + [t];
    Editor(Tps(history, e.tps.cursor + 1), DoEffect(t, e.items))
  }

  /**
   * Adding keeps the transactions below the cursor, drops the ones above it,
   * and puts `t` on top, where the cursor now stands.
   */
  lemma AddTransactionHistory(e: Editor, t: Transaction)
    requires Valid(e) && Fits(t)
    ensures AddTransaction(e, t).tps.history[..e.tps.cursor] == e.tps.history[..e.tps.cursor]
    ensures |AddTransaction(e, t).tps.history| == e.tps.cursor + 1
    ensures AddTransaction(e, t).tps.history[e.tps.cursor] == t
  {
  }

  /** `undoTransaction`: with nothing to undo it changes nothing. */
  function Undo(e: Editor): (r: Editor)
    requires Valid(e)
    ensures Valid(r) && r.tps.history == e.tps.history
    ensures HasTransactionToUndo(e.tps) ==> r.tps.cursor == e.tps.cursor - 1
    ensures !HasTransactionToUndo(e.tps) ==> r.tps.cursor == 0 && r.items == e.items
  {
    if e.tps.cursor == 0 then e
    else
      var c := e.tps.cursor - 1;
      Editor(Tps(e.tps.history, c), UndoEffect(e.tps.history[c], e.items))
  }

  /** `doTransaction` (redo): with nothing to redo it changes nothing. */
  function Redo(e: Editor): (r: Editor)
    requires Valid(e)
    ensures Valid(r) && r.tps.history == e.tps.history
    ensures HasTransactionToRedo(e.tps) ==> r.tps.cursor == e.tps.cursor + 1
    ensures !HasTransactionToRedo(e.tps) ==> r.tps.cursor == e.tps.cursor && r.items == e.items
  {
    if e.tps.cursor == |e.tps.history| then e
    else
      var c := e.tps.cursor;
      Editor(Tps(e.tps.history, c + 1), DoEffect(e.tps.history[c], e.items))
  }

  /** `clearAllTransactions`: forgets the whole history without undoing anything. */
  function ClearAllTransactions(e: Editor): (r: Editor)
    requires Valid(e)
    ensures Valid(r) && r.items == e.items
    ensures !HasTransactionToUndo(r.tps) && !HasTransactionToRedo(r.tps)
  {
    Editor(Tps([], 0), e.items)
  }

  /**
   * `hasTransactionToUndo` and `hasTransactionToRedo` hold exactly when an
   * undo or a redo would change the editor.
   */
  lemma UndoRedoAvailable(e: Editor)
    requires Valid(e)
    ensures HasTransactionToUndo(e.tps) <==> Undo(e) != e
    ensures HasTransactionToRedo(e.tps) <==> Redo(e) != e
  {
  }

  /**
   * A move with a `NaN` position leaves the items as they are, done or
   * undone, yet adding it still drops the transactions that could have been
   * redone.
   */
  lemma AddNaNMove(e: Editor, start: JsNumber, end: JsNumber)
    requires Valid(e) && (start.NaN? || end.NaN?)
    ensures AddTransaction(e, MoveItemTransaction(start, end)).items == e.items
    ensures Undo(AddTransaction(e, MoveItemTransaction(start, end))).items == e.items
    ensures |AddTransaction(e, MoveItemTransaction(start, end)).tps.history| == e.tps.cursor + 1
    ensures !HasTransactionToRedo(AddTransaction(e, MoveItemTransaction(start, end)).tps)
  {
  }

  /** Adding after an undo discards the undone transaction: nothing is left to redo. */
  lemma RedoBranchDiscarded(e: Editor, t1: Transaction, t2: Transaction)
    requires Valid(e) && Fits(t1) && Fits(t2)
    ensures var r := AddTransaction(Undo(AddTransaction(e, t1)), t2);
      r.tps == Tps(e.tps.history[..e.tps.cursor] + [t2], e.tps.cursor + 1) &&
      !HasTransactionToRedo(r.tps)
  {
    var a := AddTransaction(e, t1);
    assert a.tps.history == e.tps.history[..e.tps.cursor] + [t1];
    assert Undo(a).tps.history[..e.tps.cursor] == e.tps.history[..e.tps.cursor];
  }

  /** Doing the transactions `h[lo]`, ..., `h[hi - 1]` in that order, starting from `items`. */
  function ApplyRange(h: seq<Transaction>, lo: nat, hi: nat, items: seq<string>): (r: seq<string>)
    requires lo <= hi <= |h| && AllFit(h) && |items| == ListLength
    ensures |r| == ListLength
    decreases hi - lo
  {
    if lo == hi then items else DoEffect(h[hi - 1], ApplyRange(h, lo, hi - 1, items))
  }

  /**
   * Each of `h[lo]`, ..., `h[hi - 1]`, done in order from `items`, is
   * reversible when its turn comes.
   */
  predicate ReplayableRange(h: seq<Transaction>, lo: nat, hi: nat, items: seq<string>)
    requires lo <= hi <= |h| && AllFit(h) && |items| == ListLength
    decreases hi - lo
  {
    lo == hi ||
    (ReplayableRange(h, lo, hi - 1, items) && Reversible(h[hi - 1], ApplyRange(h, lo, hi - 1, items)))
  }

  /** Two histories that agree on the slots `lo` to `hi - 1` do and replay those slots alike. */
  lemma {:induction false} RangeFrame(h: seq<Transaction>, g: seq<Transaction>, lo: nat, hi: nat,
                                      items: seq<string>)
    requires lo <= hi <= |h| && hi <= |g| && AllFit(h) && AllFit(g) && |items| == ListLength
    requires forall p :: lo <= p < hi ==> h[p] == g[p]
    ensures ApplyRange(h, lo, hi, items) == ApplyRange(g, lo, hi, items)
    ensures ReplayableRange(h, lo, hi, items) == ReplayableRange(g, lo, hi, items)
    decreases hi - lo
  {
    if lo < hi {
      RangeFrame(h, g, lo, hi - 1, items);
      assert h[hi - 1] == g[hi - 1];
    }
  }

  /** Adds the transactions of `ts` one after another. */
  function AddAll(e: Editor, ts: seq<Transaction>): (r: Editor)
    requires Valid(e) && AllFit(ts)
    ensures Valid(r)
    decreases |ts|
  {
    if ts == [] then e else AddAll(AddTransaction(e, ts[0]), ts[1..])
  }

  /** Calls `Undo` `n` times. */
  function UndoN(e: Editor, n: nat): (r: Editor)
    requires Valid(e)
    ensures Valid(r)
    decreases n
  {
    if n == 0 then e else Undo(UndoN(e, n - 1))
  }

  /** Calls `Redo` `n` times. */
  function RedoN(e: Editor, n: nat): (r: Editor)
    requires Valid(e)
    ensures Valid(r)
    decreases n
  {
    if n == 0 then e else RedoN(Redo(e), n - 1)
  }

  /**
   * Adding `ts` keeps the history below the cursor and puts `ts` right after
   * it, with the cursor at its end.
   */
  lemma {:induction false} AddAllHistory(e: Editor, ts: seq<Transaction>)
    requires Valid(e) && AllFit(ts)
    ensures AddAll(e, ts).tps.cursor == e.tps.cursor + |ts|
    ensures AddAll(e, ts).tps.history[..e.tps.cursor] == e.tps.history[..e.tps.cursor]
    ensures forall q :: 0 <= q < |ts| ==> AddAll(e, ts).tps.history[e.tps.cursor + q] == ts[q]
    decreases |ts|
  {
    if ts != [] {
      var c := e.tps.cursor;
      var x := AddTransaction(e, ts[0]);
      AddAllHistory(x, ts[1..]);
      var h := AddAll(x, ts[1..]).tps.history;
      assert h[..c + 1] == e.tps.history[..c] + [ts[0]];
      assert h[c] == h[..c + 1][c];
      assert h[..c] == h[..c + 1][..c];
      forall q | 0 <= q < |ts|
        ensures h[c + q] == ts[q]
      {
        if q > 0 {
          assert h[c + 1 + (q - 1)] == ts[1..][q - 1];
        }
      }
    }
  }

  /**
   * Each transaction of `ts`, added in order to a list holding `items`, is
   * reversible on the items the list holds when it is added.
   */
  predicate Replayable(ts: seq<Transaction>, items: seq<string>)
    requires |items| == ListLength
    decreases |ts|
  {
    ts == [] || (Reversible(ts[0], items) && Replayable(ts[1..], DoEffect(ts[0], items)))
  }

  /**
   * When the items are `x` with the history's slots `lo` up to the cursor
   * done on it, adding `ts` does each of its transactions in order on top,
   * so that the same holds of the new history and cursor.
   */
  lemma {:induction false} AddAllItems(e: Editor, ts: seq<Transaction>, lo: nat, x: seq<string>)
    requires Valid(e) && AllFit(ts) && lo <= e.tps.cursor && |x| == ListLength
    requires e.items == ApplyRange(e.tps.history, lo, e.tps.cursor, x)
    ensures AddAll(e, ts).tps.cursor == e.tps.cursor + |ts|
    ensures AddAll(e, ts).items == ApplyRange(AddAll(e, ts).tps.history, lo, AddAll(e, ts).tps.cursor, x)
    decreases |ts|
  {
    AddAllHistory(e, ts);
    if ts != [] {
      var c := e.tps.cursor;
      var y := AddTransaction(e, ts[0]);
      AddTransactionHistory(e, ts[0]);
      RangeFrame(e.tps.history, y.tps.history, lo, c, x);
      assert y.items == ApplyRange(y.tps.history, lo, c + 1, x);
      AddAllItems(y, ts[1..], lo, x);
    }
  }

  /**
   * When the history's slots `lo` up to the cursor form a replayable run
   * from `x` that gave the items, adding a replayable `ts` extends that
   * run, so that the whole of the new history from `lo` up to the new
   * cursor is replayable from `x`.
   */
  lemma {:induction false} AddAllRun(e: Editor, ts: seq<Transaction>, lo: nat, x: seq<string>)
    requires Valid(e) && AllFit(ts) && lo <= e.tps.cursor && |x| == ListLength
    requires ReplayableRange(e.tps.history, lo, e.tps.cursor, x)
    requires e.items == ApplyRange(e.tps.history, lo, e.tps.cursor, x)
    requires Replayable(ts, e.items)
    ensures AddAll(e, ts).tps.cursor == e.tps.cursor + |ts|
    ensures ReplayableRange(AddAll(e, ts).tps.history, lo, AddAll(e, ts).tps.cursor, x)
    decreases |ts|
  {
    AddAllHistory(e, ts);
    if ts != [] {
      var c := e.tps.cursor;
      var y := AddTransaction(e, ts[0]);
      AddTransactionHistory(e, ts[0]);
      RangeFrame(e.tps.history, y.tps.history, lo, c, x);
      assert y.items == ApplyRange(y.tps.history, lo, c + 1, x);
      assert ReplayableRange(y.tps.history, lo, c + 1, x);
      AddAllRun(y, ts[1..], lo, x);
    }
  }

  /** Undoing the latest of a replayable run of transactions steps back to the run one shorter. */
  lemma UndoStepBack(a: Editor, lo: nat, x: seq<string>)
    requires Valid(a) && lo < a.tps.cursor && |x| == ListLength
    requires ReplayableRange(a.tps.history, lo, a.tps.cursor, x)
    requires a.items == ApplyRange(a.tps.history, lo, a.tps.cursor, x)
    ensures Undo(a).tps.history == a.tps.history && Undo(a).tps.cursor == a.tps.cursor - 1
    ensures Undo(a).items == ApplyRange(a.tps.history, lo, a.tps.cursor - 1, x)
    ensures ReplayableRange(a.tps.history, lo, a.tps.cursor - 1, x)
  {
    var h, c := a.tps.history, a.tps.cursor;
    UndoAfterDo(h[c - 1], ApplyRange(h, lo, c - 1, x));
  }

  /** Redoing the next transaction extends the run that was done by one. */
  lemma RedoStepForward(u: Editor, lo: nat, x: seq<string>)
    requires Valid(u) && lo <= u.tps.cursor < |u.tps.history| && |x| == ListLength
    requires u.items == ApplyRange(u.tps.history, lo, u.tps.cursor, x)
    ensures Redo(u).tps.history == u.tps.history && Redo(u).tps.cursor == u.tps.cursor + 1
    ensures Redo(u).items == ApplyRange(u.tps.history, lo, u.tps.cursor + 1, x)
  {
  }

  /** `k` undos inside a replayable run step back over its latest `k` transactions. */
  lemma {:induction false} UndoRunBack(a: Editor, k: nat, lo: nat, x: seq<string>)
    requires Valid(a) && lo + k <= a.tps.cursor && |x| == ListLength
    requires ReplayableRange(a.tps.history, lo, a.tps.cursor, x)
    requires a.items == ApplyRange(a.tps.history, lo, a.tps.cursor, x)
    ensures UndoN(a, k).tps.history == a.tps.history && UndoN(a, k).tps.cursor == a.tps.cursor - k
    ensures UndoN(a, k).items == ApplyRange(a.tps.history, lo, a.tps.cursor - k, x)
    ensures ReplayableRange(a.tps.history, lo, a.tps.cursor - k, x)
    decreases k
  {
    if k > 0 {
      UndoRunBack(a, k - 1, lo, x);
      UndoStepBack(UndoN(a, k - 1), lo, x);
    }
  }

  /** `k` redos do the next `k` transactions of the history on top of the run done so far. */
  lemma {:induction false} RedoRunForward(u: Editor, k: nat, lo: nat, x: seq<string>)
    requires Valid(u) && lo <= u.tps.cursor && u.tps.cursor + k <= |u.tps.history| && |x| == ListLength
    requires u.items == ApplyRange(u.tps.history, lo, u.tps.cursor, x)
    ensures RedoN(u, k).tps.history == u.tps.history && RedoN(u, k).tps.cursor == u.tps.cursor + k
    ensures RedoN(u, k).items == ApplyRange(u.tps.history, lo, u.tps.cursor + k, x)
    decreases k
  {
    if k > 0 {
      RedoStepForward(u, lo, x);
      RedoRunForward(Redo(u), k - 1, lo, x);
    }
  }

  /**
   * When the `n` transactions below the cursor were done in order from `x`,
   * one after another, undoing `n` times steps the cursor back over them
   * and brings back `x`.
   */
  lemma UndoRangeRestores(a: Editor, lo: nat, n: nat, x: seq<string>)
    requires Valid(a) && lo + n == a.tps.cursor && |x| == ListLength
    requires ReplayableRange(a.tps.history, lo, a.tps.cursor, x)
    requires a.items == ApplyRange(a.tps.history, lo, a.tps.cursor, x)
    ensures UndoN(a, n).tps.history == a.tps.history
    ensures UndoN(a, n).tps.cursor == lo
    ensures UndoN(a, n).items == x
  {
    UndoRunBack(a, n, lo, x);
  }

  /** Undoing the history's slots `k` up to `hi`, last first, starting from `z`. */
  function UndoRange(h: seq<Transaction>, k: nat, hi: nat, z: seq<string>): (r: seq<string>)
    requires k <= hi <= |h| && AllFit(h) && |z| == ListLength
    ensures |r| == ListLength
    decreases hi - k
  {
    if k == hi then z else UndoEffect(h[k], UndoRange(h, k + 1, hi, z))
  }

  /** `n` undos step the cursor back `n` slots, undoing those slots' transactions last first. */
  lemma {:induction false} UndoRunItems(a: Editor, n: nat, lo: nat)
    requires Valid(a) && lo + n == a.tps.cursor
    ensures UndoN(a, n).tps.history == a.tps.history && UndoN(a, n).tps.cursor == lo
    ensures UndoN(a, n).items == UndoRange(a.tps.history, lo, a.tps.cursor, a.items)
    decreases n
  {
    if n > 0 {
      UndoRunItems(a, n - 1, lo + 1);
    }
  }

  /**
   * One redo step keeps the slot-by-slot tracking: if each slot of `r`
   * holds what undoing `t` from `u` put there or what `f` holds, then each
   * slot of `r` with `t` done holds what `u` holds or what `f` with `t` done
   * holds.
   */
  lemma TrackStep(t: Transaction, r: seq<string>, f: seq<string>, u: seq<string>)
    requires Fits(t) && |r| == ListLength && |f| == ListLength && |u| == ListLength
    requires forall p :: 0 <= p < ListLength ==> r[p] == UndoEffect(t, u)[p] || r[p] == f[p]
    ensures forall p :: 0 <= p < ListLength ==> DoEffect(t, r)[p] == u[p] || DoEffect(t, r)[p] == DoEffect(t, f)[p]
  {
    DoEffectFrom(t, r);
    DoEffectFrom(t, f);
    if t.MoveItemTransaction? {
      MoveToRearranges(u, t.end, t.start);
      DoEffectFrom(t, UndoEffect(t, u));
    } else {
      RenamedAt(u, t.index, t.oldText);
    }
  }

  /**
   * Redoing slot by slot what was undone from `y`: after redoing the slots
   * `lo` up to `k`, each slot holds either what undoing down to `k` left in
   * it, or what doing the same slots from any `x` puts there.
   */
  lemma {:induction false} RedoTracks(h: seq<Transaction>, lo: nat, k: nat, hi: nat,
                                      x: seq<string>, y: seq<string>)
    requires lo <= k <= hi <= |h| && AllFit(h) && |x| == ListLength && |y| == ListLength
    ensures forall p :: 0 <= p < ListLength ==>
      ApplyRange(h, lo, k, UndoRange(h, lo, hi, y))[p] == UndoRange(h, k, hi, y)[p] ||
      ApplyRange(h, lo, k, UndoRange(h, lo, hi, y))[p] == ApplyRange(h, lo, k, x)[p]
    decreases k - lo
  {
    if lo < k {
      RedoTracks(h, lo, k - 1, hi, x, y);
      var u := UndoRange(h, k, hi, y);
      assert UndoRange(h, k - 1, hi, y) == UndoEffect(h[k - 1], u);
      TrackStep(h[k - 1], ApplyRange(h, lo, k - 1, UndoRange(h, lo, hi, y)), ApplyRange(h, lo, k - 1, x), u);
    }
  }

  /**
   * Redoing the `n` transactions that were just undone returns to the
   * editor they were undone from, whatever the undos left in the list.
   */
  lemma RedoRangeReturns(a: Editor, lo: nat, n: nat, x: seq<string>)
    requires Valid(a) && lo + n == a.tps.cursor && |x| == ListLength
    requires a.items == ApplyRange(a.tps.history, lo, a.tps.cursor, x)
    ensures RedoN(UndoN(a, n), n) == a
  {
    UndoRunItems(a, n, lo);
    var u := UndoN(a, n);
    RedoRunForward(u, n, lo, u.items);
    RedoTracks(a.tps.history, lo, a.tps.cursor, a.tps.cursor, x, a.items);
    assert RedoN(u, n).items == a.items;
  }

  /** Adding a replayable run of transactions and then undoing as many restores the items. */
  lemma UndoAllRestores(e: Editor, ts: seq<Transaction>)
    requires Valid(e) && AllFit(ts) && Replayable(ts, e.items)
    ensures UndoN(AddAll(e, ts), |ts|).tps.cursor == e.tps.cursor
    ensures UndoN(AddAll(e, ts), |ts|).items == e.items
  {
    AddAllItems(e, ts, e.tps.cursor, e.items);
    AddAllRun(e, ts, e.tps.cursor, e.items);
    UndoRangeRestores(AddAll(e, ts), e.tps.cursor, |ts|, e.items);
  }

  /**
   * Redoing all that was undone returns to the state right after the
   * additions, for any run of transactions.
   */
  lemma RedoAllReturns(e: Editor, ts: seq<Transaction>)
    requires Valid(e) && AllFit(ts)
    ensures RedoN(UndoN(AddAll(e, ts), |ts|), |ts|) == AddAll(e, ts)
  {
    AddAllItems(e, ts, e.tps.cursor, e.items);
    RedoRangeReturns(AddAll(e, ts), e.tps.cursor, |ts|, e.items);
  }

  /** The store's transaction-related state: the reducer's record and the stack with its list. */
  datatype Session = Session(state: StoreState, editor: Editor)

  /**
   * `store.closeCurrentList`: the `CloseCurrentList` action followed by
   * `clearAllTransactions`.
   */
  function CloseCurrentList(s: Session, collate: seq<IdNamePair> -> seq<IdNamePair>): (r: Session)
    requires Valid(s.editor)
    ensures r.state.currentList.None? && !r.state.isListNameEditActive && !r.state.isItemEditActive
    ensures r.state.idNamePairs == s.state.idNamePairs
    ensures r.state.newListCounter == s.state.newListCounter
    ensures !HasTransactionToUndo(r.editor.tps) && !HasTransactionToRedo(r.editor.tps)
  {
    Session(Reduce(s.state, StoreReducer.CloseCurrentList, collate), ClearAllTransactions(s.editor))
  }
}
