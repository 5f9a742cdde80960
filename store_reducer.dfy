/**
 * The global store's state record and its reducer, `storeReducer`: a pure
 * transition from the current state and an action to the next state. Each
 * action type either rebuilds the whole record or copies the record and
 * overwrites a single field.
 */
module StoreReducer {
  import opened Wrappers

  /** An entry of the list selector: a list's id and its name. */
  datatype IdNamePair = IdNamePair(id: string, name: string)

  /** A Top 5 list as the server returns it. */
  datatype Top5List = Top5List(id: string, name: string, items: seq<string>)

  datatype StoreState = StoreState(
    idNamePairs: seq<IdNamePair>,
    currentList: Option<Top5List>,
    newListCounter: int,
    isListNameEditActive: bool,
    isItemEditActive: bool,
    listMarkedForDeletion: Option<IdNamePair>,  // the `[id, name]` payload, or null
    listIdBeingEdited: Option<string>)          // None is `undefined`

  /** The state the store starts in. */
  const Initial := StoreState([], None, 0, false, false, None, None)

  /**
   * The actions the reducer is given, one per action type with its payload.
   * `MarkListInEditMode` is declared among the action types but has no case
   * in the reducer; `Other` stands for any action type not declared at all.
   */
  datatype Action =
    | ChangeListName(pairs: seq<IdNamePair>, list: Top5List)
    | CloseCurrentList
    | LoadIdNamePairs(loaded: seq<IdNamePair>)
    | SetCurrentList(shown: Top5List)
    | SetListNameEditActive(edited: Option<Top5List>)
    | CreateNewList(created: IdNamePair)
    | MarkListInEditMode
    | NoLongerEdit
    | ListItemEditChange(active: bool)
    | MarkListForDelete(marked: Option<IdNamePair>)
    | Other(tag: string)

  /** The fields of the state record. */
  datatype Field =
    | IdNamePairs | CurrentList | NewListCounter | ListNameEditActive
    | ItemEditActive | ListMarkedForDeletion | ListIdBeingEdited

  /** Whether `s` and `t` hold the same value in field `f`. */
  predicate Agree(s: StoreState, t: StoreState, f: Field) {
    match f
    case IdNamePairs => s.idNamePairs == t.idNamePairs
    case CurrentList => s.currentList == t.currentList
    case NewListCounter => s.newListCounter == t.newListCounter
    case ListNameEditActive => s.isListNameEditActive == t.isListNameEditActive
    case ItemEditActive => s.isItemEditActive == t.isItemEditActive
    case ListMarkedForDeletion => s.listMarkedForDeletion == t.listMarkedForDeletion
    case ListIdBeingEdited => s.listIdBeingEdited == t.listIdBeingEdited
  }

  /** The fields an action may set; every other field is carried over. */
  function Writes(a: Action): set<Field> {
    match a
    case ChangeListName(_, _) | LoadIdNamePairs(_) =>
      {IdNamePairs, CurrentList, ListNameEditActive, ItemEditActive,
       ListMarkedForDeletion, ListIdBeingEdited}
    case CloseCurrentList | SetCurrentList(_) | SetListNameEditActive(_) =>
      {CurrentList, ListNameEditActive, ItemEditActive, ListMarkedForDeletion, ListIdBeingEdited}
    case CreateNewList(_) =>
      {IdNamePairs, CurrentList, NewListCounter, ListNameEditActive, ItemEditActive,
       ListMarkedForDeletion, ListIdBeingEdited}
    case NoLongerEdit => {ListIdBeingEdited}
    case ListItemEditChange(_) => {ItemEditActive}
    case MarkListForDelete(_) => {ListMarkedForDeletion}
    case MarkListInEditMode | Other(_) => {}
  }

  /**
   * `storeReducer`. The list of pairs built by `CreateNewList` is put in
   * order by `collate`, which stands for the locale-dependent sort.
   */
  function Reduce(s: StoreState, a: Action, collate: seq<IdNamePair> -> seq<IdNamePair>): (r: StoreState)
    ensures forall f :: f !in Writes(a) ==> Agree(s, r, f)
  {
    match a
    case ChangeListName(pairs, list) =>
      StoreState(pairs, Some(list), s.newListCounter, false, false, None, None)
    case CloseCurrentList =>
      StoreState(s.idNamePairs, None, s.newListCounter, false, false, None, None)
    case LoadIdNamePairs(loaded) =>
      StoreState(loaded, None, s.newListCounter, false, false, None, None)
    case SetCurrentList(shown) =>
      StoreState(s.idNamePairs, Some(shown), s.newListCounter, false, false, None, None)
    case SetListNameEditActive(edited) =>
      StoreState(s.idNamePairs, edited, s.newListCounter, true, false, None, None)
    case CreateNewList(created) =>
      StoreState(collate(s.idNamePairs + [created]), None, s.newListCounter + 1,
                 true, false, None, Some(created.id))
    case NoLongerEdit => s.(listIdBeingEdited := None)
    case ListItemEditChange(active) => s.(isItemEditActive := active)
    case MarkListForDelete(marked) => s.(listMarkedForDeletion := marked)
    case MarkListInEditMode | Other(_) => s
  }

  /** Closing the open list drops it, ends both kinds of editing, and keeps the pairs and the counter. */
  lemma CloseCurrentListEffect(s: StoreState, collate: seq<IdNamePair> -> seq<IdNamePair>)
    ensures var r := Reduce(s, CloseCurrentList, collate);
      r.currentList == None && !r.isListNameEditActive && !r.isItemEditActive &&
      r.listMarkedForDeletion == None && r.listIdBeingEdited == None &&
      r.idNamePairs == s.idNamePairs && r.newListCounter == s.newListCounter
  {
  }

  /**
   * The three copy-and-overwrite actions write exactly one field each, with
   * their payload, and leave every other field as it was.
   */
  lemma SingleFieldActions(s: StoreState, active: bool, marked: Option<IdNamePair>,
                           collate: seq<IdNamePair> -> seq<IdNamePair>)
    ensures Reduce(s, NoLongerEdit, collate) == s.(listIdBeingEdited := None)
    ensures Reduce(s, ListItemEditChange(active), collate) == s.(isItemEditActive := active)
    ensures Reduce(s, MarkListForDelete(marked), collate) == s.(listMarkedForDeletion := marked)
    ensures Writes(NoLongerEdit) == {ListIdBeingEdited}
    ensures Writes(ListItemEditChange(active)) == {ItemEditActive}
    ensures Writes(MarkListForDelete(marked)) == {ListMarkedForDeletion}
  {
  }

  /** An action type the reducer has no case for returns the state unchanged. */
  lemma UnhandledActionsKeepState(s: StoreState, tag: string, collate: seq<IdNamePair> -> seq<IdNamePair>)
    ensures Reduce(s, MarkListInEditMode, collate) == s
    ensures Reduce(s, Other(tag), collate) == s
  {
  }

  /** Runs the reducer over a sequence of actions, first to last. */
  function ReduceAll(s: StoreState, actions: seq<Action>, collate: seq<IdNamePair> -> seq<IdNamePair>): StoreState
    decreases |actions|
  {
    if actions == [] then s
    else ReduceAll(Reduce(s, actions[0], collate), actions[1..], collate)
  }

  /** How many of the actions create a list. */
  function Creations(actions: seq<Action>): nat
    decreases |actions|
  {
    if actions == [] then 0
    else (if actions[0].CreateNewList? then 1 else 0) + Creations(actions[1..])
  }

  /** `newListCounter` counts the lists created: only `CreateNewList` moves it, by one. */
  lemma {:induction false} CounterCountsCreations(s: StoreState, actions: seq<Action>,
                                                  collate: seq<IdNamePair> -> seq<IdNamePair>)
    ensures ReduceAll(s, actions, collate).newListCounter == s.newListCounter + Creations(actions)
    decreases |actions|
  {
    if actions != [] {
      var next := Reduce(s, actions[0], collate);
      assert next.newListCounter == s.newListCounter + (if actions[0].CreateNewList? then 1 else 0) by {
        assert actions[0].CreateNewList? || NewListCounter !in Writes(actions[0]);
      }
      CounterCountsCreations(next, actions[1..], collate);
    }
  }

  /**
   * The store starts with no list open and nothing being edited, and from
   * there `newListCounter` is, after any run of actions, the number of lists
   * created.
   */
  lemma FromInitial(actions: seq<Action>, collate: seq<IdNamePair> -> seq<IdNamePair>)
    ensures Initial.currentList == None && !Initial.isListNameEditActive && !Initial.isItemEditActive
    ensures ReduceAll(Initial, actions, collate).newListCounter == Creations(actions)
  {
    CounterCountsCreations(Initial, actions, collate);
  }
}
