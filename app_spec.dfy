/**
 * The state of the todo application as a value, one function per `App` method
 * (src/main.rs:32-199), the key dispatch of `run_app` (src/main.rs:356-439) as
 * `Transition`, and its loop over a sequence of key presses as `Replay`.
 * The class `TodoApp.App` is proved to follow these functions.
 */
module AppSpec {
  import opened Options
  import opened Text
  import opened Lists
  import opened Filter
  import opened Cursor

  datatype InputMode = Normal | Editing | Searching | Adding | Confirming

  /** The key codes the dispatch distinguishes; every other key code is `Other`. */
  datatype Key = Char(c: char) | Esc | Enter | Backspace | Up | Down | Other

  /** What one key press leads to: keep running, quit the loop, or a panic on `len - 1`. */
  datatype Outcome = Continue | Quit | Panic

  /** The fields of `App`; also the snapshot the renderer reads each frame. */
  datatype AppState = AppState(
    inputMode: InputMode,
    searchInput: string,
    todos: seq<string>,
    filteredTodos: seq<string>,
    selectedIndex: Option<nat>,
    inputBuffer: string,
    showConfirmation: bool)

  /** The todos `App::new` starts with. */
  const Seeds: seq<string> :=
    ["Learn Rust", "Build a TUI app", "Share with others", "Write documentation", "Add more features"]

  /** `App::new`. */
  function Initial(): AppState
  {
    AppState(Normal, "", Seeds, Seeds, Some(0), "", false)
  }

  /**
   * What the code keeps true: the filtered list is recomputed from the todos and
   * the search input, the confirmation popup is shown exactly in Confirming mode,
   * and the cursor satisfies the weak invariant `CursorOk`.
   */
  predicate Inv(s: AppState)
  {
    && s.filteredTodos == Filtered(s.todos, s.searchInput)
    && s.showConfirmation == (s.inputMode == Confirming)
    && CursorOk(s.selectedIndex, |s.filteredTodos|)
  }

  function Min(a: nat, b: nat): nat
  {
    if a <= b then a else b
  }

  /** `String::pop`: drop the last character, if any. */
  function Pop(t: string): (r: string)
    ensures t == [] ==> r == []
    ensures t != [] ==> r + [t[|t| - 1]] == t
  {
    if t == [] then t else t[..|t| - 1]
  }

  /** `filter_todos`: recompute the filtered list, then clamp the cursor. */
  function FilterTodos(s: AppState): AppState
  {
    var f := Filtered(s.todos, s.searchInput);
    s.(filteredTodos := f, selectedIndex := Reclamp(s.selectedIndex, |f|))
  }

  /** `add_todo`. */
  function AddTodo(s: AppState): AppState
  {
    if s.inputBuffer == [] then s
    else FilterTodos(s.(todos := s.todos + [s.inputBuffer], inputBuffer := ""))
  }

  /** `delete_selected_todo`: remove the first todo equal to the selected one. */
  function DeleteSelectedTodo(s: AppState): AppState
  {
    match s.selectedIndex
    case None => s
    case Some(i) =>
      if i >= |s.filteredTodos| then s
      else match Position(s.todos, s.filteredTodos[i])
        case None => s
        case Some(p) =>
          var r := FilterTodos(s.(todos := RemoveAt(s.todos, p)));
          r.(selectedIndex := if r.filteredTodos == [] then None else Some(Min(i, |r.filteredTodos| - 1)))
  }

  /** `start_delete_confirmation`. */
  function StartDeleteConfirmation(s: AppState): AppState
  {
    if s.selectedIndex.Some? then s.(inputMode := Confirming, showConfirmation := true) else s
  }

  /** `cancel_delete`. */
  function CancelDelete(s: AppState): AppState
  {
    s.(inputMode := Normal, showConfirmation := false)
  }

  /** `start_editing`: copy the selected todo into the buffer and enter Editing. */
  function StartEditing(s: AppState): AppState
  {
    match s.selectedIndex
    case None => s
    case Some(i) =>
      if i < |s.filteredTodos| then s.(inputBuffer := s.filteredTodos[i], inputMode := Editing) else s
  }

  /** `save_edit`: overwrite the first todo equal to the selected one with the buffer. */
  function SaveEdit(s: AppState): AppState
  {
    match s.selectedIndex
    case None => s
    case Some(i) =>
      if i >= |s.filteredTodos| then s
      else match Position(s.todos, s.filteredTodos[i])
        case None => s
        case Some(p) =>
          if s.inputBuffer == [] then s
          else FilterTodos(s.(todos := s.todos[p := s.inputBuffer]))
  }

  /** `cancel_edit`. */
  function CancelEdit(s: AppState): AppState
  {
    s.(inputBuffer := "", inputMode := Normal)
  }

  predicate IsDownKey(key: Key)
  {
    key == Char('j') || key == Down
  }

  predicate IsUpKey(key: Key)
  {
    key == Char('k') || key == Up
  }

  /** Normal mode (src/main.rs:357-378). */
  function NormalKey(s: AppState, key: Key): (Outcome, AppState)
  {
    var len := |s.filteredTodos|;
    if key == Char('q') || key == Esc then (Quit, s)
    else if key == Char('/') then (Continue, s.(inputMode := Searching))
    else if key == Char('a') then (Continue, s.(inputMode := Adding, inputBuffer := ""))
    else if key == Char('r') || key == Char('d') then (Continue, StartDeleteConfirmation(s))
    else if key == Char('i') then (Continue, if s.selectedIndex.Some? then StartEditing(s) else s)
    else if IsDownKey(key) then
      if DownUnderflows(s.selectedIndex, len) then (Panic, s)
      else (Continue, s.(selectedIndex := MoveDown(s.selectedIndex, len)))
    else if IsUpKey(key) then
      if UpUnderflows(s.selectedIndex, len) then (Panic, s)
      else (Continue, s.(selectedIndex := MoveUp(s.selectedIndex, len)))
    else (Continue, s)
  }

  /** Searching mode (src/main.rs:379-396). */
  function SearchingKey(s: AppState, key: Key): AppState
  {
    match key
    case Enter => s.(inputMode := Normal)
    case Esc => FilterTodos(s.(inputMode := Normal, searchInput := ""))
    case Char(c) => FilterTodos(s.(searchInput := s.searchInput + [c]))
    case Backspace => FilterTodos(s.(searchInput := Pop(s.searchInput)))
    case _ => s
  }

  /** Adding mode (src/main.rs:397-413). */
  function AddingKey(s: AppState, key: Key): AppState
  {
    match key
    case Enter => AddTodo(s).(inputMode := Normal)
    case Esc => s.(inputMode := Normal, inputBuffer := "")
    case Char(c) => s.(inputBuffer := s.inputBuffer + [c])
    case Backspace => s.(inputBuffer := Pop(s.inputBuffer))
    case _ => s
  }

  /** Confirming mode (src/main.rs:414-423). */
  function ConfirmingKey(s: AppState, key: Key): AppState
  {
    if key == Char('y') then CancelDelete(DeleteSelectedTodo(s))
    else if key == Char('n') || key == Esc then CancelDelete(s)
    else s
  }

  /** Editing mode (src/main.rs:424-438): Enter saves but stays in Editing. */
  function EditingKey(s: AppState, key: Key): AppState
  {
    match key
    case Enter => SaveEdit(s)
    case Esc => CancelEdit(s)
    case Char(c) => s.(inputBuffer := s.inputBuffer + [c])
    case Backspace => s.(inputBuffer := Pop(s.inputBuffer))
    case _ => s
  }

  /** One key press handled by the `match app.input_mode` of `run_app`. */
  function Transition(s: AppState, key: Key): (Outcome, AppState)
  {
    match s.inputMode
    case Normal => NormalKey(s, key)
    case Searching => (Continue, SearchingKey(s, key))
    case Adding => (Continue, AddingKey(s, key))
    case Confirming => (Continue, ConfirmingKey(s, key))
    case Editing => (Continue, EditingKey(s, key))
  }

  /**
   * The loop of `run_app` fed with `keys`: the outcome, how many keys were
   * consumed, and the final state. It stops at the first quit or panic.
   */
  function Replay(s: AppState, keys: seq<Key>): (Outcome, nat, AppState)
    decreases |keys|
  {
    if keys == [] then (Continue, 0, s)
    else
      var (o, t) := Transition(s, keys[0]);
      if o != Continue then (o, 1, t)
      else
        var (o', n, t') := Replay(t, keys[1..]);
        (o', n + 1, t')
  }

  /** One turn of `Replay`: the first key either stops it or passes the new state on. */
  lemma ReplayFirst(s: AppState, keys: seq<Key>)
    requires keys != []
    ensures var (o, t) := Transition(s, keys[0]);
      && (o != Continue ==> Replay(s, keys) == (o, 1, t))
      && (o == Continue ==> var r := Replay(t, keys[1..]); Replay(s, keys) == (r.0, r.1 + 1, r.2))
  {
  }

  /**
   * One turn of the loop of `run_app`: if `Replay` from key `i` on gives `goal`
   * (counting the `i` keys already consumed) and key `i` leads to `(o, t)`, then
   * either the loop stops there with `goal`, or `Replay` from key `i + 1` on does.
   */
  lemma ReplayTurn(goal: (Outcome, nat, AppState), s: AppState, o: Outcome, t: AppState, keys: seq<Key>, i: nat)
    requires i < |keys| && (o, t) == Transition(s, keys[i])
    requires var r := Replay(s, keys[i..]); goal == (r.0, r.1 + i, r.2)
    ensures o != Continue ==> goal == (o, i + 1, t)
    ensures o == Continue ==> var r := Replay(t, keys[i + 1..]); goal == (r.0, r.1 + i + 1, r.2)
  {
    assert keys[i..][1..] == keys[i + 1..];
  }

  // ---------------------------------------------------------------------------
  // Properties of the operations

  /** `App::new` establishes the invariant. */
  lemma InitialInv()
    ensures Inv(Initial())
  {
  }

  /** `filter_todos` re-establishes the filtered list and the weak cursor invariant. */
  lemma FilterTodosInv(s: AppState)
    requires s.showConfirmation == (s.inputMode == Confirming)
    ensures Inv(FilterTodos(s))
    ensures s.selectedIndex.Some? && s.selectedIndex.value < |FilterTodos(s).filteredTodos| ==>
      FilterTodos(s).selectedIndex == s.selectedIndex
  {
  }

  /**
   * `add_todo`: an empty buffer changes nothing; otherwise the buffer is appended
   * to the todos and cleared, the filtered list gains the new todo iff it matches
   * the search, and the cursor does not move.
   */
  lemma AddTodoSpec(s: AppState)
    requires Inv(s)
    ensures Inv(AddTodo(s))
    ensures s.inputBuffer == [] ==> AddTodo(s) == s
    ensures s.inputBuffer != [] ==>
      var t := AddTodo(s);
      && t.todos == s.todos + [s.inputBuffer]
      && t.inputBuffer == []
      && t.filteredTodos == s.filteredTodos + (if Visible(s.inputBuffer, s.searchInput) then [s.inputBuffer] else [])
      && t.selectedIndex == s.selectedIndex
      && t.inputMode == s.inputMode && t.searchInput == s.searchInput
  {
    if s.inputBuffer != [] {
      FilteredAppend(s.todos, s.searchInput, s.inputBuffer);
    }
  }

  /** The selected todo is a todo, so the lookup by value in `delete_selected_todo` and `save_edit` succeeds. */
  lemma SelectedIsTodo(s: AppState, i: nat)
    requires Inv(s) && i < |s.filteredTodos|
    ensures s.filteredTodos[i] in s.todos
    ensures Visible(s.filteredTodos[i], s.searchInput)
    ensures Position(s.todos, s.filteredTodos[i]).Some?
  {
    FilteredMembership(s.todos, s.searchInput, s.filteredTodos[i]);
  }

  /**
   * `delete_selected_todo` with a cursor on a shown todo `t`: the first todo equal
   * to `t` is removed and nothing else, the todos and the filtered list both shrink
   * by one, and the cursor stays at its index, clamped to the new list, or becomes
   * `None` when the filtered list is now empty.
   */
  lemma DeleteSelectedTodoSpec(s: AppState, i: nat)
    requires Inv(s) && s.selectedIndex == Some(i) && i < |s.filteredTodos|
    ensures
      var t, d := s.filteredTodos[i], DeleteSelectedTodo(s);
      && Position(s.todos, t).Some?
      && var p := Position(s.todos, t).value;
      && d.todos == RemoveAt(s.todos, p)
      && s.todos[p] == t && t !in s.todos[..p]
      && |d.todos| == |s.todos| - 1
      && multiset(d.todos) == multiset(s.todos) - multiset{t}
      && |d.filteredTodos| == |s.filteredTodos| - 1
      && d.selectedIndex == (if d.filteredTodos == [] then None else Some(Min(i, |d.filteredTodos| - 1)))
      && d.inputMode == s.inputMode && d.searchInput == s.searchInput && d.inputBuffer == s.inputBuffer
      && Inv(d)
  {
    var t := s.filteredTodos[i];
    SelectedIsTodo(s, i);
    var p := Position(s.todos, t).value;
    var u := s.(todos := RemoveAt(s.todos, p));
    FilteredIsSelect(s.todos, s.searchInput);
    FilteredIsSelect(u.todos, s.searchInput);
    SelectRemoveAt(s.todos, Lower(s.searchInput), p);
  }

  /** `delete_selected_todo` keeps the invariant in every state that has it. */
  lemma DeleteSelectedTodoInv(s: AppState)
    requires Inv(s)
    ensures Inv(DeleteSelectedTodo(s))
  {
    if s.selectedIndex.Some? && s.selectedIndex.value < |s.filteredTodos| {
      DeleteSelectedTodoSpec(s, s.selectedIndex.value);
    }
  }

  /** `delete_selected_todo` without a cursor on a shown todo changes nothing. */
  lemma DeleteSelectedTodoNoop(s: AppState)
    requires s.selectedIndex.None? || s.selectedIndex.value >= |s.filteredTodos|
    ensures DeleteSelectedTodo(s) == s
  {
  }

  /**
   * `save_edit` with a cursor on a shown todo `t` and a non-empty buffer: exactly
   * the first todo equal to `t` is overwritten with the buffer, the number of todos
   * is unchanged, the mode and the buffer are left as they were, and the cursor is
   * clamped to the refiltered list.
   */
  lemma SaveEditSpec(s: AppState, i: nat)
    requires Inv(s) && s.selectedIndex == Some(i) && i < |s.filteredTodos| && s.inputBuffer != []
    ensures
      var t, e := s.filteredTodos[i], SaveEdit(s);
      && Position(s.todos, t).Some?
      && var p := Position(s.todos, t).value;
      && t !in s.todos[..p]
      && |e.todos| == |s.todos|
      && e.todos[p] == s.inputBuffer
      && (forall j :: 0 <= j < |s.todos| && j != p ==> e.todos[j] == s.todos[j])
      && e.inputMode == s.inputMode && e.inputBuffer == s.inputBuffer && e.searchInput == s.searchInput
      && e.selectedIndex == Reclamp(Some(i), |e.filteredTodos|)
      && Inv(e)
  {
    SelectedIsTodo(s, i);
  }

  /** `save_edit` with an empty buffer, or without a cursor on a shown todo, changes nothing. */
  lemma SaveEditNoop(s: AppState)
    requires s.inputBuffer == [] || s.selectedIndex.None? || s.selectedIndex.value >= |s.filteredTodos|
    ensures SaveEdit(s) == s
  {
  }

  /**
   * `start_editing` loads the selected todo into the buffer and enters Editing,
   * changing nothing else; without a cursor on a shown todo it does nothing.
   */
  lemma StartEditingSpec(s: AppState)
    requires Inv(s) && s.inputMode != Confirming
    ensures Inv(StartEditing(s))
    ensures s.selectedIndex.Some? && s.selectedIndex.value < |s.filteredTodos| ==>
      StartEditing(s) == s.(inputBuffer := s.filteredTodos[s.selectedIndex.value], inputMode := Editing)
    ensures s.selectedIndex.None? || s.selectedIndex.value >= |s.filteredTodos| ==> StartEditing(s) == s
  {
  }

  // ---------------------------------------------------------------------------
  // Properties of the key dispatch

  /** The searching keys keep the invariant. */
  lemma SearchingKeyInv(s: AppState, key: Key)
    requires Inv(s) && s.inputMode == Searching
    ensures Inv(SearchingKey(s, key))
  {
    match key
    case Esc => FilterTodosInv(s.(inputMode := Normal, searchInput := ""));
    case Char(c) => FilterTodosInv(s.(searchInput := s.searchInput + [c]));
    case Backspace => FilterTodosInv(s.(searchInput := Pop(s.searchInput)));
    case _ =>
  }

  /** The confirming keys keep the invariant. */
  lemma ConfirmingKeyInv(s: AppState, key: Key)
    requires Inv(s) && s.inputMode == Confirming
    ensures Inv(ConfirmingKey(s, key))
  {
    if key == Char('y') {
      match s.selectedIndex
      case Some(i) =>
        if i < |s.filteredTodos| {
          DeleteSelectedTodoSpec(s, i);
        }
      case None =>
    }
  }

  /** The editing keys keep the invariant. */
  lemma EditingKeyInv(s: AppState, key: Key)
    requires Inv(s) && s.inputMode == Editing
    ensures Inv(EditingKey(s, key))
  {
    if key == Enter {
      match s.selectedIndex
      case Some(i) =>
        if i < |s.filteredTodos| && s.inputBuffer != [] {
          SaveEditSpec(s, i);
        }
      case None =>
    }
  }

  /**
   * Every key press keeps the invariant, in particular the weak cursor invariant:
   * the cursor is `None`, in range, or `Some(0)` on an empty filtered list.
   */
  lemma TransitionInv(s: AppState, key: Key)
    requires Inv(s)
    ensures Inv(Transition(s, key).1)
  {
    match s.inputMode
    case Normal =>
    case Searching => SearchingKeyInv(s, key);
    case Adding => AddTodoSpec(s);
    case Confirming => ConfirmingKeyInv(s, key);
    case Editing => EditingKeyInv(s, key);
  }

  /** Quitting happens exactly on `q` or Esc in Normal mode, and a quit or a panic leaves the state as it was. */
  lemma QuitIff(s: AppState, key: Key)
    ensures Transition(s, key).0 == Quit <==> s.inputMode == Normal && (key == Char('q') || key == Esc)
    ensures Transition(s, key).0 != Continue ==> Transition(s, key).1 == s
  {
  }

  /** A panic happens exactly on a move key in Normal mode whose `len - 1` underflows. */
  lemma PanicIff(s: AppState, key: Key)
    ensures Transition(s, key).0 == Panic <==>
      && s.inputMode == Normal
      && ((IsDownKey(key) && DownUnderflows(s.selectedIndex, |s.filteredTodos|))
       || (IsUpKey(key) && UpUnderflows(s.selectedIndex, |s.filteredTodos|)))
  {
  }

  /** Under the invariant a move key panics exactly when the cursor is `Some(0)` on an empty filtered list. */
  lemma PanicOnEmptyList(s: AppState, key: Key)
    requires Inv(s) && s.inputMode == Normal && (IsDownKey(key) || IsUpKey(key))
    ensures Transition(s, key).0 == Panic <==> s.selectedIndex == Some(0) && s.filteredTodos == []
  {
  }

  /** Enter in Editing saves the edit but stays in Editing with the buffer untouched. */
  lemma EditingEnterStays(s: AppState)
    requires s.inputMode == Editing
    ensures Transition(s, Enter).1.inputMode == Editing
    ensures Transition(s, Enter).1.inputBuffer == s.inputBuffer
    ensures Transition(s, Enter).1.todos == SaveEdit(s).todos
  {
  }

  /**
   * In Confirming mode `y` deletes and returns to Normal; `n` and Esc return to
   * Normal with the todos untouched; the popup flag follows the mode.
   */
  lemma ConfirmingKeys(s: AppState, key: Key)
    requires s.inputMode == Confirming
    ensures key == Char('y') ==>
      Transition(s, key).1 == DeleteSelectedTodo(s).(inputMode := Normal, showConfirmation := false)
    ensures key == Char('n') || key == Esc ==>
      Transition(s, key).1 == s.(inputMode := Normal, showConfirmation := false)
  {
  }

  /**
   * The confirmation flag is switched on only by `r`/`d` in Normal mode with a
   * cursor, and switched off only by `y`, `n` or Esc in Confirming mode.
   */
  lemma ConfirmationFlagChanges(s: AppState, key: Key)
    requires Inv(s)
    ensures
      var t := Transition(s, key).1;
      && (!s.showConfirmation && t.showConfirmation <==>
            s.inputMode == Normal && (key == Char('r') || key == Char('d')) && s.selectedIndex.Some?)
      && (s.showConfirmation && !t.showConfirmation <==>
            s.inputMode == Confirming && (key == Char('y') || key == Char('n') || key == Esc))
  {
  }

  /** The cursor keeps the weak invariant across any number of key presses. */
  lemma {:induction false} ReplayInv(s: AppState, keys: seq<Key>)
    requires Inv(s)
    ensures Inv(Replay(s, keys).2)
    ensures Replay(s, keys).1 <= |keys|
    decreases |keys|
  {
    if keys != [] {
      TransitionInv(s, keys[0]);
      ReplayInv(Transition(s, keys[0]).1, keys[1..]);
    }
  }

  /** Down or up pressed `len` times in Normal mode brings an in-range cursor back. */
  lemma NormalMovesCycle(s: AppState, i: nat)
    requires s.inputMode == Normal && s.selectedIndex == Some(i) && i < |s.filteredTodos|
    ensures Downs(s.selectedIndex, |s.filteredTodos|, |s.filteredTodos|) == s.selectedIndex
    ensures Ups(s.selectedIndex, |s.filteredTodos|, |s.filteredTodos|) == s.selectedIndex
    ensures NormalKey(s, Down) == (Continue, s.(selectedIndex := Downs(s.selectedIndex, |s.filteredTodos|, 1)))
    ensures NormalKey(s, Up) == (Continue, s.(selectedIndex := Ups(s.selectedIndex, |s.filteredTodos|, 1)))
  {
    DownsCycle(i, |s.filteredTodos|);
    UpsCycle(i, |s.filteredTodos|);
  }
}
