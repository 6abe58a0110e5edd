/**
 * The `App` struct of src/main.rs as a class whose methods update its fields in
 * place, each proved to follow the matching function of `AppSpec`; `Step` is one
 * turn of the key dispatch in `run_app` and `Run` is its loop.
 */
module TodoApp {
  import opened Options
  import opened Text
  import opened Lists
  import opened Filter
  import opened Cursor
  import opened AppSpec

  class App {
    var inputMode: InputMode
    var searchInput: string
    var todos: seq<string>
    var filteredTodos: seq<string>
    var selectedIndex: Option<nat>
    var inputBuffer: string
    var showConfirmation: bool

    /** The current fields as a value: what the renderer draws. */
    function Model(): AppState
      reads this
    {
      AppState(inputMode, searchInput, todos, filteredTodos, selectedIndex, inputBuffer, showConfirmation)
    }

    ghost predicate Valid()
      reads this
    {
      Inv(Model())
    }

    /** `App::new`: the five seed todos, all shown, the first one selected. */
    constructor ()
      ensures Valid() && Model() == Initial()
    {
      inputMode := Normal;
      searchInput := "";
      todos := Seeds;
      filteredTodos := Seeds;
      selectedIndex := Some(0);
      inputBuffer := "";
      showConfirmation := false;
    }

    method MoveSelectionUp()
      requires !UpUnderflows(selectedIndex, |filteredTodos|)
      modifies this
      ensures Model() == old(Model()).(selectedIndex := MoveUp(old(selectedIndex), old(|filteredTodos|)))
      ensures old(Valid()) ==> Valid()
    {
      match selectedIndex {
        case Some(i) =>
          if i > 0 {
            selectedIndex := Some(i - 1);
          } else {
            selectedIndex := Some(|filteredTodos| - 1);
          }
        case None =>
          if filteredTodos != [] {
            selectedIndex := Some(0);
          }
      }
    }

    method MoveSelectionDown()
      requires !DownUnderflows(selectedIndex, |filteredTodos|)
      modifies this
      ensures Model() == old(Model()).(selectedIndex := MoveDown(old(selectedIndex), old(|filteredTodos|)))
      ensures old(Valid()) ==> Valid()
    {
      var len := |filteredTodos|;
      match selectedIndex {
        case Some(i) =>
          if i < len - 1 {
            selectedIndex := Some(i + 1);
          } else {
            selectedIndex := Some(0);
          }
        case None =>
          if filteredTodos != [] {
            selectedIndex := Some(0);
          }
      }
    }

    /** Callable in any state: the other methods call it between updates. */
    method FilterTodos()
      modifies this
      ensures Model() == AppSpec.FilterTodos(old(Model()))
    {
      if searchInput == [] {
        filteredTodos := todos;
      } else {
        var searchTerm := Lower(searchInput);
        filteredTodos := Select(todos, searchTerm);
      }
      if selectedIndex.Some? {
        var selected := selectedIndex.value;
        if selected >= |filteredTodos| {
          selectedIndex := if filteredTodos == [] then Some(0) else Some(|filteredTodos| - 1);
        }
      }
    }

    method AddTodo()
      modifies this
      ensures Model() == AppSpec.AddTodo(old(Model()))
      ensures old(Valid()) ==> Valid()
    {
      if inputBuffer != [] {
        todos := todos + [inputBuffer];
        inputBuffer := "";
        FilterTodos();
      }
      if old(Valid()) {
        AddTodoSpec(old(Model()));
      }
    }

    method DeleteSelectedTodo()
      modifies this
      ensures Model() == AppSpec.DeleteSelectedTodo(old(Model()))
      ensures old(Valid()) ==> Valid()
    {
      ghost var s := Model();
      if Valid() {
        DeleteSelectedTodoInv(s);
      }
      if selectedIndex.Some? {
        var sel := selectedIndex.value;
        if sel < |filteredTodos| {
          var selectedTodo := filteredTodos[sel];
          var originalIndex := Position(todos, selectedTodo);
          if originalIndex.Some? {
            todos := RemoveAt(todos, originalIndex.value);
            ghost var r := AppSpec.FilterTodos(s.(todos := todos));
            FilterTodos();
            assert Model() == r;
            if filteredTodos == [] {
              selectedIndex := None;
            } else {
              selectedIndex := Some(Min(sel, |filteredTodos| - 1));
            }
            assert Model() == r.(selectedIndex := if r.filteredTodos == [] then None else Some(Min(sel, |r.filteredTodos| - 1)));
          }
        }
      }
    }

    method StartDeleteConfirmation()
      modifies this
      ensures old(Valid()) ==> Valid()
      ensures Model() == AppSpec.StartDeleteConfirmation(old(Model()))
    {
      if selectedIndex.Some? {
        inputMode := Confirming;
        showConfirmation := true;
      }
    }

    method CancelDelete()
      modifies this
      ensures old(Valid()) ==> Valid()
      ensures Model() == AppSpec.CancelDelete(old(Model()))
    {
      inputMode := Normal;
      showConfirmation := false;
    }

    /**
     * Only Normal mode calls it; called with the confirmation popup showing it
     * would leave the popup flag set in Editing mode.
     */
    method StartEditing()
      modifies this
      ensures Model() == AppSpec.StartEditing(old(Model()))
      ensures old(Valid()) && old(inputMode) != Confirming ==> Valid()
    {
      if Valid() && inputMode != Confirming {
        StartEditingSpec(Model());
      }
      if selectedIndex.Some? {
        var sel := selectedIndex.value;
        if sel < |filteredTodos| {
          inputBuffer := filteredTodos[sel];
          inputMode := Editing;
        }
      }
    }

    method SaveEdit()
      modifies this
      ensures Model() == AppSpec.SaveEdit(old(Model()))
      ensures old(Valid()) ==> Valid()
    {
      if selectedIndex.Some? {
        var sel := selectedIndex.value;
        if sel < |filteredTodos| {
          var selectedTodo := filteredTodos[sel];
          var originalIndex := Position(todos, selectedTodo);
          if originalIndex.Some? && inputBuffer != [] {
            if Valid() {
              SaveEditSpec(Model(), sel);
            }
            todos := todos[originalIndex.value := inputBuffer];
            FilterTodos();
          }
        }
      }
    }

    /**
     * Only Editing mode calls it; called with the confirmation popup showing it
     * would leave the popup flag set in Normal mode.
     */
    method CancelEdit()
      modifies this
      ensures Model() == AppSpec.CancelEdit(old(Model()))
      ensures old(Valid()) && old(inputMode) != Confirming ==> Valid()
    {
      inputBuffer := "";
      inputMode := Normal;
    }

    /** One key press: the `match app.input_mode` of `run_app`. */
    method Step(key: Key) returns (outcome: Outcome)
      modifies this
      ensures (outcome, Model()) == Transition(old(Model()), key)
      ensures old(Valid()) ==> Valid()
    {
      if Valid() {
        TransitionInv(Model(), key);
      }
      outcome := Continue;
      match inputMode {
        case Normal =>
          if key == Char('q') || key == Esc {
            outcome := Quit;
          } else if key == Char('/') {
            inputMode := Searching;
          } else if key == Char('a') {
            inputMode := Adding;
            inputBuffer := "";
          } else if key == Char('r') || key == Char('d') {
            StartDeleteConfirmation();
          } else if key == Char('i') {
            if selectedIndex.Some? {
              StartEditing();
            }
          } else if IsDownKey(key) {
            if DownUnderflows(selectedIndex, |filteredTodos|) {
              outcome := Panic;
            } else {
              MoveSelectionDown();
            }
          } else if IsUpKey(key) {
            if UpUnderflows(selectedIndex, |filteredTodos|) {
              outcome := Panic;
            } else {
              MoveSelectionUp();
            }
          }
        case Searching =>
          match key {
            case Enter =>
              inputMode := Normal;
            case Esc =>
              inputMode := Normal;
              searchInput := "";
              FilterTodos();
            case Char(c) =>
              searchInput := searchInput + [c];
              FilterTodos();
            case Backspace =>
              searchInput := Pop(searchInput);
              FilterTodos();
            case _ =>
          }
        case Adding =>
          match key {
            case Enter =>
              AddTodo();
              inputMode := Normal;
            case Esc =>
              inputMode := Normal;
              inputBuffer := "";
            case Char(c) =>
              inputBuffer := inputBuffer + [c];
            case Backspace =>
              inputBuffer := Pop(inputBuffer);
            case _ =>
          }
        case Confirming =>
          if key == Char('y') {
            DeleteSelectedTodo();
            CancelDelete();
          } else if key == Char('n') || key == Esc {
            CancelDelete();
          }
        case Editing =>
          match key {
            case Enter =>
              SaveEdit();
            case Esc =>
              CancelEdit();
            case Char(c) =>
              inputBuffer := inputBuffer + [c];
            case Backspace =>
              inputBuffer := Pop(inputBuffer);
            case _ =>
          }
      }
    }

    /**
     * The loop of `run_app` over the key presses `keys`: it stops at the first
     * quit or panic, or when the keys run out.
     */
    method Run(keys: seq<Key>) returns (outcome: Outcome, consumed: nat)
      modifies this
      ensures (outcome, consumed, Model()) == Replay(old(Model()), keys)
      ensures old(Valid()) ==> Valid()
    {
      ghost var goal := Replay(Model(), keys);
      ghost var valid0 := Valid();
      outcome, consumed := Continue, 0;
      while outcome == Continue && consumed < |keys|
        invariant consumed <= |keys|
        invariant valid0 ==> Valid()
        invariant outcome == Continue ==>
          var r := Replay(Model(), keys[consumed..]);
          goal == (r.0, r.1 + consumed, r.2)
        invariant outcome != Continue ==> (outcome, consumed, Model()) == goal
        decreases |keys| - consumed, if outcome == Continue then 1 else 0
      {
        ghost var before := Model();
        outcome := Step(keys[consumed]);
        ReplayTurn(goal, before, outcome, Model(), keys, consumed);
        consumed := consumed + 1;
      }
    }
  }
}
