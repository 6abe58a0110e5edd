# A verified model of the ratatui todo app's state machine

The application is a terminal todo list (src/main.rs). Its core is the `App` struct: an ordered
list of todos, a filtered view of that list under a case-insensitive search, an optional cursor into
the filtered view, a text buffer for adding and editing, and five input modes (Normal, Searching,
Adding, Editing, Confirming) between which the key handler of `run_app` moves.

This project models that core in Dafny, as the code is written:

- `text.dfy` (module `Text`): lower-casing (ASCII letters only) and `str::contains`, with the
  scanning definition proved equal to "the needle occurs at some index".
- `lists.dfy` (module `Lists`): `iter().position` (first equal element) and `Vec::remove`.
- `filter.dfy` (module `Filter`): the filter of `filter_todos`. The filtered list is proved to be
  exactly the in-order subsequence of the todos that match. The short branch taken for an empty
  search is proved to agree with the general one. After removing a todo, the filtered list is the
  filtered prefix followed by the filtered suffix. After appending one, the filtered list gains it
  at the end exactly when it matches.
- `cursor.dfy` (module `Cursor`): cyclic cursor movement, proved to be a rotation that comes back
  after `len` presses, and the clamp `filter_todos` applies after filtering.
- `app_spec.dfy` (module `AppSpec`): the fields of `App` as a value `AppState` (also the snapshot the
  renderer draws). It has one function per `App` method and `Transition` for the key dispatch of one
  key press. `Replay` is the event loop over a sequence of key presses, stopping at a quit or a panic.
  The lemmas prove what each operation does and that every key press keeps the invariant `Inv`.
- `app.dfy` (module `TodoApp`): `class App` with the same fields. Its methods update them in place, in
  the order the Rust code does. Each method is proved to produce exactly the state the matching
  `AppSpec` function gives. `Step` is one key press and `Run` is the loop.
- `scenarios.dfy` (module `Scenarios`): concrete key sequences, starting from `App::new` or from a
  small hand-made state, that show the edge behaviour below.

## Behaviour of the code that the model keeps

Some of what the code does is easy to misread as a bug, or differs between similar keys. The
model keeps it as the code has it:

- Filtering that matches nothing leaves the cursor at `Some(0)` on an empty list instead of `None`
  (src/main.rs:124-125). So the rule "the cursor is `None` exactly when the filtered list is empty"
  fails in both directions. `Scenarios.EmptySearchThenMovePanics` reaches `Some(0)` on an empty
  list. `Scenarios.StrictCursorInvariantFails` reaches `None` with four todos shown: search "b",
  delete the only match, then clear the search with Esc. What does hold on every step is
  `Cursor.CursorOk`: the cursor is `None`, in range, or `Some(0)` on an empty list
  (`AppSpec.TransitionInv`, `AppSpec.ReplayInv`).
- `move_selection_up`/`move_selection_down` compute `len - 1` on an empty list (src/main.rs:73, 90).
  Neither method guards against an empty list, and in Rust that subtraction on `usize` panics. The
  model returns the outcome `Panic`. `Scenarios.EmptySearchThenMovePanics` shows `/ x Enter j` reaching it
  from the start state.
- Enter in Editing calls `save_edit` only (src/main.rs:425-427). The mode stays Editing and the
  buffer keeps its text. Enter in Adding, by contrast, calls `add_todo` and returns to Normal
  (src/main.rs:398-401).
- Edit and delete find their target as the first todo equal to the selected text (src/main.rs:145, 185).
  With duplicates this can be a different todo from the one under the cursor. In
  `Scenarios.EditHitsFirstDuplicate`, editing the second "a" of `["a", "b", "a"]` to "c" gives
  `["c", "b", "a"]`. In `Scenarios.DeleteHitsFirstDuplicate`, deleting it gives `["b", "a"]`.
- `i` enters Editing only when the cursor indexes a shown todo (src/main.rs:173-180), so the
  `Some(0)`-on-empty cursor does not enter Editing. `r`/`d` opens the popup for any `Some(_)` cursor
  (src/main.rs:161-166). `y` then deletes nothing.

Key presses are an abstract `Key` datatype: `Char(c)`, `Esc`, `Enter`, `Backspace`, `Up`, `Down`
and `Other` for every other key code. The event source supplies them as a sequence.

## Model

| member | source | states |
|---|---|---|
| Text.Lower | src/main.rs:111-115 | `to_lowercase` on ASCII: the length is kept, no upper-case ASCII letter is left, and every other character is unchanged |
| Text.Contains | src/main.rs:115 | `contains`: true when the needle is a prefix of the text, and only when the needle is no longer than the text (the full characterisation is `Text.ContainsIffOccurs`) |
| Text.ContainsIffOccurs | src/main.rs:115 | the left-to-right scan used for `contains` is true exactly when the needle occurs at some index of the text |
| Text.ContainsChar | src/main.rs:115 | a one-character needle is contained exactly when that character occurs in the text |
| Text.LowerHasLetter | src/main.rs:111-115 | a lower-case letter occurs in the lower-cased text iff the text holds it in upper or lower case |
| Lists.Position | src/main.rs:145 | `position` returns None iff the value is absent; otherwise an index holding the value with no equal element before it |
| Lists.RemoveAt | src/main.rs:146 | `Vec::remove` shortens the list by one, keeps the elements before the index, shifts the later ones down by one, and removes exactly one copy of the removed value from the multiset |
| Filter.SelectEmptyTerm | src/main.rs:108-117 | filtering with the empty term keeps every todo, so the `is_empty` shortcut agrees with the general filter |
| Filter.FilteredIsSelect | src/main.rs:107-118 | both branches of `filter_todos` compute the same selection under the lower-cased search |
| Filter.Select | src/main.rs:112-117 | the `filter(..).cloned().collect()` chain keeps, in order, the todos whose lower-cased text contains the term; its contract states only that the result is no longer than the todos (membership is `Filter.SelectMembership`, order `Filter.SelectPositions`) |
| Filter.Filtered | src/main.rs:107-118 | both branches of `filter_todos`: an empty search gives the todos unchanged, and the result is never longer than the todos |
| Filter.FilteredEmptySearch | src/main.rs:108-109 | an empty search shows every todo |
| Filter.SelectConcat | src/main.rs:112-117 | filtering a concatenation is the concatenation of the filtered parts |
| Filter.SelectMembership | src/main.rs:112-117 | a value is in the filtered list iff it is a todo whose lower-cased text contains the term |
| Filter.FilteredMembership | src/main.rs:107-118 | a value is shown iff it is a todo whose lower-cased text contains the lower-cased search input |
| Filter.SelectPositions | src/main.rs:112-117 | gives the strictly increasing positions that spell out the filtered list; a position is among them iff its todo matches |
| Filter.FilteredIsMatchingSubsequence | src/main.rs:107-118 | the filtered list is exactly the in-order subsequence of the todos that match the search |
| Filter.SelectRemoveAt | src/main.rs:146-147 | after removing the todo at a position, the filtered list is the filtered prefix followed by the filtered suffix, so it is one shorter if that todo matched and the same length otherwise |
| Filter.FilteredAppend | src/main.rs:135-137 | appending a todo appends it to the filtered list iff it is visible under the search |
| Cursor.MoveUp | src/main.rs:66-84 | moving up keeps an absent or in-range cursor in range; a None cursor becomes `Some(0)` on a non-empty list and stays None on an empty one, and the result is None only then |
| Cursor.MoveDown | src/main.rs:86-105 | moving down keeps an absent or in-range cursor in range; a None cursor becomes `Some(0)` on a non-empty list and stays None on an empty one, and the result is None only then |
| Cursor.MoveUpRotates | src/main.rs:66-84 | up on an in-range cursor `i` gives `(i + len - 1) mod len`, wrapping 0 to `len - 1` |
| Cursor.MoveDownRotates | src/main.rs:86-105 | down on an in-range cursor `i` gives `(i + 1) mod len`, wrapping `len - 1` to 0 |
| Cursor.Ups | src/main.rs:376 | any number of up presses keeps an in-range cursor in range |
| Cursor.Downs | src/main.rs:375 | any number of down presses keeps an in-range cursor in range |
| Cursor.UpsAdd | src/main.rs:376 | `a + b` up presses are `a` presses followed by `b` presses |
| Cursor.DownsAdd | src/main.rs:375 | `a + b` down presses are `a` presses followed by `b` presses |
| Cursor.UpsCount | src/main.rs:66-71 | `k <= i` up presses move an in-range cursor from `i` to `i - k` |
| Cursor.DownsCount | src/main.rs:86-92 | `k` down presses with `i + k < len` move the cursor from `i` to `i + k` |
| Cursor.UpsCycle | src/main.rs:66-84 | `len` up presses bring an in-range cursor back to where it started |
| Cursor.DownsCycle | src/main.rs:86-105 | `len` down presses bring an in-range cursor back to where it started |
| Cursor.Reclamp | src/main.rs:120-130 | the clamp keeps None as None and an in-range cursor as it is; a cursor at or past the end of a non-empty list goes to its last index, and any `Some` cursor goes to `Some(0)` on an empty list; the result always satisfies the weak cursor invariant |
| AppSpec.Pop | src/main.rs:391-394 | `String::pop` leaves an empty string empty and otherwise removes exactly the last character |
| AppSpec.InitialInv | src/main.rs:45-64 | the state `App::new` builds satisfies the invariant |
| AppSpec.FilterTodosInv | src/main.rs:107-131 | after `filter_todos` the filtered list is recomputed and the cursor satisfies the weak invariant; a cursor still in range is not moved |
| AppSpec.AddTodoSpec | src/main.rs:133-139 | an empty buffer changes nothing; otherwise the buffer is appended to the todos and cleared, the filtered list gains it iff it is visible, the cursor does not move, and the invariant holds |
| AppSpec.SelectedIsTodo | src/main.rs:144-145 | the selected shown todo is a todo that matches the search, so the lookup by value finds it |
| AppSpec.DeleteSelectedTodoSpec | src/main.rs:141-159 | with a cursor on a shown todo `t`, the first todo equal to `t` is removed and nothing else; todos and filtered list each shrink by one; the cursor becomes None on an empty list and otherwise the old index clamped to the new list |
| AppSpec.DeleteSelectedTodoInv | src/main.rs:141-159 | `delete_selected_todo` keeps the invariant in every state that has it |
| AppSpec.DeleteSelectedTodoNoop | src/main.rs:142-144 | without a cursor on a shown todo, delete changes nothing |
| AppSpec.SaveEditSpec | src/main.rs:182-193 | with a cursor on a shown todo and a non-empty buffer, only the first todo equal to the selected one is overwritten; the length, mode, buffer and search are unchanged, the cursor is clamped to the refiltered list, and the invariant holds |
| AppSpec.SaveEditNoop | src/main.rs:183-186 | with an empty buffer or no cursor on a shown todo, save changes nothing |
| AppSpec.StartEditingSpec | src/main.rs:173-180 | with a cursor on a shown todo, the buffer receives that todo, the mode becomes Editing and every other field is unchanged; without a cursor on a shown todo (None, or past the end) nothing changes; the invariant is kept |
| AppSpec.SearchingKeyInv | src/main.rs:379-396 | every key in Searching mode keeps the invariant |
| AppSpec.ConfirmingKeyInv | src/main.rs:414-423 | every key in Confirming mode keeps the invariant |
| AppSpec.EditingKeyInv | src/main.rs:424-438 | every key in Editing mode keeps the invariant |
| AppSpec.TransitionInv | src/main.rs:356-439 | every key press in every mode keeps the invariant, including the weak cursor invariant and the popup flag following Confirming mode |
| AppSpec.QuitIff | src/main.rs:358 | a key press quits exactly on `q` or Esc in Normal mode; a quit or a panic leaves the state as it was |
| AppSpec.PanicIff | src/main.rs:66-105 | a key press panics exactly on a move key in Normal mode whose `len - 1` underflows |
| AppSpec.PanicOnEmptyList | src/main.rs:375-376 | under the invariant a move key panics exactly when the cursor is `Some(0)` on an empty filtered list |
| AppSpec.EditingEnterStays | src/main.rs:425-427 | Enter in Editing applies `save_edit` but leaves the mode Editing and the buffer unchanged |
| AppSpec.ConfirmingKeys | src/main.rs:414-423 | `y` deletes and returns to Normal with the popup hidden; `n` and Esc return to Normal with the todos unchanged |
| AppSpec.ConfirmationFlagChanges | src/main.rs:161-171 | the popup flag is switched on only by `r`/`d` in Normal mode with a cursor, and off only by `y`, `n` or Esc in Confirming mode |
| AppSpec.ReplayInv | src/main.rs:233-441 | the invariant, and so the weak cursor invariant, holds after any sequence of key presses, and the loop consumes at most the keys it was given |
| AppSpec.NormalMovesCycle | src/main.rs:375-376 | in Normal mode a move key applies one cursor step, and `len` presses of it bring an in-range cursor back |
| TodoApp.App.constructor | src/main.rs:45-64 | `App::new` builds the start state and it satisfies the invariant |
| TodoApp.App.MoveSelectionUp | src/main.rs:66-84 | the cursor becomes its up-move, no other field changes, and the invariant is kept |
| TodoApp.App.MoveSelectionDown | src/main.rs:86-105 | the cursor becomes its down-move, no other field changes, and the invariant is kept |
| TodoApp.App.FilterTodos | src/main.rs:107-131 | the fields become the `filter_todos` state: the filtered list recomputed and the cursor clamped |
| TodoApp.App.AddTodo | src/main.rs:133-139 | in any state, the fields become the `add_todo` state; the invariant, if it held, is kept |
| TodoApp.App.DeleteSelectedTodo | src/main.rs:141-159 | in any state, the fields become the `delete_selected_todo` state; the invariant, if it held, is kept |
| TodoApp.App.StartDeleteConfirmation | src/main.rs:161-166 | with a cursor, the mode becomes Confirming and the popup is shown; otherwise nothing changes; the invariant, if it held, is kept |
| TodoApp.App.CancelDelete | src/main.rs:168-171 | the mode becomes Normal and the popup is hidden; the invariant, if it held, is kept |
| TodoApp.App.StartEditing | src/main.rs:173-180 | in any state, the fields become the `start_editing` state; the invariant is kept when it held and the popup was not showing |
| TodoApp.App.SaveEdit | src/main.rs:182-193 | in any state, the fields become the `save_edit` state; the invariant, if it held, is kept |
| TodoApp.App.CancelEdit | src/main.rs:195-198 | the buffer is cleared and the mode becomes Normal; the invariant is kept when it held and the popup was not showing |
| TodoApp.App.Step | src/main.rs:356-439 | in any state, one key press changes the fields and sets the outcome as the dispatch table says; the invariant, if it held, is kept |
| TodoApp.App.Run | src/main.rs:233-441 | the loop over the key presses gives the outcome, the number of keys consumed and the final fields of `Replay`; the invariant, if it held, is kept |
| Scenarios.StrictCursorInvariantFails | src/main.rs:122-130 | from the start state, `/ b Enter d y / Esc` ends with four todos shown and no cursor while the invariant holds, so "None only on an empty list" fails |
| Scenarios.EmptySearchThenMovePanics | src/main.rs:122-130 | a search matching nothing leaves the cursor at `Some(0)` on an empty list, and `j` or Up then panics |
| Scenarios.AddTyped | src/main.rs:397-411 | `a x y Enter` appends "xy" at the end, returns to Normal, clears the buffer and keeps the cursor |
| Scenarios.DownWraps | src/main.rs:86-105 | down on the last of the five seeds goes to the first, and up on the first goes to the last |
| Scenarios.DeclineDelete | src/main.rs:367-421 | from the start state, `d` opens the popup (Confirming mode, flag on) and `n` closes it; the run consumes both keys, continues, and ends in the start state |
| Scenarios.EditHitsFirstDuplicate | src/main.rs:182-193 | editing the second of two equal todos overwrites the first, and Enter leaves the app in Editing |
| Scenarios.DeleteHitsFirstDuplicate | src/main.rs:141-147 | deleting the second of two equal todos removes the first, so the remaining order differs |

## Left out

- Terminal setup and teardown in `main` (raw mode, alternate screen, mouse capture, showing the cursor): terminal I/O.
- The drawing closure of `run_app` (layout, styles, list and paragraph widgets, status text, the popup): drawing is done by the UI library. The model exposes the snapshot it reads (`TodoApp.App.Model`).
- `centered_rect`: layout arithmetic inside the UI library's `Layout::split`, which is not part of this model. Its left margin uses `percent_y` where `percent_x` is evidently meant (src/main.rs:459). With the popup's arguments 60 and 30 the left margin is 35% instead of 20%, which only affects drawing.
- Reading terminal events and keeping only key presses: the model takes a sequence of `Key` values instead.
- Unicode case folding: `Text.Lower` lower-cases ASCII letters only. Rust's `to_lowercase` also folds other letters and can change the length of a string.
- Release builds: there `len - 1` on an empty list wraps to the largest `usize` and does not panic. The model follows the debug build and stops with `Panic`.
- `#[derive(Default)]` on `App`: it is never used. The program builds its state with `App::new`.
- TodoApp.App.MoveSelectionUp: requires that `len - 1` does not underflow. `Step` checks this first and reports the panic as its outcome.
- TodoApp.App.MoveSelectionDown: requires that `len - 1` does not underflow. `Step` checks this first and reports the panic as its outcome.
