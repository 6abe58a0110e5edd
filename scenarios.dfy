/**
 * Concrete key sequences through the dispatch, starting from `App::new` or from
 * a small hand-made state. They show how the code as written behaves at its edges.
 * Each trace is walked one key at a time, naming the state after every key.
 */
module Scenarios {
  import opened Options
  import opened Text
  import opened Lists
  import opened Filter
  import opened Cursor
  import opened AppSpec

  /** The seeds that are left after "Build a TUI app" is removed. */
  const Rest: seq<string> := ["Learn Rust", "Share with others", "Write documentation", "Add more features"]

  /** Filtering a list given as first element and tail. */
  lemma SelectCons(x: string, xs: seq<string>, term: string)
    ensures Select([x] + xs, term) == (if Matches(x, term) then [x] else []) + Select(xs, term)
  {
    SelectConcat([x], xs, term);
    SelectSingle(x, term);
  }

  /** Add one key in front of a replay that continues. */
  lemma ReplayStep(s: AppState, k: Key, ks: seq<Key>, t: AppState)
    requires Transition(s, k) == (Continue, t)
    ensures Replay(s, [k] + ks) == (Replay(t, ks).0, Replay(t, ks).1 + 1, Replay(t, ks).2)
  {
    assert ([k] + ks)[1..] == ks;
  }

  /** A todo matches a one-letter term iff it holds that letter in either case. */
  lemma MatchesLetter(todo: string, lower: char, upper: char)
    requires 'A' <= upper <= 'Z' && LowerChar(upper) == lower
    ensures Matches(todo, [lower]) <==> lower in todo || upper in todo
  {
    ContainsChar(Lower(todo), lower);
    LowerHasLetter(todo, lower, upper);
  }

  /** A todo with neither "b" nor "x" in either case matches neither one-letter search. */
  lemma NoBOrX(todo: string)
    requires 'b' !in todo && 'B' !in todo && 'x' !in todo && 'X' !in todo
    ensures !Matches(todo, "b") && !Matches(todo, "x")
  {
    MatchesLetter(todo, 'b', 'B');
    MatchesLetter(todo, 'x', 'X');
  }

  /** The seeds one by one, against the two searches the traces below use. */
  lemma BuildMatches()
    ensures Matches("Build a TUI app", "b") && !Matches("Build a TUI app", "x")
  {
    MatchesLetter("Build a TUI app", 'b', 'B');
    MatchesLetter("Build a TUI app", 'x', 'X');
  }

  // One lemma per seed: checking that a string literal lacks a letter is costly, so
  // each literal is checked on its own, apart from the traces that use the result.

  lemma LearnRustNoBOrX()
    ensures !Matches("Learn Rust", "b") && !Matches("Learn Rust", "x")
  {
    NoBOrX("Learn Rust");
  }

  lemma ShareNoBOrX()
    ensures !Matches("Share with others", "b") && !Matches("Share with others", "x")
  {
    NoBOrX("Share with others");
  }

  lemma WriteNoBOrX()
    ensures !Matches("Write documentation", "b") && !Matches("Write documentation", "x")
  {
    NoBOrX("Write documentation");
  }

  lemma FeaturesNoBOrX()
    ensures !Matches("Add more features", "b") && !Matches("Add more features", "x")
  {
    NoBOrX("Add more features");
  }

  /** Three todos none of which matches filter to nothing. */
  lemma SelectNoneOfThree(x: string, y: string, z: string, term: string)
    requires !Matches(x, term) && !Matches(y, term) && !Matches(z, term)
    ensures Select([x, y, z], term) == []
  {
    assert [x, y, z] == [x] + ([y] + ([z] + []));
    SelectCons(z, [], term);
    SelectCons(y, [z], term);
    SelectCons(x, [y, z], term);
  }

  /** The last three seeds: none contains "b" or "x". */
  lemma TailFilters(x: string, y: string, z: string, term: string)
    requires x == "Share with others" && y == "Write documentation" && z == "Add more features"
    requires term == "b" || term == "x"
    ensures Select([x, y, z], term) == []
  {
    ShareNoBOrX();
    WriteNoBOrX();
    FeaturesNoBOrX();
    SelectNoneOfThree(x, y, z, term);
  }

  /** Searching the seeds for "b" shows only "Build a TUI app". */
  lemma SeedsFilterB()
    ensures Filtered(Seeds, "b") == ["Build a TUI app"]
  {
    var sh := ["Share with others", "Write documentation", "Add more features"];
    var bu := ["Build a TUI app"] + sh;
    assert Seeds == ["Learn Rust"] + bu;
    assert Lower("b") == "b";
    LearnRustNoBOrX();
    BuildMatches();
    TailFilters("Share with others", "Write documentation", "Add more features", "b");
    SelectCons("Build a TUI app", sh, "b");
    SelectCons("Learn Rust", bu, "b");
  }

  /** Searching the seeds for "x" shows nothing. */
  lemma SeedsFilterX()
    ensures Filtered(Seeds, "x") == []
  {
    var sh := ["Share with others", "Write documentation", "Add more features"];
    var bu := ["Build a TUI app"] + sh;
    assert Seeds == ["Learn Rust"] + bu;
    assert Lower("x") == "x";
    LearnRustNoBOrX();
    BuildMatches();
    TailFilters("Share with others", "Write documentation", "Add more features", "x");
    SelectCons("Build a TUI app", sh, "x");
    SelectCons("Learn Rust", bu, "x");
  }

  /** Without "Build a TUI app", searching for "b" shows nothing. */
  lemma RestFilterB()
    ensures Filtered(Rest, "b") == []
  {
    var sh := ["Share with others", "Write documentation", "Add more features"];
    assert Rest == ["Learn Rust"] + sh;
    assert Lower("b") == "b";
    LearnRustNoBOrX();
    TailFilters("Share with others", "Write documentation", "Add more features", "b");
    SelectCons("Learn Rust", sh, "b");
  }

  /** The dispatch, one mode at a time, for states that are not written out. */
  lemma TransitionInMode(s: AppState, key: Key)
    ensures s.inputMode == Normal ==> Transition(s, key) == NormalKey(s, key)
    ensures s.inputMode == Searching ==> Transition(s, key) == (Continue, SearchingKey(s, key))
    ensures s.inputMode == Confirming ==> Transition(s, key) == (Continue, ConfirmingKey(s, key))
  {
  }

  /** The searching keys that change the search input. */
  lemma SearchingEdits(s: AppState, c: char)
    ensures SearchingKey(s, Char(c)) == FilterTodos(s.(searchInput := s.searchInput + [c]))
    ensures SearchingKey(s, Esc) == FilterTodos(s.(inputMode := Normal, searchInput := ""))
    ensures SearchingKey(s, Enter) == s.(inputMode := Normal)
  {
  }

  /** The first three keys of the search traces: `/`, a letter, Enter. */
  lemma SearchLetter(s0: AppState, c: char, shown: seq<string>)
    requires s0 == Initial() && Filtered(Seeds, [c]) == shown && |shown| <= 1
    ensures Replay(s0, [Char('/'), Char(c), Enter]) ==
      (Continue, 3, s0.(searchInput := [c], filteredTodos := shown, selectedIndex := Some(0)))
  {
    var s1 := s0.(inputMode := Searching);
    var s2 := s1.(searchInput := [c], filteredTodos := shown, selectedIndex := Some(0));
    var s3 := s2.(inputMode := Normal);
    TransitionInMode(s0, Char('/'));
    assert Transition(s0, Char('/')) == (Continue, s1);
    TransitionInMode(s1, Char(c));
    SearchingEdits(s1, c);
    assert s1.searchInput + [c] == [c];
    assert Transition(s1, Char(c)) == (Continue, s2);
    TransitionInMode(s2, Enter);
    SearchingEdits(s2, c);
    assert Transition(s2, Enter) == (Continue, s3);
    ReplayStep(s2, Enter, [], s3);
    ReplayStep(s1, Char(c), [Enter], s2);
    ReplayStep(s0, Char('/'), [Char(c), Enter], s1);
  }

  /** "Build a TUI app" is the second seed. */
  lemma BuildIsSecond()
    ensures Position(Seeds, "Build a TUI app") == Some(1)
  {
  }

  /** Removing the second seed leaves `Rest`. */
  lemma RemoveSecondSeed()
    ensures RemoveAt(Seeds, 1) == Rest
  {
    assert Seeds == ["Learn Rust"] + ["Build a TUI app"] + Seeds[2..];
    assert Seeds[2..] == Rest[1..];
  }

  /** Deleting the one todo shown under "b" leaves nothing shown and nothing selected. */
  lemma DeleteBuild(s4: AppState)
    requires s4 == AppState(Confirming, "b", Seeds, ["Build a TUI app"], Some(0), "", true)
    ensures DeleteSelectedTodo(s4) == AppState(Confirming, "b", Rest, [], None, "", true)
  {
    RestFilterB();
    BuildIsSecond();
    RemoveSecondSeed();
  }

  /** `y` in the popup on "Build a TUI app" deletes it and returns to Normal. */
  lemma ConfirmDeleteBuild(s4: AppState)
    requires s4 == AppState(Confirming, "b", Seeds, ["Build a TUI app"], Some(0), "", true)
    ensures Transition(s4, Char('y')) == (Continue, AppState(Normal, "b", Rest, [], None, "", false))
  {
    DeleteBuild(s4);
    ConfirmingKeys(s4, Char('y'));
    TransitionInMode(s4, Char('y'));
  }

  /** `d` opens the popup on the one shown todo and `y` deletes it, leaving nothing shown or selected. */
  lemma DeleteOnlyShown(s3: AppState)
    requires s3 == AppState(Normal, "b", Seeds, ["Build a TUI app"], Some(0), "", false)
    ensures Replay(s3, [Char('d'), Char('y')]) == (Continue, 2, AppState(Normal, "b", Rest, [], None, "", false))
  {
    var s4 := s3.(inputMode := Confirming, showConfirmation := true);
    var s5 := AppState(Normal, "b", Rest, [], None, "", false);
    TransitionInMode(s3, Char('d'));
    assert Transition(s3, Char('d')) == (Continue, s4);
    ConfirmDeleteBuild(s4);
    ReplayStep(s4, Char('y'), [], s5);
    ReplayStep(s3, Char('d'), [Char('y')], s4);
  }

  /** `/` then Esc clears the search: every todo is shown again and a `None` cursor stays `None`. */
  lemma ClearSearch(s5: AppState)
    requires s5 == AppState(Normal, "b", Rest, [], None, "", false)
    ensures Replay(s5, [Char('/'), Esc]) == (Continue, 2, AppState(Normal, "", Rest, Rest, None, "", false))
  {
    var s6 := s5.(inputMode := Searching);
    var s7 := AppState(Normal, "", Rest, Rest, None, "", false);
    TransitionInMode(s5, Char('/'));
    assert Transition(s5, Char('/')) == (Continue, s6);
    TransitionInMode(s6, Esc);
    SearchingEdits(s6, 'b');
    FilteredEmptySearch(Rest);
    assert Transition(s6, Esc) == (Continue, s7);
    ReplayStep(s6, Esc, [], s7);
    ReplayStep(s5, Char('/'), [Esc], s6);
  }

  /** With the cursor at `Some(0)` on an empty list, `j` and Up panic. */
  lemma MovePanics(s: AppState)
    requires s.inputMode == Normal && s.selectedIndex == Some(0) && s.filteredTodos == []
    ensures Replay(s, [Char('j')]) == (Panic, 1, s)
    ensures Replay(s, [Up]) == (Panic, 1, s)
  {
    TransitionInMode(s, Char('j'));
    TransitionInMode(s, Up);
  }

  /** Replaying two pieces one after the other, when the first keeps running. */
  lemma {:induction false} ReplayConcat(s: AppState, a: seq<Key>, b: seq<Key>)
    requires Replay(s, a).0 == Continue
    ensures
      var r, r' := Replay(s, a), Replay(Replay(s, a).2, b);
      Replay(s, a + b) == (r'.0, r.1 + r'.1, r'.2)
    decreases |a|
  {
    if a == [] {
      assert a + b == b;
    } else {
      var (o, t) := Transition(s, a[0]);
      ReplayFirst(s, a);
      ReplayFirst(s, a + b);
      assert (a + b)[0] == a[0] && (a + b)[1..] == a[1..] + b;
      ReplayConcat(t, a[1..], b);
    }
  }

  /** `/ b Enter` from the start state shows only "Build a TUI app", with the cursor on it. */
  lemma SearchB(s0: AppState)
    requires s0 == Initial()
    ensures Replay(s0, [Char('/'), Char('b'), Enter]) ==
      (Continue, 3, AppState(Normal, "b", Seeds, ["Build a TUI app"], Some(0), "", false))
  {
    SeedsFilterB();
    SearchLetter(s0, 'b', ["Build a TUI app"]);
  }

  /** `d y / Esc` on the one shown todo deletes it and then clears the search, leaving no cursor. */
  lemma DeleteThenClear(s3: AppState)
    requires s3 == AppState(Normal, "b", Seeds, ["Build a TUI app"], Some(0), "", false)
    ensures Replay(s3, [Char('d'), Char('y'), Char('/'), Esc]) ==
      (Continue, 4, AppState(Normal, "", Rest, Rest, None, "", false))
  {
    DeleteOnlyShown(s3);
    var s5 := AppState(Normal, "b", Rest, [], None, "", false);
    ClearSearch(s5);
    ReplayConcat(s3, [Char('d'), Char('y')], [Char('/'), Esc]);
    assert [Char('d'), Char('y')] + [Char('/'), Esc] == [Char('d'), Char('y'), Char('/'), Esc];
  }

  /**
   * "None only when the filtered list is empty" does not hold: search "b", leave
   * search, delete the one shown todo, then clear the search with Esc. Four todos
   * are shown and nothing is selected, while the invariant still holds.
   */
  lemma StrictCursorInvariantFails(s0: AppState, search: seq<Key>, edit: seq<Key>)
    requires s0 == Initial() && search == [Char('/'), Char('b'), Enter]
    requires edit == [Char('d'), Char('y'), Char('/'), Esc]
    ensures
      var r := Replay(s0, search + edit);
      && r.0 == Continue
      && r.2.selectedIndex == None
      && r.2.filteredTodos == Rest
      && Inv(r.2)
  {
    SearchB(s0);
    var s3 := AppState(Normal, "b", Seeds, ["Build a TUI app"], Some(0), "", false);
    DeleteThenClear(s3);
    ReplayConcat(s0, search, edit);
    InitialInv();
    ReplayInv(s0, search + edit);
  }

  /**
   * A search with no match leaves the cursor at `Some(0)` on an empty list, and
   * then `j` or Up in Normal mode underflows `len - 1`.
   */
  lemma EmptySearchThenMovePanics(s0: AppState, search: seq<Key>)
    requires s0 == Initial() && search == [Char('/'), Char('x'), Enter]
    ensures
      var r := Replay(s0, search);
      r.0 == Continue && r.2.selectedIndex == Some(0) && r.2.filteredTodos == [] && r.2.inputMode == Normal
    ensures Replay(s0, search + [Char('j')]).0 == Panic
    ensures Replay(s0, search + [Up]).0 == Panic
  {
    SeedsFilterX();
    SearchLetter(s0, 'x', []);
    var s3 := s0.(searchInput := "x", filteredTodos := [], selectedIndex := Some(0));
    MovePanics(s3);
    ReplayConcat(s0, search, [Char('j')]);
    ReplayConcat(s0, search, [Up]);
  }

  /** `a`, `x`, `y`, Enter appends "xy", returns to Normal, clears the buffer and keeps the cursor. */
  lemma AddTyped()
    ensures
      var r := Replay(Initial(), [Char('a'), Char('x'), Char('y'), Enter]);
      && r.0 == Continue && r.1 == 4
      && r.2.todos == Seeds + ["xy"] && r.2.filteredTodos == Seeds + ["xy"]
      && r.2.inputMode == Normal && r.2.inputBuffer == ""
      && r.2.selectedIndex == Some(0)
  {
    var s0 := Initial();
    var s1 := s0.(inputMode := Adding);
    var s2 := s1.(inputBuffer := "x");
    var s3 := s1.(inputBuffer := "xy");
    var s4 := AppState(Normal, "", Seeds + ["xy"], Seeds + ["xy"], Some(0), "", false);
    assert Transition(s0, Char('a')) == (Continue, s1);
    assert Transition(s1, Char('x')) == (Continue, s2) by {
      assert s1.inputBuffer + ['x'] == "x";
    }
    assert Transition(s2, Char('y')) == (Continue, s3) by {
      assert s2.inputBuffer + ['y'] == "xy";
    }
    assert Transition(s3, Enter) == (Continue, s4);
    ReplayStep(s3, Enter, [], s4);
    ReplayStep(s2, Char('y'), [Enter], s3);
    ReplayStep(s1, Char('x'), [Char('y'), Enter], s2);
    ReplayStep(s0, Char('a'), [Char('x'), Char('y'), Enter], s1);
  }

  /** From the last of the five seeds, the down key wraps around to the first. */
  lemma DownWraps()
    ensures Transition(Initial().(selectedIndex := Some(4)), Char('j')).1.selectedIndex == Some(0)
    ensures Transition(Initial().(selectedIndex := Some(4)), Down).1.selectedIndex == Some(0)
    ensures Transition(Initial(), Char('k')).1.selectedIndex == Some(4)
  {
  }

  /** `d` then `n` opens and closes the popup and leaves the todos alone. */
  lemma DeclineDelete()
    ensures Transition(Initial(), Char('d')) == (Continue, Initial().(inputMode := Confirming, showConfirmation := true))
    ensures Replay(Initial(), [Char('d'), Char('n')]) == (Continue, 2, Initial())
  {
    var s0 := Initial();
    var s1 := s0.(inputMode := Confirming, showConfirmation := true);
    assert Transition(s0, Char('d')) == (Continue, s1);
    assert Transition(s1, Char('n')) == (Continue, s0);
    ReplayStep(s1, Char('n'), [], s0);
    ReplayStep(s0, Char('d'), [Char('n')], s1);
  }

  /** A list with the same text twice; the cursor is on the second copy. */
  function Duplicates(): (s: AppState)
    ensures Inv(s)
  {
    SelectEmptyTerm(["a", "b", "a"]);
    AppState(Normal, "", ["a", "b", "a"], ["a", "b", "a"], Some(2), "", false)
  }

  /** Enter while editing the second "a" with buffer "c" overwrites the first "a". */
  lemma SaveDuplicate(s3: AppState)
    requires s3 == AppState(Editing, "", ["a", "b", "a"], ["a", "b", "a"], Some(2), "c", false)
    ensures Transition(s3, Enter) == (Continue, s3.(todos := ["c", "b", "a"], filteredTodos := ["c", "b", "a"]))
  {
    assert s3.filteredTodos[2] == "a";
    assert Position(s3.todos, "a") == Some(0);
    assert s3.todos[0 := "c"] == ["c", "b", "a"];
    SelectEmptyTerm(["c", "b", "a"]);
  }

  /**
   * Editing the second "a" to "c" overwrites the first "a" instead, and Enter
   * leaves the app in Editing mode with "c" still in the buffer.
   */
  lemma EditHitsFirstDuplicate(s0: AppState, keys: seq<Key>)
    requires s0 == Duplicates() && keys == [Char('i'), Backspace, Char('c'), Enter]
    ensures
      var r := Replay(s0, keys);
      && r.2.todos == ["c", "b", "a"]
      && r.2.inputMode == Editing && r.2.inputBuffer == "c"
  {
    var s1 := s0.(inputMode := Editing, inputBuffer := "a");
    var s2 := s1.(inputBuffer := "");
    var s3 := s1.(inputBuffer := "c");
    var s4 := s3.(todos := ["c", "b", "a"], filteredTodos := ["c", "b", "a"]);
    assert Transition(s0, Char('i')) == (Continue, s1);
    assert Transition(s1, Backspace) == (Continue, s2);
    assert Transition(s2, Char('c')) == (Continue, s3) by {
      assert s2.inputBuffer + ['c'] == "c";
    }
    SaveDuplicate(s3);
    ReplayStep(s3, Enter, [], s4);
    ReplayStep(s2, Char('c'), [Enter], s3);
    ReplayStep(s1, Backspace, [Char('c'), Enter], s2);
    ReplayStep(s0, Char('i'), [Backspace, Char('c'), Enter], s1);
  }

  /** `y` in the popup on the second "a" removes the first "a". */
  lemma ConfirmDeleteDuplicate(s1: AppState)
    requires s1 == AppState(Confirming, "", ["a", "b", "a"], ["a", "b", "a"], Some(2), "", true)
    ensures Transition(s1, Char('y')) == (Continue, AppState(Normal, "", ["b", "a"], ["b", "a"], Some(1), "", false))
  {
    TransitionInMode(s1, Char('y'));
    ConfirmingKeys(s1, Char('y'));
    assert s1.filteredTodos[2] == "a";
    assert Position(s1.todos, "a") == Some(0);
    assert RemoveAt(s1.todos, 0) == ["b", "a"];
    SelectEmptyTerm(["b", "a"]);
  }

  /** Deleting the second "a" removes the first one, so what is left is in a different order. */
  lemma DeleteHitsFirstDuplicate(s0: AppState, keys: seq<Key>)
    requires s0 == Duplicates() && keys == [Char('d'), Char('y')]
    ensures Replay(s0, keys).2.todos == ["b", "a"]
  {
    var s1 := s0.(inputMode := Confirming, showConfirmation := true);
    var s2 := AppState(Normal, "", ["b", "a"], ["b", "a"], Some(1), "", false);
    TransitionInMode(s0, Char('d'));
    assert Transition(s0, Char('d')) == (Continue, s1);
    ConfirmDeleteDuplicate(s1);
    ReplayStep(s1, Char('y'), [], s2);
    ReplayStep(s0, Char('d'), [Char('y')], s1);
    assert keys == [Char('d')] + [Char('y')];
  }
}
