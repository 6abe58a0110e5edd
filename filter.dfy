/**
 * The search filter of `filter_todos` (src/main.rs:107-118): keep, in order,
 * the todos whose lower-cased text contains the lower-cased search input.
 */
module Filter {
  import opened Text
  import opened Lists

  /** `todo` is kept under an already lower-cased search term. */
  predicate Matches(todo: string, term: string)
  {
    Contains(Lower(todo), term)
  }

  /** `todo` is shown while the search input is `search`. */
  predicate Visible(todo: string, search: string)
  {
    Matches(todo, Lower(search))
  }

  /** The iterator chain `iter().filter(..).cloned().collect()`. */
  function Select(todos: seq<string>, term: string): (r: seq<string>)
    ensures |r| <= |todos|
  {
    if todos == [] then []
    else if Matches(todos[0], term) then [todos[0]] + Select(todos[1..], term)
    else Select(todos[1..], term)
  }

  /** The filtered list: a copy of all todos when the search input is empty. */
  function Filtered(todos: seq<string>, search: string): (r: seq<string>)
    ensures search == [] ==> r == todos
    ensures |r| <= |todos|
  {
    if search == [] then todos else Select(todos, Lower(search))
  }

  /** `idx` is a strictly increasing list of positions of `s` that spells out `r`. */
  ghost predicate PicksOut(idx: seq<nat>, s: seq<string>, r: seq<string>)
  {
    && |idx| == |r|
    && (forall k :: 0 <= k < |idx| ==> idx[k] < |s| && r[k] == s[idx[k]])
    && (forall k, l :: 0 <= k < l < |idx| ==> idx[k] < idx[l])
  }

  /** `r` is the in-order subsequence of `s` made of exactly the elements matching `term`. */
  ghost predicate IsMatchingSubsequence(r: seq<string>, s: seq<string>, term: string)
  {
    exists idx :: PicksOut(idx, s, r) && forall i :: 0 <= i < |s| ==> (Matches(s[i], term) <==> i in idx)
  }

  /** The empty term matches everything, so the general branch agrees with the copy. */
  lemma {:induction false} SelectEmptyTerm(todos: seq<string>)
    ensures Select(todos, "") == todos
  {
    if todos != [] {
      assert "" <= Lower(todos[0]);
      SelectEmptyTerm(todos[1..]);
    }
  }

  /** Both branches of `filter_todos` are the same selection. */
  lemma FilteredIsSelect(todos: seq<string>, search: string)
    ensures Filtered(todos, search) == Select(todos, Lower(search))
  {
    if search == [] {
      assert Lower(search) == "";
      SelectEmptyTerm(todos);
    }
  }

  /** An empty search shows every todo. */
  lemma FilteredEmptySearch(todos: seq<string>)
    ensures Filtered(todos, "") == todos
  {
  }

  /** Filtering distributes over concatenation. */
  lemma {:induction false} SelectConcat(a: seq<string>, b: seq<string>, term: string)
    ensures Select(a + b, term) == Select(a, term) + Select(b, term)
  {
    if a != [] {
      assert (a + b)[1..] == a[1..] + b;
      SelectConcat(a[1..], b, term);
    } else {
      assert a + b == b;
    }
  }

  /** Filtering a single todo keeps it exactly when it matches. */
  lemma SelectSingle(x: string, term: string)
    ensures Select([x], term) == if Matches(x, term) then [x] else []
  {
    assert [x][1..] == [];
  }

  /** A todo is in the filtered list iff it is a todo that matches. */
  lemma {:induction false} SelectMembership(todos: seq<string>, term: string, x: string)
    ensures x in Select(todos, term) <==> x in todos && Matches(x, term)
  {
    if todos != [] {
      SelectMembership(todos[1..], term, x);
      assert todos == [todos[0]] + todos[1..];
    }
  }

  /** A todo is shown iff it is a todo whose lower-cased text contains the lower-cased search. */
  lemma FilteredMembership(todos: seq<string>, search: string, x: string)
    ensures x in Filtered(todos, search) <==> x in todos && Visible(x, search)
  {
    FilteredIsSelect(todos, search);
    SelectMembership(todos, Lower(search), x);
  }

  /** Every position moved one to the right. */
  function Shift(idx: seq<nat>): (r: seq<nat>)
    ensures |r| == |idx|
    ensures forall k :: 0 <= k < |idx| ==> r[k] == idx[k] + 1
  {
    seq(|idx|, k requires 0 <= k < |idx| => idx[k] + 1)
  }

  /** Positions into the tail of `s` become positions into `s`. */
  lemma ShiftPicksOut(idx: seq<nat>, s: seq<string>, r: seq<string>)
    requires s != []
    requires PicksOut(idx, s[1..], r)
    ensures PicksOut(Shift(idx), s, r)
    ensures 0 !in Shift(idx)
    ensures forall i :: 1 <= i < |s| ==> (i in Shift(idx) <==> i - 1 in idx)
  {
    var sh := Shift(idx);
    forall i | 1 <= i < |s| ensures i in sh <==> i - 1 in idx {
      if i in sh {
        var k :| 0 <= k < |sh| && sh[k] == i;
        assert idx[k] == i - 1;
      }
      if i - 1 in idx {
        var k :| 0 <= k < |idx| && idx[k] == i - 1;
        assert sh[k] == i;
      }
    }
  }

  /** Prepending position 0 to positions that are all after 0. */
  lemma ConsPicksOut(idx: seq<nat>, s: seq<string>, r: seq<string>)
    requires s != []
    requires PicksOut(idx, s, r) && 0 !in idx
    ensures PicksOut([0] + idx, s, [s[0]] + r)
  {
    forall k | 0 <= k < |idx| ensures idx[k] > 0 {
      assert idx[k] in idx;
    }
  }

  /** The positions of the todos that `Select` keeps. */
  lemma {:induction false} SelectPositions(s: seq<string>, term: string) returns (idx: seq<nat>)
    ensures PicksOut(idx, s, Select(s, term))
    ensures forall i :: 0 <= i < |s| ==> (Matches(s[i], term) <==> i in idx)
  {
    if s == [] {
      idx := [];
    } else {
      var rest := SelectPositions(s[1..], term);
      ShiftPicksOut(rest, s, Select(s[1..], term));
      var shifted := Shift(rest);
      if Matches(s[0], term) {
        ConsPicksOut(shifted, s, Select(s[1..], term));
        idx := [0] + shifted;
      } else {
        idx := shifted;
      }
      forall i | 0 <= i < |s| ensures Matches(s[i], term) <==> i in idx {
        if i > 0 {
          assert s[1..][i - 1] == s[i];
        }
      }
    }
  }

  /** The filtered list is exactly the in-order subsequence of todos that are visible. */
  lemma FilteredIsMatchingSubsequence(todos: seq<string>, search: string)
    ensures IsMatchingSubsequence(Filtered(todos, search), todos, Lower(search))
  {
    FilteredIsSelect(todos, search);
    var idx := SelectPositions(todos, Lower(search));
  }

  /** Removing a todo removes at most one element from the filtered list: one exactly when it matched. */
  lemma SelectRemoveAt(todos: seq<string>, term: string, p: nat)
    requires p < |todos|
    ensures Select(RemoveAt(todos, p), term) == Select(todos[..p], term) + Select(todos[p + 1..], term)
    ensures |Select(RemoveAt(todos, p), term)| == |Select(todos, term)| - if Matches(todos[p], term) then 1 else 0
  {
    var pre, post := todos[..p], todos[p + 1..];
    assert todos == pre + [todos[p]] + post;
    assert RemoveAt(todos, p) == pre + post;
    SelectConcat(pre + [todos[p]], post, term);
    SelectConcat(pre, [todos[p]], term);
    SelectConcat(pre, post, term);
    SelectSingle(todos[p], term);
  }

  /** Adding a todo at the end appends it to the filtered list iff it is visible. */
  lemma FilteredAppend(todos: seq<string>, search: string, x: string)
    ensures Filtered(todos + [x], search) == Filtered(todos, search) + if Visible(x, search) then [x] else []
  {
    FilteredIsSelect(todos + [x], search);
    FilteredIsSelect(todos, search);
    SelectConcat(todos, [x], Lower(search));
    SelectSingle(x, Lower(search));
  }
}
