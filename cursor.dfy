/**
 * The selection cursor of the todo list: an optional index into the filtered
 * list, moved cyclically by `move_selection_up`/`move_selection_down` and
 * clamped by `filter_todos` (src/main.rs:66-130).
 */
module Cursor {
  import opened Options

  /** `move_selection_up` computes `len - 1` on `Some(0)`; on an empty list that subtraction underflows. */
  predicate UpUnderflows(sel: Option<nat>, len: nat)
  {
    sel == Some(0) && len == 0
  }

  /** `move_selection_down` computes `len - 1` for every `Some(_)`; on an empty list it underflows. */
  predicate DownUnderflows(sel: Option<nat>, len: nat)
  {
    sel.Some? && len == 0
  }

  /** The cursor is absent or points into a list of length `len`. */
  predicate InRange(sel: Option<nat>, len: nat)
  {
    sel.None? || sel.value < len
  }

  /**
   * What the code keeps true of the cursor: absent, in range, or the `Some(0)`
   * that `filter_todos` leaves behind when nothing matches.
   */
  predicate CursorOk(sel: Option<nat>, len: nat)
  {
    InRange(sel, len) || (sel == Some(0) && len == 0)
  }

  /** `move_selection_up` on a list of length `len`. */
  function MoveUp(sel: Option<nat>, len: nat): (r: Option<nat>)
    requires !UpUnderflows(sel, len)
    ensures InRange(sel, len) ==> InRange(r, len)
    ensures r.None? <==> sel.None? && len == 0
    ensures sel.None? ==> r == (if len > 0 then Some(0) else None)
  {
    match sel
    case Some(i) => if i > 0 then Some(i - 1) else Some(len - 1)
    case None => if len > 0 then Some(0) else None
  }

  /** `move_selection_down` on a list of length `len`. */
  function MoveDown(sel: Option<nat>, len: nat): (r: Option<nat>)
    requires !DownUnderflows(sel, len)
    ensures InRange(sel, len) ==> InRange(r, len)
    ensures r.None? <==> sel.None? && len == 0
    ensures sel.None? ==> r == (if len > 0 then Some(0) else None)
  {
    match sel
    case Some(i) => if i < len - 1 then Some(i + 1) else Some(0)
    case None => if len > 0 then Some(0) else None
  }

  /** On an in-range cursor, one step up is a rotation by minus one. */
  lemma MoveUpRotates(i: nat, len: nat)
    requires i < len
    ensures MoveUp(Some(i), len) == Some((i + len - 1) % len)
  {
    if i > 0 {
      assert (i + len - 1) % len == i - 1 by {
        assert i + len - 1 == (i - 1) + len;
      }
    } else {
      assert (len - 1) % len == len - 1;
    }
  }

  /** On an in-range cursor, one step down is a rotation by one. */
  lemma MoveDownRotates(i: nat, len: nat)
    requires i < len
    ensures MoveDown(Some(i), len) == Some((i + 1) % len)
  {
  }

  /** `k` presses of the up key, starting from a cursor that is in range. */
  function Ups(sel: Option<nat>, len: nat, k: nat): (r: Option<nat>)
    requires InRange(sel, len)
    ensures InRange(r, len)
  {
    if k == 0 then sel else MoveUp(Ups(sel, len, k - 1), len)
  }

  /** `k` presses of the down key, starting from a cursor that is in range. */
  function Downs(sel: Option<nat>, len: nat, k: nat): (r: Option<nat>)
    requires InRange(sel, len)
    ensures InRange(r, len)
  {
    if k == 0 then sel else MoveDown(Downs(sel, len, k - 1), len)
  }

  /** Pressing up `a + b` times is pressing it `a` times and then `b` times. */
  lemma {:induction false} UpsAdd(sel: Option<nat>, len: nat, a: nat, b: nat)
    requires InRange(sel, len)
    ensures Ups(sel, len, a + b) == Ups(Ups(sel, len, a), len, b)
  {
    if b > 0 {
      UpsAdd(sel, len, a, b - 1);
    }
  }

  /** Pressing down `a + b` times is pressing it `a` times and then `b` times. */
  lemma {:induction false} DownsAdd(sel: Option<nat>, len: nat, a: nat, b: nat)
    requires InRange(sel, len)
    ensures Downs(sel, len, a + b) == Downs(Downs(sel, len, a), len, b)
  {
    if b > 0 {
      DownsAdd(sel, len, a, b - 1);
    }
  }

  /** Without wrapping, `k` presses of up move the cursor `k` places towards the top. */
  lemma {:induction false} UpsCount(i: nat, len: nat, k: nat)
    requires i < len && k <= i
    ensures Ups(Some(i), len, k) == Some(i - k)
  {
    if k > 0 {
      UpsCount(i, len, k - 1);
    }
  }

  /** Without wrapping, `k` presses of down move the cursor `k` places towards the bottom. */
  lemma {:induction false} DownsCount(i: nat, len: nat, k: nat)
    requires i + k < len
    ensures Downs(Some(i), len, k) == Some(i + k)
  {
    if k > 0 {
      DownsCount(i, len, k - 1);
    }
  }

  /** Pressing up `len` times brings an in-range cursor back where it started. */
  lemma UpsCycle(i: nat, len: nat)
    requires i < len
    ensures Ups(Some(i), len, len) == Some(i)
  {
    UpsCount(i, len, i);
    assert Ups(Some(i), len, i + 1) == Some(len - 1);
    UpsCount(len - 1, len, len - 1 - i);
    UpsAdd(Some(i), len, i + 1, len - 1 - i);
  }

  /** Pressing down `len` times brings an in-range cursor back where it started. */
  lemma DownsCycle(i: nat, len: nat)
    requires i < len
    ensures Downs(Some(i), len, len) == Some(i)
  {
    DownsCount(i, len, len - 1 - i);
    assert Downs(Some(i), len, len - i) == Some(0);
    DownsCount(0, len, i);
    DownsAdd(Some(i), len, len - i, i);
  }

  /**
   * The clamp at the end of `filter_todos`: a cursor past the end of the new list
   * moves to its last element, or to `Some(0)` when the list is empty.
   */
  function Reclamp(sel: Option<nat>, len: nat): (r: Option<nat>)
    ensures CursorOk(r, len)
    ensures r.None? <==> sel.None?
    ensures InRange(sel, len) ==> r == sel
    ensures sel.Some? && len > 0 ==> r.value < len
    ensures sel.Some? && sel.value >= len > 0 ==> r == Some(len - 1)
    ensures sel.Some? && len == 0 ==> r == Some(0)
  {
    match sel
    case Some(selected) =>
      if selected >= len then (if len == 0 then Some(0) else Some(len - 1)) else sel
    case None => None
  }
}
