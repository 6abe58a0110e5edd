/**
 * Case folding and substring search on strings, as the todo filter uses them
 * (`to_lowercase` and `contains` in src/main.rs).
 */
module Text {
  /** Lower-casing of one character, restricted to the ASCII letters A-Z. */
  function LowerChar(c: char): char
  {
    if 'A' <= c <= 'Z' then (c as int - 'A' as int + 'a' as int) as char else c
  }

  /** `String::to_lowercase`, character by character, for ASCII letters. */
  function Lower(s: string): (r: string)
    ensures |r| == |s|
    ensures forall i :: 0 <= i < |r| ==> !('A' <= r[i] <= 'Z')
    ensures forall i :: 0 <= i < |s| && !('A' <= s[i] <= 'Z') ==> r[i] == s[i]
  {
    seq(|s|, i requires 0 <= i < |s| => LowerChar(s[i]))
  }

  /** `needle` occurs in `hay` starting at index `i`. */
  predicate OccursAt(hay: string, needle: string, i: int)
  {
    0 <= i && i + |needle| <= |hay| && hay[i..i + |needle|] == needle
  }

  /** `str::contains` with a string pattern: try every start position from the left. */
  function Contains(hay: string, needle: string): (r: bool)
    ensures needle <= hay ==> r
    ensures r ==> |needle| <= |hay|
    decreases |hay|
  {
    if needle <= hay then true
    else if hay == [] then false
    else Contains(hay[1..], needle)
  }

  /** The scan finds `needle` exactly when it occurs somewhere in `hay`. */
  lemma {:induction false} ContainsIffOccurs(hay: string, needle: string)
    ensures Contains(hay, needle) <==> exists i :: OccursAt(hay, needle, i)
    decreases |hay|
  {
    assert OccursAt(hay, needle, 0) <==> needle <= hay;
    if needle <= hay {
    } else if hay == [] {
      assert forall i :: OccursAt(hay, needle, i) ==> i == 0;
    } else {
      var tail := hay[1..];
      ContainsIffOccurs(tail, needle);
      forall i | 0 <= i && i + |needle| <= |tail|
        ensures OccursAt(tail, needle, i) <==> OccursAt(hay, needle, i + 1)
      {
        assert tail[i..i + |needle|] == hay[i + 1..i + 1 + |needle|];
      }
      if exists i :: OccursAt(hay, needle, i) {
        var i :| OccursAt(hay, needle, i);
        assert i != 0;
        assert OccursAt(tail, needle, i - 1);
      }
    }
  }

  /** A one-character needle is contained only where that character occurs. */
  lemma ContainsChar(hay: string, c: char)
    ensures Contains(hay, [c]) <==> c in hay
  {
    ContainsIffOccurs(hay, [c]);
    if c in hay {
      var i :| 0 <= i < |hay| && hay[i] == c;
      assert OccursAt(hay, [c], i);
    }
    if Contains(hay, [c]) {
      var i :| OccursAt(hay, [c], i);
      assert hay[i..i + 1] == [c];
      assert hay[i] == c;
    }
  }

  /** A lower-case letter occurs in the lower-cased text iff it occurs in the text in either case. */
  lemma LowerHasLetter(s: string, lower: char, upper: char)
    requires 'A' <= upper <= 'Z' && LowerChar(upper) == lower
    ensures lower in Lower(s) <==> lower in s || upper in s
  {
    if lower in Lower(s) {
      var i :| 0 <= i < |s| && Lower(s)[i] == lower;
      assert s[i] == lower || s[i] == upper;
    }
    if lower in s {
      var i :| 0 <= i < |s| && s[i] == lower;
      assert Lower(s)[i] == lower;
    }
    if upper in s {
      var i :| 0 <= i < |s| && s[i] == upper;
      assert Lower(s)[i] == lower;
    }
  }
}
