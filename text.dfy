/**
 * The few Python string operations the application relies on, as functions on
 * `string`: `str.rfind` for one character, `str.rsplit(sep, 1)` and an ASCII
 * `str.lower`.
 */
module Text {

  /** Index of the last occurrence of `c` in `s`, or -1 when `c` does not occur. */
  function LastIndexOf(s: string, c: char): (r: int)
    ensures -1 <= r < |s|
    ensures r == -1 <==> c !in s
    ensures 0 <= r ==> s[r] == c && c !in s[r + 1..]
  {
    if |s| == 0 then -1
    else if s[|s| - 1] == c then |s| - 1
    else
      var r := LastIndexOf(s[..|s| - 1], c);
      assert s == s[..|s| - 1] + [s[|s| - 1]];
      assert 0 <= r ==> s[r + 1..] == s[..|s| - 1][r + 1..] + [s[|s| - 1]];
      r
  }

  /** Searching a concatenation from the right finds the occurrence in the right part first. */
  lemma {:induction false} LastIndexOfAppend(a: string, b: string, c: char)
    ensures LastIndexOf(a + b, c) == if c in b then |a| + LastIndexOf(b, c) else LastIndexOf(a, c)
    decreases |b|
  {
    if b == [] {
      assert a + b == a;
    } else {
      var init := b[..|b| - 1];
      assert (a + b)[..|a + b| - 1] == a + init;
      assert b == init + [b[|b| - 1]];
      LastIndexOfAppend(a, init, c);
    }
  }

  /** The last occurrence of `c` is the one followed by no other `c`. */
  lemma LastIndexOfSplit(stem: string, c: char, tail: string)
    requires c !in tail
    ensures LastIndexOf(stem + [c] + tail, c) == |stem|
  {
    assert stem + [c] + tail == stem + ([c] + tail);
    LastIndexOfAppend(stem, [c] + tail, c);
  }

  /**
   * `s.rsplit(sep, 1)` for a one-character separator: `[s]` when `sep` does not
   * occur, otherwise the text before and after the last `sep`.
   */
  function RSplitOnce(s: string, sep: char): (parts: seq<string>)
    ensures |parts| == if sep in s then 2 else 1
    ensures sep !in s ==> parts[0] == s
    ensures sep in s ==> s == parts[0] + [sep] + parts[1] && sep !in parts[1]
  {
    var i := LastIndexOf(s, sep);
    if i < 0 then [s]
    else
      assert s == s[..i] + [sep] + s[i + 1..];
      [s[..i], s[i + 1..]]
  }

  /** Splitting at the last separator recovers the two sides it was built from. */
  lemma RSplitOnceOf(stem: string, sep: char, tail: string)
    requires sep !in tail
    ensures RSplitOnce(stem + [sep] + tail, sep) == [stem, tail]
  {
    var s := stem + [sep] + tail;
    LastIndexOfSplit(stem, sep, tail);
    assert s[..|stem|] == stem;
    assert s[|stem| + 1..] == tail;
  }

  predicate IsUpper(c: char) { 'A' <= c <= 'Z' }

  predicate IsLower(c: char) { 'a' <= c <= 'z' }

  /** ASCII lower-casing of one character; every other character is left alone. */
  function LowerChar(c: char): (r: char)
    ensures !IsUpper(r)
    ensures IsUpper(c) ==> IsLower(r) && r as int - 'a' as int == c as int - 'A' as int
    ensures !IsUpper(c) ==> r == c
  {
    if IsUpper(c) then (c as int - 'A' as int + 'a' as int) as char else c
  }

  /** `s.lower()` restricted to ASCII: the string of the lower-cased characters. */
  function Lower(s: string): (r: string)
    ensures |r| == |s|
    ensures forall i :: 0 <= i < |s| ==> r[i] == LowerChar(s[i])
  {
    if s == [] then [] else [LowerChar(s[0])] + Lower(s[1..])
  }

  lemma LowerConcat(a: string, b: string)
    ensures Lower(a + b) == Lower(a) + Lower(b)
  {
    assert forall i :: 0 <= i < |a + b| ==> Lower(a + b)[i] == (Lower(a) + Lower(b))[i];
  }

  lemma LowerIdempotent(s: string)
    ensures Lower(Lower(s)) == Lower(s)
  {
  }

  /** Lower-casing neither creates nor removes a character that is not a letter. */
  lemma LowerKeepsNonLetter(c: char, s: string)
    requires !IsUpper(c) && !IsLower(c)
    ensures c in Lower(s) <==> c in s
  {
    if c in s {
      var i :| 0 <= i < |s| && s[i] == c;
      assert Lower(s)[i] == c;
    }
    if c in Lower(s) {
      var i :| 0 <= i < |s| && Lower(s)[i] == c;
      assert s[i] == c;
    }
  }
}
