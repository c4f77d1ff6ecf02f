/**
 * The Python string and list built-ins the scrapers rely on, with their
 * exact semantics: `str.split(sep)`, `str.upper()`, `str.replace(c, "")`
 * and `list.remove(x)`.
 */
module PyText {
  import opened Options

  /* ---------------------------------------------------------------------
   * str.split(sep) with an explicit one-character separator: no trimming,
   * empty pieces kept, always at least one piece.
   * ------------------------------------------------------------------- */

  /** `sep.join(parts)`; the reference that `Split` inverts. */
  function Join(parts: seq<string>, sep: char): string
  {
    if |parts| == 0 then ""
    else if |parts| == 1 then parts[0]
    else parts[0] + [sep] + Join(parts[1..], sep)
  }

  /** `s.split(sep)`. */
  function Split(s: string, sep: char): (parts: seq<string>)
    ensures |parts| >= 1
    ensures forall i :: 0 <= i < |parts| ==> sep !in parts[i]
    decreases |s|
  {
    if |s| == 0 then [""]
    else
      var rest := Split(s[1..], sep);
      if s[0] == sep then [""] + rest
      else [[s[0]] + rest[0]] + rest[1..]
  }

  /** Splitting and joining again gives back the original string. */
  lemma {:induction false} JoinSplit(s: string, sep: char)
    ensures Join(Split(s, sep), sep) == s
    decreases |s|
  {
    if |s| > 0 {
      var rest := Split(s[1..], sep);
      JoinSplit(s[1..], sep);
      if s[0] == sep {
        assert ([""] + rest)[1..] == rest;
      } else {
        var parts := [[s[0]] + rest[0]] + rest[1..];
        assert parts[1..] == rest[1..];
        if |rest| > 1 {
          assert Join(rest, sep) == rest[0] + [sep] + Join(rest[1..], sep);
        }
        assert s == [s[0]] + s[1..];
      }
    }
  }

  /** Splitting a string that starts with a separator-free prefix `a`. */
  lemma {:induction false} SplitPrefix(a: string, b: string, sep: char)
    requires sep !in a
    ensures Split(a + b, sep) == [a + Split(b, sep)[0]] + Split(b, sep)[1..]
    decreases |a|
  {
    if |a| > 0 {
      assert (a + b)[1..] == a[1..] + b;
      assert (a + b)[0] == a[0];
      SplitPrefix(a[1..], b, sep);
      assert [a[0]] + (a[1..] + Split(b, sep)[0]) == a + Split(b, sep)[0];
    } else {
      assert a + b == b;
      assert a + Split(b, sep)[0] == Split(b, sep)[0];
    }
  }

  /** Joining separator-free pieces and splitting again gives back the pieces. */
  lemma {:induction false} SplitJoin(parts: seq<string>, sep: char)
    requires |parts| >= 1
    requires forall i :: 0 <= i < |parts| ==> sep !in parts[i]
    ensures Split(Join(parts, sep), sep) == parts
    decreases |parts|
  {
    if |parts| == 1 {
      SplitPrefix(parts[0], "", sep);
      assert parts[0] + "" == parts[0];
    } else {
      var tail := Join(parts[1..], sep);
      SplitJoin(parts[1..], sep);
      SplitPrefix(parts[0], [sep] + tail, sep);
      assert parts[0] + [sep] + tail == parts[0] + ([sep] + tail);
      assert ([sep] + tail)[1..] == tail;
      assert Split([sep] + tail, sep) == [""] + parts[1..];
      assert parts[0] + "" == parts[0];
    }
  }

  /* ---------------------------------------------------------------------
   * str.upper(), restricted to ASCII letters.
   * ------------------------------------------------------------------- */

  predicate IsLowerAscii(c: char)
  {
    'a' <= c <= 'z'
  }

  function UpperChar(c: char): char
  {
    if IsLowerAscii(c) then (c as int - 32) as char else c
  }

  /** `s.upper()`: lower-case ASCII letters become upper case, all else stays. */
  function Upper(s: string): (r: string)
    ensures |r| == |s|
    ensures forall i :: 0 <= i < |r| ==> !IsLowerAscii(r[i])
    ensures forall i :: 0 <= i < |r| ==>
              r[i] == s[i] || (IsLowerAscii(s[i]) && r[i] as int == s[i] as int - 32)
  {
    seq(|s|, i requires 0 <= i < |s| => UpperChar(s[i]))
  }

  /* ---------------------------------------------------------------------
   * str.replace(c, "") for a one-character `c`.
   * ------------------------------------------------------------------- */

  /** `s.replace(c, "")`: every occurrence of `c` deleted, the rest kept in order. */
  function DeleteChar(s: string, c: char): (r: string)
    ensures c !in r
    ensures multiset(r) == multiset(s)[c := 0]
    decreases |s|
  {
    if |s| == 0 then ""
    else
      assert s == [s[0]] + s[1..];
      (if s[0] == c then "" else [s[0]]) + DeleteChar(s[1..], c)
  }

  /** Deletion works piecewise, so the order of the kept characters is preserved. */
  lemma {:induction false} DeleteCharConcat(a: string, b: string, c: char)
    ensures DeleteChar(a + b, c) == DeleteChar(a, c) + DeleteChar(b, c)
    decreases |a|
  {
    if |a| > 0 {
      assert (a + b)[0] == a[0];
      assert (a + b)[1..] == a[1..] + b;
      DeleteCharConcat(a[1..], b, c);
    } else {
      assert a + b == b;
    }
  }

  /** A string without `c` is left unchanged. */
  lemma {:induction false} DeleteCharAbsent(s: string, c: char)
    requires c !in s
    ensures DeleteChar(s, c) == s
    decreases |s|
  {
    if |s| > 0 {
      assert s[0] != c;
      DeleteCharAbsent(s[1..], c);
      assert DeleteChar(s, c) == [s[0]] + DeleteChar(s[1..], c);
      assert s == [s[0]] + s[1..];
    }
  }

  /* ---------------------------------------------------------------------
   * list.remove(x): removes the first occurrence, ValueError when absent.
   * ------------------------------------------------------------------- */

  /** Position of the first occurrence of `x` in `s`. */
  function FirstIndex<T(==)>(s: seq<T>, x: T): (i: nat)
    requires x in s
    ensures i < |s| && s[i] == x && x !in s[..i]
  {
    if s[0] == x then 0
    else
      var j := FirstIndex(s[1..], x);
      assert s[..j + 1] == [s[0]] + s[1..][..j];
      j + 1
  }

  /** `s.remove(x)` on a copy of `s`; `None` stands for the ValueError raised when `x` is absent. */
  function ListRemove<T(==)>(s: seq<T>, x: T): (r: Option<seq<T>>)
    ensures r.None? <==> x !in s
    ensures r.Some? ==> |r.value| == |s| - 1
    decreases |s|
  {
    if |s| == 0 then None
    else if s[0] == x then Some(s[1..])
    else
      match ListRemove(s[1..], x)
      case None => None
      case Some(t) => Some([s[0]] + t)
  }

  /** Removal cuts out exactly the first occurrence and keeps everything else in order. */
  lemma {:induction false} ListRemoveFirst<T>(s: seq<T>, x: T)
    requires x in s
    ensures ListRemove(s, x) == Some(s[..FirstIndex(s, x)] + s[FirstIndex(s, x) + 1..])
    decreases |s|
  {
    if s[0] != x {
      var t := s[1..];
      assert x in t by {
        var k := FirstIndex(s, x);
        assert t[k - 1] == x;
      }
      var j := FirstIndex(t, x);
      ListRemoveFirst(t, x);
      var rest := t[..j] + t[j + 1..];
      assert ListRemove(s, x) == Some([s[0]] + rest);
      assert FirstIndex(s, x) == j + 1;
      assert s[..j + 1] == [s[0]] + t[..j];
      assert s[j + 2..] == t[j + 1..];
      assert s[..j + 1] + s[j + 2..] == [s[0]] + rest;
    } else {
      assert FirstIndex(s, x) == 0;
      assert s[..0] + s[1..] == s[1..];
    }
  }

  /** Removal takes away exactly one copy of `x` and nothing else. */
  lemma ListRemoveMultiset<T>(s: seq<T>, x: T)
    requires x in s
    ensures ListRemove(s, x).Some?
    ensures multiset(ListRemove(s, x).value) == multiset(s) - multiset{x}
  {
    var i := FirstIndex(s, x);
    ListRemoveFirst(s, x);
    var before, after := s[..i], s[i + 1..];
    assert s == before + [x] + after;
    assert multiset(s) == multiset(before) + multiset{x} + multiset(after);
    assert multiset(before + after) == multiset(before) + multiset(after);
  }
}
