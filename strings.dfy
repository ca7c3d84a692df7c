/** The JavaScript string operations the client relies on, restated over
    `seq<char>`: `includes`, ASCII `toLowerCase`/`toUpperCase`, `trim`,
    `split` on a one-character separator and `replace` of a one-character
    string pattern (first occurrence only). */
module Strings {

  predicate IsPrefix(p: string, s: string) {
    |p| <= |s| && s[..|p|] == p
  }

  /** `s.includes(t)`. */
  predicate Contains(s: string, t: string)
    decreases |s|
  {
    IsPrefix(t, s) || (s != [] && Contains(s[1..], t))
  }

  /** `t` occurs in `s` starting at index `i`. */
  predicate OccursAt(s: string, t: string, i: int) {
    0 <= i <= |s| - |t| && s[i..i + |t|] == t
  }

  /** `includes` holds exactly when `t` occurs at some position of `s`. */
  lemma {:induction false} ContainsAt(s: string, t: string)
    ensures Contains(s, t) <==> exists i :: OccursAt(s, t, i)
    decreases |s|
  {
    if s != [] {
      ContainsAt(s[1..], t);
      if Contains(s[1..], t) {
        var i :| OccursAt(s[1..], t, i);
        assert OccursAt(s, t, i + 1);
      }
      if exists i :: OccursAt(s, t, i) {
        var i :| OccursAt(s, t, i);
        if i > 0 {
          assert OccursAt(s[1..], t, i - 1);
        }
      }
    }
    if IsPrefix(t, s) {
      assert OccursAt(s, t, 0);
    }
  }

  /** A string never includes a longer one. */
  lemma LongerNotContained(s: string, t: string)
    requires |t| > |s|
    ensures !Contains(s, t)
  {
    ContainsAt(s, t);
  }

  /** Every string includes the empty string. */
  lemma ContainsEmpty(s: string)
    ensures Contains(s, "")
  {
  }

  function LowerChar(c: char): char {
    if 'A' <= c <= 'Z' then (c as int + 32) as char else c
  }

  function UpperChar(c: char): char {
    if 'a' <= c <= 'z' then (c as int - 32) as char else c
  }

  /** `toLowerCase`, restricted to ASCII letters. */
  function Lower(s: string): (r: string)
    ensures |r| == |s|
    ensures forall i :: 0 <= i < |s| ==> r[i] == LowerChar(s[i])
  {
    seq(|s|, i requires 0 <= i < |s| => LowerChar(s[i]))
  }

  /** `toUpperCase`, restricted to ASCII letters. */
  function Upper(s: string): (r: string)
    ensures |r| == |s|
    ensures forall i :: 0 <= i < |s| ==> r[i] == UpperChar(s[i])
  {
    seq(|s|, i requires 0 <= i < |s| => UpperChar(s[i]))
  }

  /** The code points that ECMAScript's `trim` removes: WhiteSpace
      (including every space separator) and LineTerminator. */
  predicate IsWhitespace(c: char) {
    var n := c as int;
    n == 0x09 || n == 0x0A || n == 0x0B || n == 0x0C || n == 0x0D ||
    n == 0x20 || n == 0xA0 || n == 0x1680 || (0x2000 <= n <= 0x200A) ||
    n == 0x2028 || n == 0x2029 || n == 0x202F || n == 0x205F ||
    n == 0x3000 || n == 0xFEFF
  }

  predicate IsBlank(s: string) {
    forall k :: 0 <= k < |s| ==> IsWhitespace(s[k])
  }

  /** The position of the first non-whitespace character at or after `i`,
      or `|s|` when there is none. */
  function SkipBlanks(s: string, i: nat): (n: nat)
    requires i <= |s|
    ensures i <= n <= |s|
    ensures forall k :: i <= k < n ==> IsWhitespace(s[k])
    ensures n < |s| ==> !IsWhitespace(s[n])
    decreases |s| - i
  {
    if i < |s| && IsWhitespace(s[i]) then SkipBlanks(s, i + 1) else i
  }

  /** The position just after the last non-whitespace character before
      `j`, or 0 when there is none. */
  function SkipBlanksBack(s: string, j: nat): (n: nat)
    requires j <= |s|
    ensures n <= j
    ensures forall k :: n <= k < j ==> IsWhitespace(s[k])
    ensures n > 0 ==> !IsWhitespace(s[n - 1])
  {
    if j > 0 && IsWhitespace(s[j - 1]) then SkipBlanksBack(s, j - 1) else j
  }

  /** Drops leading whitespace: the result is the suffix of `s` that starts
      at its first non-whitespace character. */
  function TrimStart(s: string): (r: string)
    ensures |r| <= |s| && r == s[|s| - |r|..]
    ensures IsBlank(s[..|s| - |r|])
    ensures r == [] || !IsWhitespace(r[0])
  {
    var i := SkipBlanks(s, 0);
    assert forall k :: 0 <= k < i ==> s[..i][k] == s[k];
    s[i..]
  }

  /** Drops trailing whitespace: the result is the prefix of `s` that ends
      at its last non-whitespace character. */
  function TrimEnd(s: string): (r: string)
    ensures |r| <= |s| && r == s[..|r|]
    ensures IsBlank(s[|r|..])
    ensures r == [] || !IsWhitespace(r[|r| - 1])
  {
    var j := SkipBlanksBack(s, |s|);
    assert forall k :: j <= k < |s| ==> s[j..][k - j] == s[k];
    s[..j]
  }

  /** `s.trim()`: empty exactly when `s` is blank, and otherwise it starts
      and ends with a non-whitespace character. */
  function Trim(s: string): (r: string)
    ensures |r| <= |s|
    ensures r == [] || (!IsWhitespace(r[0]) && !IsWhitespace(r[|r| - 1]))
    ensures r == [] <==> IsBlank(s)
  {
    var i, j := SkipBlanks(s, 0), SkipBlanksBack(s, |s|);
    if i < j then s[i..j] else []
  }

  /** What `trim` removes is whitespace at the two ends and nothing else:
      the result is the infix of `s` that starts after the leading
      whitespace. */
  lemma TrimIsInfix(s: string)
    ensures var i := |s| - |TrimStart(s)|;
            i + |Trim(s)| <= |s| && Trim(s) == s[i..i + |Trim(s)|]
            && IsBlank(s[..i]) && IsBlank(s[i + |Trim(s)|..])
  {
    var i, j := SkipBlanks(s, 0), SkipBlanksBack(s, |s|);
    assert |s| - |TrimStart(s)| == i;
    BlankSlice(s, 0, i);
    if i < j {
      assert Trim(s) == s[i..j];
      BlankSlice(s, j, |s|);
    } else {
      assert Trim(s) == [];
    }
  }

  /** A stretch of whitespace positions is a blank slice. */
  lemma BlankSlice(s: string, a: nat, b: nat)
    requires a <= b <= |s|
    requires forall k :: a <= k < b ==> IsWhitespace(s[k])
    ensures IsBlank(s[a..b])
  {
    assert forall k :: 0 <= k < b - a ==> s[a..b][k] == s[a + k];
  }

  /** `s.split(sep)` for a one-character separator: consecutive, leading
      and trailing separators produce empty parts, and there is always at
      least one part. */
  function Split(s: string, sep: char): (parts: seq<string>)
    ensures |parts| >= 1
    ensures forall i :: 0 <= i < |parts| ==> sep !in parts[i]
    decreases |s|
  {
    if s == [] then [""]
    else
      var rest := Split(s[1..], sep);
      if s[0] == sep then [""] + rest
      else [[s[0]] + rest[0]] + rest[1..]
  }

  /** `parts.join(sep)`. */
  function Join(parts: seq<string>, sep: char): string
    requires |parts| >= 1
    decreases |parts|
  {
    if |parts| == 1 then parts[0] else parts[0] + [sep] + Join(parts[1..], sep)
  }

  /** Splitting loses nothing: joining the parts gives the string back. */
  lemma {:induction false} JoinSplit(s: string, sep: char)
    ensures Join(Split(s, sep), sep) == s
    decreases |s|
  {
    if s != [] {
      var rest := Split(s[1..], sep);
      JoinSplit(s[1..], sep);
      if s[0] == sep {
        assert ([""] + rest)[1..] == rest;
      } else {
        var parts := [[s[0]] + rest[0]] + rest[1..];
        if |rest| == 1 {
          assert parts == [[s[0]] + rest[0]];
        } else {
          assert parts[1..] == rest[1..];
          assert Join(rest, sep) == rest[0] + [sep] + Join(rest[1..], sep);
        }
        assert s == [s[0]] + s[1..];
      }
    }
  }

  lemma {:induction false} SplitWithoutSeparator(w: string, sep: char)
    requires sep !in w
    ensures Split(w, sep) == [w]
    decreases |w|
  {
    if w != [] {
      SplitWithoutSeparator(w[1..], sep);
      assert [w[0]] + w[1..] == w;
    }
  }

  lemma {:induction false} SplitAtSeparator(w: string, sep: char, rest: string)
    requires sep !in w
    ensures Split(w + [sep] + rest, sep) == [w] + Split(rest, sep)
    decreases |w|
  {
    var s := w + [sep] + rest;
    if w == [] {
      assert s[1..] == rest;
    } else {
      assert s[1..] == w[1..] + [sep] + rest;
      SplitAtSeparator(w[1..], sep, rest);
      assert [w[0]] + w[1..] == w;
    }
  }

  /** Joining parts that contain no separator and splitting again gives
      the parts back. */
  lemma {:induction false} SplitJoin(parts: seq<string>, sep: char)
    requires |parts| >= 1
    requires forall i :: 0 <= i < |parts| ==> sep !in parts[i]
    ensures Split(Join(parts, sep), sep) == parts
    decreases |parts|
  {
    if |parts| == 1 {
      SplitWithoutSeparator(parts[0], sep);
    } else {
      SplitJoin(parts[1..], sep);
      SplitAtSeparator(parts[0], sep, Join(parts[1..], sep));
      assert [parts[0]] + parts[1..] == parts;
    }
  }

  /** `s.replace(a, b)` with one-character string arguments: only the first
      occurrence is replaced. */
  function ReplaceFirst(s: string, a: char, b: char): (r: string)
    ensures |r| == |s|
    decreases |s|
  {
    if s == [] then []
    else if s[0] == a then [b] + s[1..]
    else [s[0]] + ReplaceFirst(s[1..], a, b)
  }

  /** `s.indexOf(a)` for a character that occurs: its first position. */
  function IndexOf(s: string, a: char): (i: nat)
    requires a in s
    ensures i < |s| && s[i] == a && a !in s[..i]
    decreases |s|
  {
    if s[0] == a then 0
    else
      var i := 1 + IndexOf(s[1..], a);
      assert s[..i] == [s[0]] + s[1..][..i - 1];
      i
  }

  /** The replacement changes exactly the first `a`, when there is one, and
      nothing else. */
  lemma {:induction false} ReplaceFirstSpec(s: string, a: char, b: char)
    ensures a !in s ==> ReplaceFirst(s, a, b) == s
    ensures a in s ==> ReplaceFirst(s, a, b) == s[..IndexOf(s, a)] + [b] + s[IndexOf(s, a) + 1..]
    decreases |s|
  {
    if s != [] && s[0] != a {
      var tail := s[1..];
      ReplaceFirstSpec(tail, a, b);
      if a in s {
        assert a in tail;
        var i := IndexOf(tail, a);
        assert IndexOf(s, a) == i + 1;
        assert s[..i + 1] == [s[0]] + tail[..i];
        assert s[i + 2..] == tail[i + 1..];
        calc {
          ReplaceFirst(s, a, b);
          [s[0]] + ReplaceFirst(tail, a, b);
          [s[0]] + (tail[..i] + [b] + tail[i + 1..]);
          s[..i + 1] + [b] + s[i + 2..];
        }
      } else {
        assert s == [s[0]] + tail;
      }
    } else if s != [] {
      assert s[..0] == [];
    }
  }
}
