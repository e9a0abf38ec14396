/** Option, as the extension's code uses `null` / `undefined`. */
module Wrappers {
  datatype Option<+T> = None | Some(value: T)
}

/**
 * The few JavaScript string operations the extractor and the popup rely on:
 * `trim`, `includes`, `startsWith`, `split('/')`, `replace(string, '')`,
 * ASCII `toLowerCase` and `String(n)` for integers.
 */
module Text {
  import opened Wrappers

  /** ECMAScript WhiteSpace and LineTerminator code points: what `trim` removes. */
  predicate IsSpace(c: char) {
    c == '\t' || c == '\n' || c == '\U{000B}' || c == '\U{000C}' || c == '\r' || c == ' '
    || c == '\U{00A0}' || c == '\U{1680}' || ('\U{2000}' <= c <= '\U{200A}')
    || c == '\U{2028}' || c == '\U{2029}' || c == '\U{202F}' || c == '\U{205F}'
    || c == '\U{3000}' || c == '\U{FEFF}'
  }

  /** The characters a regular-expression `.` does not match. */
  predicate IsLineTerminator(c: char) {
    c == '\n' || c == '\r' || c == '\U{2028}' || c == '\U{2029}'
  }

  /** `s.trim()`: white space removed from both ends. */
  function Trim(s: string): (r: string)
    ensures |r| <= |s|
    decreases |s|
  {
    if |s| > 0 && IsSpace(s[0]) then Trim(s[1..])
    else if |s| > 0 && IsSpace(s[|s| - 1]) then Trim(s[..|s| - 1])
    else s
  }

  /** What `trim` keeps neither starts nor ends with white space. */
  lemma {:induction false} TrimEnds(s: string)
    ensures Trim(s) == [] || (!IsSpace(Trim(s)[0]) && !IsSpace(Trim(s)[|Trim(s)| - 1]))
    decreases |s|
  {
    if |s| > 0 && IsSpace(s[0]) {
      TrimEnds(s[1..]);
    } else if |s| > 0 && IsSpace(s[|s| - 1]) {
      TrimEnds(s[..|s| - 1]);
    }
  }

  /** What `trim` keeps is a slice of its argument. */
  lemma {:induction false} TrimIsSlice(s: string)
    ensures exists i :: OccursAt(s, Trim(s), i)
    decreases |s|
  {
    if |s| > 0 && IsSpace(s[0]) {
      TrimIsSlice(s[1..]);
      var i :| OccursAt(s[1..], Trim(s[1..]), i);
      OccursInTail(s, Trim(s), i);
    } else if |s| > 0 && IsSpace(s[|s| - 1]) {
      TrimIsSlice(s[..|s| - 1]);
      var i :| OccursAt(s[..|s| - 1], Trim(s[..|s| - 1]), i);
      OccursInInit(s, Trim(s), i);
    } else {
      assert OccursAt(s, Trim(s), 0);
    }
  }

  /** Everything of `s` outside `s[i..j]` is white space. */
  ghost predicate OnlySpaceOutside(s: string, i: int, j: int) {
    && 0 <= i <= j <= |s|
    && (forall m :: 0 <= m < i ==> IsSpace(s[m]))
    && (forall m :: j <= m < |s| ==> IsSpace(s[m]))
  }

  /** `trim` removes white space and nothing else, and only at the two ends:
   *  with `TrimEnds`, this says `Trim(s)` is the longest such slice. */
  lemma {:induction false} TrimRemovesOnlySpace(s: string)
    ensures exists i, j :: OnlySpaceOutside(s, i, j) && Trim(s) == s[i..j]
    decreases |s|
  {
    if |s| > 0 && IsSpace(s[0]) {
      TrimRemovesOnlySpace(s[1..]);
      var i, j :| OnlySpaceOutside(s[1..], i, j) && Trim(s[1..]) == s[1..][i..j];
      SpaceOutsideTail(s, i, j);
    } else if |s| > 0 && IsSpace(s[|s| - 1]) {
      TrimRemovesOnlySpace(s[..|s| - 1]);
      var i, j :| OnlySpaceOutside(s[..|s| - 1], i, j) && Trim(s[..|s| - 1]) == s[..|s| - 1][i..j];
      SpaceOutsideInit(s, i, j);
    } else {
      assert OnlySpaceOutside(s, 0, |s|);
      assert Trim(s) == s[0..|s|];
    }
  }

  lemma SpaceOutsideTail(s: string, i: int, j: int)
    requires |s| > 0 && IsSpace(s[0]) && OnlySpaceOutside(s[1..], i, j)
    ensures OnlySpaceOutside(s, i + 1, j + 1) && s[1..][i..j] == s[i + 1..j + 1]
  {
    forall m | 0 < m <= i ensures IsSpace(s[m]) { assert s[m] == s[1..][m - 1]; }
    forall m | j + 1 <= m < |s| ensures IsSpace(s[m]) { assert s[m] == s[1..][m - 1]; }
  }

  lemma SpaceOutsideInit(s: string, i: int, j: int)
    requires |s| > 0 && IsSpace(s[|s| - 1]) && OnlySpaceOutside(s[..|s| - 1], i, j)
    ensures OnlySpaceOutside(s, i, j) && s[..|s| - 1][i..j] == s[i..j]
  {
    forall m | 0 <= m < i ensures IsSpace(s[m]) { assert s[m] == s[..|s| - 1][m]; }
    forall m | j <= m < |s| - 1 ensures IsSpace(s[m]) { assert s[m] == s[..|s| - 1][m]; }
  }

  lemma OccursInTail(s: string, t: string, i: int)
    requires |s| > 0 && OccursAt(s[1..], t, i)
    ensures OccursAt(s, t, i + 1)
  {
    assert s[1..][i..i + |t|] == s[i + 1..i + 1 + |t|];
  }

  lemma OccursInInit(s: string, t: string, i: int)
    requires |s| > 0 && OccursAt(s[..|s| - 1], t, i)
    ensures OccursAt(s, t, i)
  {
    assert s[..|s| - 1][i..i + |t|] == s[i..i + |t|];
  }

  /** Trimming twice is trimming once. */
  lemma TrimIdempotent(s: string)
    ensures Trim(Trim(s)) == Trim(s)
  {
    TrimEnds(s);
  }

  predicate StartsWith(s: string, p: string) {
    |p| <= |s| && s[..|p|] == p
  }

  /** `t` stands in `s` at index `i`. */
  predicate OccursAt(s: string, t: string, i: int) {
    0 <= i && i + |t| <= |s| && s[i..i + |t|] == t
  }

  /** `s.includes(t)`. */
  predicate Contains(s: string, t: string) {
    exists i | 0 <= i <= |s| - |t| :: OccursAt(s, t, i)
  }

  /** The first index at or after `from` where `t` occurs in `s`. */
  function IndexOfFrom(s: string, t: string, from: nat): (r: Option<nat>)
    requires from <= |s|
    ensures r.Some? ==> from <= r.value && OccursAt(s, t, r.value)
    ensures r.Some? ==> forall j :: from <= j < r.value ==> !OccursAt(s, t, j)
    ensures r.None? ==> forall j :: from <= j ==> !OccursAt(s, t, j)
    decreases |s| - from
  {
    if |s| - from < |t| then None
    else if s[from..from + |t|] == t then Some(from)
    else if from == |s| then None
    else IndexOfFrom(s, t, from + 1)
  }

  function IndexOf(s: string, t: string): (r: Option<nat>)
    ensures r.Some? <==> Contains(s, t)
    ensures r.Some? ==> OccursAt(s, t, r.value)
    ensures r.Some? ==> forall j :: 0 <= j < r.value ==> !OccursAt(s, t, j)
  {
    IndexOfFrom(s, t, 0)
  }

  /** `s.replace(t, '')` with a string pattern: only the first occurrence goes. */
  function RemoveFirst(s: string, t: string): (r: string)
    ensures !Contains(s, t) ==> r == s
    ensures Contains(s, t) ==> |r| == |s| - |t|
    ensures forall i :: OccursAt(s, t, i) && (forall j :: 0 <= j < i ==> !OccursAt(s, t, j)) ==>
      r == s[..i] + s[i + |t|..]
  {
    match IndexOf(s, t)
    case None => s
    case Some(i) => s[..i] + s[i + |t|..]
  }

  /** `s.split('/')` for a one-character separator. */
  function Split(s: string, sep: char): (parts: seq<string>)
    ensures |parts| >= 1
    ensures forall k :: 0 <= k < |parts| ==> sep !in parts[k]
    decreases |s|
  {
    if sep !in s then [s]
    else
      var i := FirstIndexOfChar(s, sep);
      [s[..i]] + Split(s[i + 1..], sep)
  }

  function FirstIndexOfChar(s: string, c: char): (i: nat)
    requires c in s
    ensures i < |s| && s[i] == c && c !in s[..i]
  {
    if s[0] == c then 0 else 1 + FirstIndexOfChar(s[1..], c)
  }

  function Join(parts: seq<string>, sep: char): string {
    if |parts| == 0 then ""
    else if |parts| == 1 then parts[0]
    else parts[0] + [sep] + Join(parts[1..], sep)
  }

  /** Splitting loses nothing: joining the parts back gives the path. */
  lemma {:induction false} SplitJoin(s: string, sep: char)
    ensures Join(Split(s, sep), sep) == s
    decreases |s|
  {
    if sep in s {
      var i := FirstIndexOfChar(s, sep);
      var rest := Split(s[i + 1..], sep);
      var parts := Split(s, sep);
      assert parts == [s[..i]] + rest;
      assert parts[1..] == rest;
      assert Join(parts, sep) == s[..i] + [sep] + Join(rest, sep);
      SplitJoin(s[i + 1..], sep);
      assert s == s[..i] + [sep] + s[i + 1..];
    }
  }

  /** A first part free of the separator splits off as one part. */
  lemma SplitCons(a: string, sep: char, b: string)
    requires sep !in a
    ensures Split(a + [sep] + b, sep) == [a] + Split(b, sep)
  {
    var s := a + [sep] + b;
    assert s[|a|] == sep;
    var i := FirstIndexOfChar(s, sep);
    assert i == |a|;
    assert s[..i] == a;
    assert s[i + 1..] == b;
  }

  /** Joining separator-free parts and splitting again gives the parts back. */
  lemma {:induction false} JoinSplit(parts: seq<string>, sep: char)
    requires |parts| >= 1
    requires forall k :: 0 <= k < |parts| ==> sep !in parts[k]
    ensures Split(Join(parts, sep), sep) == parts
    decreases |parts|
  {
    if |parts| > 1 {
      JoinSplit(parts[1..], sep);
      SplitCons(parts[0], sep, Join(parts[1..], sep));
      assert parts == [parts[0]] + parts[1..];
    }
  }

  /** `parts.indexOf(x)`, with -1 when absent. */
  function IndexOfElement(parts: seq<string>, x: string): (r: int)
    ensures -1 <= r < |parts|
    ensures r >= 0 ==> parts[r] == x && x !in parts[..r]
    ensures r == -1 <==> x !in parts
  {
    if |parts| == 0 then -1
    else if parts[0] == x then 0
    else
      var r := IndexOfElement(parts[1..], x);
      if r == -1 then -1
      else
        assert parts[..r + 1] == [parts[0]] + parts[1..][..r];
        r + 1
  }

  function LowerAscii(c: char): char {
    if 'A' <= c <= 'Z' then (c as int - 'A' as int + 'a' as int) as char else c
  }

  /** `s.toLowerCase()` restricted to ASCII letters. */
  function ToLower(s: string): (r: string)
    ensures |r| == |s|
    ensures forall i :: 0 <= i < |s| ==> r[i] == LowerAscii(s[i])
  {
    if |s| == 0 then "" else [LowerAscii(s[0])] + ToLower(s[1..])
  }

  function DigitChar(d: nat): char
    requires d < 10
  {
    ('0' as int + d) as char
  }

  function NatToString(n: nat): (r: string)
    ensures |r| >= 1
    ensures forall i :: 0 <= i < |r| ==> '0' <= r[i] <= '9'
  {
    if n < 10 then [DigitChar(n)] else NatToString(n / 10) + [DigitChar(n % 10)]
  }

  /** The number a string of decimal digits denotes, most significant first. */
  function DigitsValue(s: string): int
    decreases |s|
  {
    if |s| == 0 then 0 else DigitsValue(s[..|s| - 1]) * 10 + (s[|s| - 1] as int - '0' as int)
  }

  /** Reading the digits back gives the number: `String(n)` denotes `n`. */
  lemma {:induction false} NatToStringValue(n: nat)
    ensures DigitsValue(NatToString(n)) == n
  {
    var r := NatToString(n);
    if n < 10 {
      assert r[..0] == [];
    } else {
      NatToStringValue(n / 10);
      assert r[..|r| - 1] == NatToString(n / 10);
    }
  }

  /** Different numbers print differently. */
  lemma NatToStringInjective(a: nat, b: nat)
    ensures NatToString(a) == NatToString(b) ==> a == b
  {
    NatToStringValue(a);
    NatToStringValue(b);
  }

  /** `String(n)` for an integer well inside the range JavaScript prints without an exponent. */
  function IntToString(n: int): string {
    if n < 0 then "-" + NatToString(-n) else NatToString(n)
  }
}
