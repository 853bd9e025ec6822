/** The JavaScript string operations the compiler relies on: `String.prototype.split`
    with a one-character separator and with the pattern `/\s+/`, `join`, `toLowerCase`,
    property access past the end of an array, and the `a || b` default idiom. */
module JsText {
  import opened Wrappers

  /** JavaScript `a || b` where `a` is a string that may be undefined: both `undefined`
      and the empty string are falsy and select `b`. */
  function Or(a: Option<string>, b: string): (r: string)
    ensures a.Some? && a.value != "" ==> r == a.value
    ensures a.None? || a.value == "" ==> r == b
  {
    if a.Some? && a.value != "" then a.value else b
  }

  /** `parts[k]` in JavaScript: `undefined` past the end of the array. */
  function Seg(parts: seq<string>, k: nat): (r: Option<string>)
    ensures r.Some? <==> k < |parts|
    ensures r.Some? ==> r.value == parts[k]
  {
    if k < |parts| then Some(parts[k]) else None
  }

  /** `parts.join(sep)`, for a non-empty array. */
  function Join(parts: seq<string>, sep: char): string
  {
    if |parts| == 0 then ""
    else if |parts| == 1 then parts[0]
    else parts[0] + [sep] + Join(parts[1..], sep)
  }

  /** `s.split(sep)` for a one-character separator: every occurrence of `sep` ends a
      segment, so the empty string splits to `[""]` and adjacent separators give
      empty segments. The segments never contain `sep` and joining them back gives `s`. */
  function Split(s: string, sep: char): (parts: seq<string>)
    ensures |parts| >= 1
    ensures forall i :: 0 <= i < |parts| ==> sep !in parts[i]
    ensures Join(parts, sep) == s
    decreases |s|
  {
    if |s| == 0 then [""]
    else
      var rest := Split(s[1..], sep);
      if s[0] == sep then
        var parts := [""] + rest;
        assert parts[1..] == rest;
        assert s == [sep] + s[1..];
        parts
      else
        var parts := [[s[0]] + rest[0]] + rest[1..];
        assert parts[1..] == rest[1..];
        assert s == [s[0]] + s[1..];
        parts
  }

  /** A string without the separator is a single segment. */
  lemma {:induction false} SplitWithoutSep(a: string, sep: char)
    requires sep !in a
    ensures Split(a, sep) == [a]
    decreases |a|
  {
    if |a| > 0 {
      SplitWithoutSep(a[1..], sep);
      assert [a[0]] + a[1..] == a;
    }
  }

  /** A separator-free prefix followed by the separator is split off as the first segment. */
  lemma {:induction false} SplitAfterSegment(a: string, sep: char, rest: string)
    requires sep !in a
    ensures Split(a + [sep] + rest, sep) == [a] + Split(rest, sep)
    decreases |a|
  {
    var s := a + [sep] + rest;
    if |a| == 0 {
      assert s[1..] == rest;
    } else {
      assert s[1..] == a[1..] + [sep] + rest;
      SplitAfterSegment(a[1..], sep, rest);
      assert [a[0]] + a[1..] == a;
    }
  }

  /** The other half of the round trip: splitting the join of separator-free segments
      gives the segments back. With `Split`'s own contract, a string's segments are
      exactly the separator-free sequence that joins to it. */
  lemma {:induction false} SplitJoin(parts: seq<string>, sep: char)
    requires |parts| >= 1
    requires forall i :: 0 <= i < |parts| ==> sep !in parts[i]
    ensures Split(Join(parts, sep), sep) == parts
    decreases |parts|
  {
    if |parts| == 1 {
      SplitWithoutSep(parts[0], sep);
    } else {
      SplitAfterSegment(parts[0], sep, Join(parts[1..], sep));
      SplitJoin(parts[1..], sep);
      assert [parts[0]] + parts[1..] == parts;
    }
  }

  /** The characters JavaScript's `\s` matches: WhiteSpace and LineTerminator. */
  predicate IsSpace(c: char)
  {
    || c == '\t' || c == '\n' || c == '\U{B}' || c == '\U{C}' || c == '\r' || c == ' '
    || c == '\U{A0}' || c == '\U{1680}' || ('\U{2000}' <= c <= '\U{200A}')
    || c == '\U{2028}' || c == '\U{2029}' || c == '\U{202F}' || c == '\U{205F}'
    || c == '\U{3000}' || c == '\U{FEFF}'
  }

  /** The suffix of `s` left after its leading whitespace run. */
  function DropSpaces(s: string): (r: string)
    ensures |r| <= |s| && r == s[|s| - |r|..]
    ensures r == "" || !IsSpace(r[0])
    decreases |s|
  {
    if |s| > 0 && IsSpace(s[0]) then DropSpaces(s[1..]) else s
  }

  /** What `DropSpaces` removes is whitespace only, so with its contract it removes
      exactly the leading whitespace run. */
  lemma {:induction false} DropSpacesRun(s: string)
    ensures forall i :: 0 <= i < |s| - |DropSpaces(s)| ==> IsSpace(s[i])
    decreases |s|
  {
    if |s| > 0 && IsSpace(s[0]) {
      DropSpacesRun(s[1..]);
      assert forall i :: 1 <= i < |s| - |DropSpaces(s)| ==> s[i] == s[1..][i - 1];
    }
  }

  /** `s.split(/\s+/)`: every maximal whitespace run ends a segment. Leading and
      trailing runs give one empty segment each; segments in between are never empty.
      The segments hold no whitespace; `SplitWsCollapse` fixes them exactly as the
      single-space split of `s` with each whitespace run collapsed to one space. */
  function SplitWs(s: string): (parts: seq<string>)
    ensures |parts| >= 1
    ensures forall i, k :: 0 <= i < |parts| && 0 <= k < |parts[i]| ==> !IsSpace(parts[i][k])
    ensures forall i :: 0 < i < |parts| - 1 ==> parts[i] != ""
    ensures |s| > 0 && !IsSpace(s[0]) ==> parts[0] != ""
    decreases |s|
  {
    if |s| == 0 then [""]
    else if IsSpace(s[0]) then [""] + SplitWs(DropSpaces(s[1..]))
    else
      var rest := SplitWs(s[1..]);
      [[s[0]] + rest[0]] + rest[1..]
  }

  /** `s` with every maximal whitespace run replaced by one space: the only whitespace
      left is single spaces. */
  function Collapse(s: string): (r: string)
    ensures forall i :: 0 <= i < |r| && IsSpace(r[i]) ==> r[i] == ' '
    ensures forall i :: 0 <= i < |r| - 1 ==> !(r[i] == ' ' && r[i + 1] == ' ')
    ensures |s| > 0 && !IsSpace(s[0]) ==> |r| > 0 && r[0] == s[0]
    decreases |s|
  {
    if |s| == 0 then ""
    else if IsSpace(s[0]) then " " + Collapse(DropSpaces(s[1..]))
    else [s[0]] + Collapse(s[1..])
  }

  /** Splitting on `/\s+/` is splitting on one space after collapsing whitespace runs. */
  lemma {:induction false} SplitWsCollapse(s: string)
    ensures SplitWs(s) == Split(Collapse(s), ' ')
    decreases |s|
  {
    if |s| == 0 {
    } else if IsSpace(s[0]) {
      var t := DropSpaces(s[1..]);
      SplitWsCollapse(t);
      assert (" " + Collapse(t))[1..] == Collapse(t);
    } else {
      SplitWsCollapse(s[1..]);
      assert ([s[0]] + Collapse(s[1..]))[1..] == Collapse(s[1..]);
    }
  }

  predicate IsUpperAscii(c: char)
  {
    'A' <= c <= 'Z'
  }

  function LowerChar(c: char): char
  {
    if IsUpperAscii(c) then (c as int - 'A' as int + 'a' as int) as char else c
  }

  /** `s.toLowerCase()` restricted to the ASCII letters. */
  function Lower(s: string): (r: string)
    ensures |r| == |s|
    ensures forall i :: 0 <= i < |r| ==> !IsUpperAscii(r[i])
    ensures forall i :: 0 <= i < |s| && !IsUpperAscii(s[i]) ==> r[i] == s[i]
    ensures forall i :: 0 <= i < |s| && IsUpperAscii(s[i]) ==> r[i] as int == s[i] as int + 32
  {
    seq(|s|, i requires 0 <= i < |s| => LowerChar(s[i]))
  }
}
