/** The string operations the CSV reader applies to the file contents:
    `split('\n')`, `join('\n')` and `trim()` as JavaScript defines them. */
module TextLines {

  /** The characters `String.prototype.trim` removes: the ECMAScript WhiteSpace
      set (tab, vertical tab, form feed, space, no-break space, byte order mark
      and the Unicode space separators) and the LineTerminator set (line feed,
      carriage return, line and paragraph separators). */
  predicate IsJsWhitespace(c: char)
  {
    || c == '\t' || c == '\n' || c == '\U{B}' || c == '\U{C}' || c == '\r'
    || c == ' ' || c == '\U{A0}' || c == '\U{1680}'
    || ('\U{2000}' <= c <= '\U{200A}')
    || c == '\U{2028}' || c == '\U{2029}' || c == '\U{202F}' || c == '\U{205F}'
    || c == '\U{3000}' || c == '\U{FEFF}'
  }

  /** `s.split('\n')`: the pieces between line feeds, always at least one. */
  function Split(s: string): (parts: seq<string>)
    ensures |parts| >= 1
    ensures forall i :: 0 <= i < |parts| ==> '\n' !in parts[i]
  {
    if s == [] then [""]
    else if s[0] == '\n' then [""] + Split(s[1..])
    else
      var rest := Split(s[1..]);
      [[s[0]] + rest[0]] + rest[1..]
  }

  /** The total number of characters in `parts`. */
  function TotalLength(parts: seq<string>): nat
  {
    if parts == [] then 0 else |parts[0]| + TotalLength(parts[1..])
  }

  /** `parts.join('\n')`; the empty list joins to the empty string, and each
      separator between two pieces adds exactly one character. */
  function Join(parts: seq<string>): (r: string)
    ensures |parts| == 0 ==> r == ""
    ensures |parts| >= 1 ==> |r| == TotalLength(parts) + |parts| - 1
    ensures |parts| >= 1 ==> r[..|parts[0]|] == parts[0]
  {
    if |parts| == 0 then ""
    else if |parts| == 1 then parts[0]
    else parts[0] + "\n" + Join(parts[1..])
  }

  /** Joining the pieces of a split gives back the original text. */
  lemma {:induction false} JoinSplit(s: string)
    ensures Join(Split(s)) == s
  {
    if s != [] {
      JoinSplit(s[1..]);
      var rest := Split(s[1..]);
      if s[0] == '\n' {
        assert Split(s) == [""] + rest;
        assert ([""] + rest)[1..] == rest;
      } else if |rest| > 1 {
        assert Split(s)[1..] == rest[1..];
        assert s == [s[0]] + s[1..];
      } else {
        assert s == [s[0]] + s[1..];
      }
    }
  }

  /** A text without a line feed splits into itself alone. */
  lemma {:induction false} SplitSingleLine(a: string)
    requires '\n' !in a
    ensures Split(a) == [a]
  {
    if a != [] {
      SplitSingleLine(a[1..]);
      assert a == [a[0]] + a[1..];
    }
  }

  /** The first line feed of `a + "\n" + b` ends the first piece. */
  lemma {:induction false} SplitAtFirstNewline(a: string, b: string)
    requires '\n' !in a
    ensures Split(a + "\n" + b) == [a] + Split(b)
  {
    if a == [] {
      assert a + "\n" + b == ['\n'] + b;
      assert (['\n'] + b)[1..] == b;
    } else {
      SplitAtFirstNewline(a[1..], b);
      assert (a + "\n" + b)[1..] == a[1..] + "\n" + b;
      assert a == [a[0]] + a[1..];
    }
  }

  /** Splitting a join of line-feed-free pieces gives back the pieces. */
  lemma {:induction false} SplitJoin(parts: seq<string>)
    requires |parts| >= 1
    requires forall i :: 0 <= i < |parts| ==> '\n' !in parts[i]
    ensures Split(Join(parts)) == parts
  {
    if |parts| == 1 {
      SplitSingleLine(parts[0]);
    } else {
      SplitJoin(parts[1..]);
      SplitAtFirstNewline(parts[0], Join(parts[1..]));
    }
  }

  /** `trimStart`: drop the leading whitespace. */
  function TrimStart(s: string): (r: string)
    ensures |r| <= |s| && r == s[|s| - |r|..]
    ensures forall i :: 0 <= i < |s| - |r| ==> IsJsWhitespace(s[i])
    ensures r == [] || !IsJsWhitespace(r[0])
  {
    if s != [] && IsJsWhitespace(s[0]) then TrimStart(s[1..]) else s
  }

  /** `trimEnd`: drop the trailing whitespace. */
  function TrimEnd(s: string): (r: string)
    ensures |r| <= |s| && r == s[..|r|]
    ensures forall i :: |r| <= i < |s| ==> IsJsWhitespace(s[i])
    ensures r == [] || !IsJsWhitespace(r[|r| - 1])
  {
    if s != [] && IsJsWhitespace(s[|s| - 1]) then TrimEnd(s[..|s| - 1]) else s
  }

  /** `trim`: drop whitespace at both ends. The result is empty exactly when
      every character of `s` is whitespace. */
  function Trim(s: string): (r: string)
    ensures r == "" <==> forall i :: 0 <= i < |s| ==> IsJsWhitespace(s[i])
  {
    TrimEnd(TrimStart(s))
  }
}
