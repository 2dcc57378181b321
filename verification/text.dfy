/** The few JavaScript string operations the core relies on, over `string`
    (a sequence of characters): `split("\n")`, `trim()`, `startsWith`, and the
    decimal rendering of a number inside a template literal. */
module Text {
  import opened Wrappers

  const Newline: char := '\n'

  /** The characters ECMAScript's `String.prototype.trim` removes: the
      WhiteSpace and LineTerminator code points of the language grammar. */
  predicate IsWhitespace(c: char) {
    || c == '\t' || c == '\U{000B}' || c == '\U{000C}' || c == ' '
    || c == '\U{00A0}' || c == '\U{FEFF}' || c == '\U{1680}'
    || ('\U{2000}' <= c <= '\U{200A}')
    || c == '\U{202F}' || c == '\U{205F}' || c == '\U{3000}'
    || c == '\n' || c == '\r' || c == '\U{2028}' || c == '\U{2029}'
  }

  predicate AllWhitespace(s: string) {
    forall i :: 0 <= i < |s| ==> IsWhitespace(s[i])
  }

  predicate StartsWith(s: string, prefix: string) {
    |prefix| <= |s| && s[..|prefix|] == prefix
  }

  /** Lines each followed by a newline: the text a sequence of complete
      lines occupies in a stream. */
  function Unlines(lines: seq<string>): string {
    if lines == [] then "" else lines[0] + [Newline] + Unlines(lines[1..])
  }

  predicate NoNewlines(lines: seq<string>) {
    forall i :: 0 <= i < |lines| ==> Newline !in lines[i]
  }

  /** The position of the first newline of a text that has one. */
  function FirstNewline(s: string): (i: nat)
    requires Newline in s
    ensures i < |s| && s[i] == Newline
  {
    if s[0] == Newline then 0 else FirstNewline(s[1..]) + 1
  }

  /** No newline comes before the first one. */
  lemma {:induction false} FirstNewlineIsFirst(s: string)
    requires Newline in s
    ensures forall j :: 0 <= j < FirstNewline(s) ==> s[j] != Newline
  {
    if s[0] != Newline {
      FirstNewlineIsFirst(s[1..]);
    }
  }

  /** `s.split("\n")`: the pieces between newlines. There is always one more
      piece than there are newlines; the last piece is whatever follows the
      last newline (possibly empty). `SplitRebuilds` states what the pieces
      are. */
  function Split(s: string): (pieces: seq<string>)
    ensures |pieces| >= 1
    decreases |s|
  {
    if Newline !in s then [s]
    else
      var i := FirstNewline(s);
      [s[..i]] + Split(s[i + 1..])
  }

  /** The pieces of `Split` hold no newline, and putting each newline back
      behind every piece but the last gives the text that was split. */
  lemma {:induction false} SplitRebuilds(s: string)
    ensures NoNewlines(Split(s))
    ensures Unlines(Split(s)[..|Split(s)| - 1]) + Split(s)[|Split(s)| - 1] == s
    decreases |s|
  {
    if Newline in s {
      var i := FirstNewline(s);
      FirstNewlineIsFirst(s);
      SplitRebuilds(s[i + 1..]);
      RebuildAfterFirstLine(s, i, Split(s[i + 1..]));
    }
  }

  /** The inductive step of `SplitRebuilds`: the first line, then the
      pieces of the rest. */
  lemma RebuildAfterFirstLine(s: string, i: nat, rest: seq<string>)
    requires i < |s| && s[i] == Newline
    requires forall j :: 0 <= j < i ==> s[j] != Newline
    requires |rest| >= 1 && NoNewlines(rest)
    requires Unlines(rest[..|rest| - 1]) + rest[|rest| - 1] == s[i + 1..]
    ensures var pieces := [s[..i]] + rest;
      NoNewlines(pieces) && Unlines(pieces[..|pieces| - 1]) + pieces[|pieces| - 1] == s
  {
    var line := s[..i];
    assert forall j :: 0 <= j < i ==> line[j] == s[j];
    assert Newline !in line;
    var pieces := [line] + rest;
    assert pieces[..|pieces| - 1] == [line] + rest[..|rest| - 1];
    assert Unlines(pieces[..|pieces| - 1]) == line + [Newline] + Unlines(rest[..|rest| - 1]);
    assert s == line + [Newline] + s[i + 1..];
  }

  /** `s.trimStart()`: drops the leading whitespace. */
  function TrimStart(s: string): (r: string)
    ensures |r| <= |s|
  {
    if |s| > 0 && IsWhitespace(s[0]) then TrimStart(s[1..]) else s
  }

  /** `s.trimEnd()`: drops the trailing whitespace. */
  function TrimEnd(s: string): (r: string)
    ensures |r| <= |s|
  {
    if |s| > 0 && IsWhitespace(s[|s| - 1]) then TrimEnd(s[..|s| - 1]) else s
  }

  /** `s.trim()`: drops whitespace at both ends and nothing else. */
  function Trim(s: string): string {
    TrimEnd(TrimStart(s))
  }

  /** What `trimStart` removes is a whitespace prefix, and what it keeps is
      the rest, starting with a non-whitespace character if anything. */
  lemma {:induction false} TrimStartSpec(s: string)
    ensures var r := TrimStart(s);
      && r == s[|s| - |r|..]
      && AllWhitespace(s[..|s| - |r|])
      && (r == "" || !IsWhitespace(r[0]))
    decreases |s|
  {
    if |s| > 0 && IsWhitespace(s[0]) {
      TrimStartSpec(s[1..]);
      var r := TrimStart(s);
      assert s[..|s| - |r|] == [s[0]] + s[1..][..|s| - 1 - |r|];
    }
  }

  /** What `trimEnd` removes is a whitespace suffix, and what it keeps is
      the rest, ending with a non-whitespace character if anything. */
  lemma {:induction false} TrimEndSpec(s: string)
    ensures var r := TrimEnd(s);
      && r == s[..|r|]
      && AllWhitespace(s[|r|..])
      && (r == "" || !IsWhitespace(r[|r| - 1]))
    decreases |s|
  {
    if |s| > 0 && IsWhitespace(s[|s| - 1]) {
      var p := s[..|s| - 1];
      TrimEndSpec(p);
      var r := TrimEnd(s);
      assert s[|r|..] == p[|r|..] + [s[|s| - 1]];
    }
  }

  /** `trim` keeps a contiguous middle part of the text, drops only
      whitespace around it, keeps no whitespace at either end, and is empty
      exactly when the text is all whitespace. */
  lemma TrimSpec(s: string)
    ensures var r := Trim(s);
      && (exists i :: 0 <= i <= |s| - |r| && r == s[i..i + |r|]
            && AllWhitespace(s[..i]) && AllWhitespace(s[i + |r|..]))
      && (r == "" || (!IsWhitespace(r[0]) && !IsWhitespace(r[|r| - 1])))
      && (r == "" <==> AllWhitespace(s))
  {
    var t := TrimStart(s);
    var r := TrimEnd(t);
    TrimStartSpec(s);
    TrimEndSpec(t);
    var i := |s| - |t|;
    assert r == s[i..i + |r|];
    assert s[i + |r|..] == t[|r|..];
    if r != "" {
      assert r[0] == t[0] == s[i];
    }
    if r == "" {
      assert s == s[..i] + t;
      assert t == t[|r|..];
    }
  }

  /** The decimal digit character for `d`. */
  function Digit(d: nat): char
    requires d < 10
  {
    (d + '0' as int) as char
  }

  /** `${n}` for a non-negative integer: its shortest decimal rendering. */
  function NatToString(n: nat): (s: string)
    ensures |s| >= 1
    ensures forall i :: 0 <= i < |s| ==> '0' <= s[i] <= '9'
    ensures |s| > 1 ==> s[0] != '0'
  {
    if n < 10 then [Digit(n)] else NatToString(n / 10) + [Digit(n % 10)]
  }

  /** The string consists of decimal digits only. */
  predicate ReadsAsDecimal(s: string) {
    forall i :: 0 <= i < |s| ==> '0' <= s[i] <= '9'
  }

  /** Reads a string of decimal digits back as a number. */
  function DecimalValue(s: string): nat
    requires ReadsAsDecimal(s)
  {
    if s == [] then 0
    else DecimalValue(s[..|s| - 1]) * 10 + (s[|s| - 1] as int - '0' as int)
  }

  /** Rendering a number in decimal loses nothing: it reads back as itself. */
  lemma {:induction false} DecimalRoundTrip(n: nat)
    ensures DecimalValue(NatToString(n)) == n
  {
    var s := NatToString(n);
    if n >= 10 {
      DecimalRoundTrip(n / 10);
      var prefix := NatToString(n / 10);
      assert s == prefix + [Digit(n % 10)];
      assert s[..|s| - 1] == prefix;
      assert (s[|s| - 1] as int - '0' as int) == n % 10;
    } else {
      assert s == [Digit(n)];
      assert s[..0] == [];
    }
  }

  /** Hence distinct numbers have distinct renderings. */
  lemma NatToStringInjective(m: nat, n: nat)
    requires NatToString(m) == NatToString(n)
    ensures m == n
  {
    DecimalRoundTrip(m);
    DecimalRoundTrip(n);
  }

  /** A JavaScript string field that is truthy: present and non-empty. */
  predicate Truthy(field: Option<string>) {
    field.Some? && field.value != ""
  }

  /** JavaScript's `value || fallback` for an optional string field. */
  function OrElse(field: Option<string>, fallback: string): (r: string)
    ensures Truthy(field) ==> r == field.value
    ensures !Truthy(field) ==> r == fallback
  {
    if Truthy(field) then field.value else fallback
  }
}
