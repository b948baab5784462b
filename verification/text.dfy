/**
 The string operations of Python that the modelled code relies on:
 `str(n)` for integers, `int(s)` for strings, `repr(s)`, `sep.join(parts)` and
 the substring test `pattern in line`, with `Split` to read a joined text back
 piece by piece.
 */
module Text {
  import opened Results

  predicate IsDigit(c: char) {
    '0' <= c <= '9'
  }

  predicate AllDigits(s: string) {
    forall k :: 0 <= k < |s| ==> IsDigit(s[k])
  }

  function DigitValue(c: char): nat
    requires IsDigit(c)
  {
    (c as int) - ('0' as int)
  }

  function DigitChar(d: nat): (c: char)
    requires d < 10
    ensures IsDigit(c) && DigitValue(c) == d
  {
    (('0' as int) + d) as char
  }

  // ---------------------------------------------------------------------------
  // str(n)

  /** `str(n)` for `n >= 0`: decimal digits, most significant first, no leading zero. */
  function NatToString(n: nat): (s: string)
    ensures 1 <= |s| && AllDigits(s)
    ensures s[0] == '0' ==> n == 0
    decreases n
  {
    if n < 10 then [DigitChar(n)] else NatToString(n / 10) + [DigitChar(n % 10)]
  }

  /** The number a run of decimal digits denotes. */
  function DigitsValue(s: string): nat
    requires AllDigits(s)
  {
    if s == [] then 0 else 10 * DigitsValue(s[..|s| - 1]) + DigitValue(s[|s| - 1])
  }

  /** Reading back the digits of `str(n)` gives `n`. */
  lemma {:induction false} DigitsValueOfNatToString(n: nat)
    ensures DigitsValue(NatToString(n)) == n
  {
    if n >= 10 {
      DigitsValueOfNatToString(n / 10);
      var s := NatToString(n);
      assert s[..|s| - 1] == NatToString(n / 10);
    }
  }

  /** `str(i)` for any int: a minus sign exactly for negative numbers, then the digits of `|i|`. */
  function IntToString(i: int): (s: string)
    ensures 1 <= |s|
    ensures s[0] == '-' <==> i < 0
    ensures AllDigits(if i < 0 then s[1..] else s)
  {
    if i < 0 then "-" + NatToString(-i) else NatToString(i)
  }

  // ---------------------------------------------------------------------------
  // int(s)

  /**
   The whitespace `int()` skips around its digits. CPython maps every non-ASCII
   whitespace character to a space and then skips C's `isspace` set: space and
   `\t \n \v \f \r` (codes 9 to 13). The separators `\x1c` to `\x1f`, which
   `str.strip()` also removes, are ASCII and therefore not skipped by `int()`.
   */
  predicate IsSpace(c: char) {
    || c == ' ' || '\t' <= c <= '\r'
    || c == '\U{85}' || c == '\U{a0}' || c == '\U{1680}'
    || '\U{2000}' <= c <= '\U{200a}'
    || c == '\U{2028}' || c == '\U{2029}' || c == '\U{202f}' || c == '\U{205f}' || c == '\U{3000}'
  }

  function TrimStart(s: string): (t: string)
    ensures |t| <= |s| && t == s[|s| - |t|..]
    ensures |t| > 0 ==> !IsSpace(t[0])
    ensures forall k :: 0 <= k < |s| - |t| ==> IsSpace(s[k])
  {
    if |s| > 0 && IsSpace(s[0]) then TrimStart(s[1..]) else s
  }

  function TrimEnd(s: string): (t: string)
    ensures |t| <= |s| && t == s[..|t|]
    ensures |t| > 0 ==> !IsSpace(t[|t| - 1])
    ensures forall k :: |t| <= k < |s| ==> IsSpace(s[k])
  {
    if |s| > 0 && IsSpace(s[|s| - 1]) then TrimEnd(s[..|s| - 1]) else s
  }

  /** The text `int()` reads its literal from: `s` without the whitespace around it. */
  function Strip(s: string): string {
    TrimEnd(TrimStart(s))
  }

  /** What `int()` accepts after stripping: an optional sign and at least one digit. */
  predicate IsDecimalLiteral(t: string) {
    var digits := if |t| > 0 && (t[0] == '+' || t[0] == '-') then t[1..] else t;
    |digits| > 0 && AllDigits(digits)
  }

  const LiteralPrefix := "invalid literal for int() with base 10: "

  /**
   The message of the ValueError `int(s)` raises: the format `%.200R` keeps at
   most the first 200 characters of `repr(s)`.
   */
  function InvalidLiteral(s: string): (msg: string)
    ensures |LiteralPrefix| <= |msg| <= |LiteralPrefix| + 200 && |msg| - |LiteralPrefix| <= |Repr(s)|
    ensures msg[..|LiteralPrefix|] == LiteralPrefix
    ensures msg[|LiteralPrefix|..] == Repr(s)[..|msg| - |LiteralPrefix|]
    ensures |Repr(s)| <= 200 ==> msg == LiteralPrefix + Repr(s)
  {
    var r := Repr(s);
    LiteralPrefix + (if |r| <= 200 then r else r[..200])
  }

  /** `int(s)` for a str argument: whitespace around an optionally signed run of digits. */
  function ParseInt(s: string): (r: Result<int>)
    ensures r.Ok? <==> IsDecimalLiteral(Strip(s))
    ensures r.Err? ==> r.error == Error(ValueError, InvalidLiteral(s))
    ensures r.Ok? && AllDigits(s) ==> r.value >= 0
  {
    var t := Strip(s);
    if !IsDecimalLiteral(t) then
      Err(Error(ValueError, InvalidLiteral(s)))
    else if t[0] == '-' then
      Ok(-(DigitsValue(t[1..]) as int))
    else if t[0] == '+' then
      Ok(DigitsValue(t[1..]))
    else
      Ok(DigitsValue(t))
  }

  lemma StripUnpadded(s: string)
    requires |s| > 0 && !IsSpace(s[0]) && !IsSpace(s[|s| - 1])
    ensures Strip(s) == s
  {
  }

  lemma DigitIsNotSpace(d: char)
    requires IsDigit(d)
    ensures !IsSpace(d)
  {
  }

  lemma StripNoBreakSpace(d: char)
    requires IsDigit(d)
    ensures Strip(['\U{a0}', d]) == [d]
  {
    var s := ['\U{a0}', d];
    DigitIsNotSpace(d);
    assert s[1..] == [d];
    assert TrimStart([d]) == [d];
    assert TrimStart(s) == [d];
  }

  /** `int()` skips a no-break space before its digits. */
  lemma IntSkipsNoBreakSpace(d: char)
    requires IsDigit(d)
    ensures ParseInt(['\U{a0}', d]) == Ok(DigitValue(d))
  {
    StripNoBreakSpace(d);
    assert [d][..0] == [];
    assert DigitsValue([d]) == DigitValue(d);
  }

  /**
   `int()` does not skip the information separators U+001C..U+001F, which
   `str.strip()` would remove.
   */
  lemma IntKeepsSeparator(c: char, d: char)
    requires '\U{1c}' <= c <= '\U{1f}' && IsDigit(d)
    ensures ParseInt([c, d]).Err?
  {
    StripUnpadded([c, d]);
  }

  /** `int(str(i)) == i` for every int. */
  lemma ParseIntToString(i: int)
    ensures ParseInt(IntToString(i)) == Ok(i)
  {
    if i < 0 {
      var n: nat := -i;
      assert IntToString(i) == "-" + NatToString(n);
      ParseNegative(n);
    } else {
      assert IntToString(i) == NatToString(i);
      ParseNatToString(i);
    }
  }

  lemma ParseNatToString(n: nat)
    ensures ParseInt(NatToString(n)) == Ok(n)
  {
    var s := NatToString(n);
    StripUnpadded(s);
    assert IsDecimalLiteral(s);
    DigitsValueOfNatToString(n);
  }

  lemma ParseNegative(n: nat)
    requires n > 0
    ensures ParseInt("-" + NatToString(n)) == Ok(-(n as int))
  {
    var digits := NatToString(n);
    var s := "-" + digits;
    StripUnpadded(s);
    assert s[1..] == digits;
    assert IsDecimalLiteral(s);
    DigitsValueOfNatToString(n);
  }

  // ---------------------------------------------------------------------------
  // repr(s)

  /** A lower-case hexadecimal digit. */
  function HexDigit(d: nat): (c: char)
    requires d < 16
  {
    if d < 10 then (('0' as int) + d) as char else (('a' as int) + d - 10) as char
  }

  /**
   A Latin-1 character that is not printable: the C0 controls, DEL, the C1
   controls, the no-break space and the soft hyphen. `repr` writes these as `\xhh`.
   */
  predicate IsHexEscaped(c: char) {
    c < ' ' || ('\U{7f}' <= c <= '\U{a0}') || c == '\U{ad}'
  }

  /** The escape `repr` writes for `c` inside a literal delimited by `quote`. */
  function Escape(c: char, quote: char): (e: string)
    ensures |e| >= 1
    ensures e == [c] <==> c != '\\' && c != quote && !IsHexEscaped(c)
  {
    if c == '\\' then "\\\\"
    else if c == '\n' then "\\n"
    else if c == '\r' then "\\r"
    else if c == '\t' then "\\t"
    else if c == quote then ['\\', c]
    else if IsHexEscaped(c) then ['\\', 'x', HexDigit(c as int / 16), HexDigit(c as int % 16)]
    else [c]
  }

  function EscapeAll(s: string, quote: char): (e: string)
    ensures |e| >= |s|
  {
    if s == [] then "" else Escape(s[0], quote) + EscapeAll(s[1..], quote)
  }

  /**
   `repr(s)` for a str: single quotes unless the text holds a single quote and no
   double quote; backslash, the quote in use, `\n`, `\r` and `\t` escaped with a
   backslash, and the other non-printable Latin-1 characters written as `\xhh`.
   */
  function Repr(s: string): (r: string)
    ensures |r| >= |s| + 2
    ensures r[0] == r[|r| - 1] && (r[0] == '\'' || r[0] == '"')
  {
    var quote := if '\'' in s && '"' !in s then '"' else '\'';
    [quote] + EscapeAll(s, quote) + [quote]
  }

  /** A character `repr` copies unchanged whichever quote it uses: printable ASCII other than quotes and backslash. */
  predicate IsPlain(c: char) {
    ' ' <= c <= '~' && c != '\\' && c != '\'' && c != '"'
  }

  lemma {:induction false} EscapeAllPlain(s: string, quote: char)
    requires quote == '\'' || quote == '"'
    requires forall k :: 0 <= k < |s| ==> IsPlain(s[k])
    ensures EscapeAll(s, quote) == s
  {
    if s != [] {
      EscapeAllPlain(s[1..], quote);
    }
  }

  /** Printable ASCII text without quotes or backslashes is shown between single quotes, unchanged. */
  lemma ReprPlain(s: string)
    requires forall k :: 0 <= k < |s| ==> IsPlain(s[k])
    ensures Repr(s) == "'" + s + "'"
  {
    EscapeAllPlain(s, '\'');
  }

  // ---------------------------------------------------------------------------
  // sep.join(parts) and s.split(sep)

  /** `sep.join(parts)` for a one-character separator. */
  function Join(sep: char, parts: seq<string>): string {
    if parts == [] then ""
    else if |parts| == 1 then parts[0]
    else parts[0] + [sep] + Join(sep, parts[1..])
  }

  function IndexOf(c: char, s: string): (i: nat)
    requires c in s
    ensures i < |s| && s[i] == c && c !in s[..i]
  {
    if s[0] == c then 0 else 1 + IndexOf(c, s[1..])
  }

  /**
   The pieces of `s` between separators, as `s.split(sep)` gives them; the model
   reads a joined report back with it, line by line.
   */
  function Split(sep: char, s: string): (pieces: seq<string>)
    ensures |pieces| >= 1
    ensures forall k :: 0 <= k < |pieces| ==> sep !in pieces[k]
    decreases |s|
  {
    if sep !in s then [s]
    else
      var i := IndexOf(sep, s);
      [s[..i]] + Split(sep, s[i + 1..])
  }

  /** Splitting a joined list of separator-free pieces gives the pieces back. */
  lemma {:induction false} SplitJoin(sep: char, parts: seq<string>)
    requires |parts| >= 1
    requires forall k :: 0 <= k < |parts| ==> sep !in parts[k]
    ensures Split(sep, Join(sep, parts)) == parts
  {
    if |parts| > 1 {
      var s := Join(sep, parts);
      assert s == parts[0] + [sep] + Join(sep, parts[1..]);
      assert s[|parts[0]|] == sep;
      assert s[..|parts[0]|] == parts[0];
      assert IndexOf(sep, s) == |parts[0]|;
      assert s[|parts[0]| + 1..] == Join(sep, parts[1..]);
      SplitJoin(sep, parts[1..]);
    } else {
      assert Join(sep, parts) == parts[0];
    }
  }

  lemma JoinCons(sep: char, first: string, rest: seq<string>)
    requires |rest| >= 1
    ensures Join(sep, [first] + rest) == first + [sep] + Join(sep, rest)
  {
    assert ([first] + rest)[1..] == rest;
  }

  /** Joining the pieces of a split with the same separator gives the text back. */
  lemma {:induction false} JoinSplit(sep: char, s: string)
    ensures Join(sep, Split(sep, s)) == s
    decreases |s|
  {
    if sep in s {
      var i := IndexOf(sep, s);
      var rest := Split(sep, s[i + 1..]);
      JoinSplit(sep, s[i + 1..]);
      var pieces := [s[..i]] + rest;
      assert Split(sep, s) == pieces;
      assert pieces[0] == s[..i] && pieces[1..] == rest && |pieces| > 1;
      JoinCons(sep, s[..i], rest);
      assert s == s[..i] + [sep] + s[i + 1..];
    }
  }

  // ---------------------------------------------------------------------------
  // pattern in line

  /** The window of `line` starting at `i` spells `pattern`. */
  predicate OccursAt(pattern: string, line: string, i: nat) {
    i + |pattern| <= |line| && line[i..i + |pattern|] == pattern
  }

  /** The meaning of `pattern in line`: some window of `line` spells `pattern`. */
  ghost predicate Occurs(pattern: string, line: string) {
    exists i: nat :: OccursAt(pattern, line, i)
  }

  /** A pattern found in `b` is found in any text that has `b` in the middle. */
  lemma OccursInside(pattern: string, a: string, b: string, c: string)
    requires Occurs(pattern, b)
    ensures Occurs(pattern, a + b + c)
  {
    var i: nat :| OccursAt(pattern, b, i);
    assert (a + b + c)[|a| + i..|a| + i + |pattern|] == b[i..i + |pattern|];
    assert OccursAt(pattern, a + b + c, |a| + i);
  }

  /** `pattern in line`, scanning the start positions from left to right. */
  function Contains(line: string, pattern: string): bool
    decreases |line|
  {
    if |line| < |pattern| then false
    else if line[..|pattern|] == pattern then true
    else Contains(line[1..], pattern)
  }

  /** The scan finds the pattern exactly when some window spells it. */
  lemma {:induction false} ContainsIffOccurs(line: string, pattern: string)
    ensures Contains(line, pattern) <==> Occurs(pattern, line)
    decreases |line|
  {
    if |line| < |pattern| {
    } else if line[..|pattern|] == pattern {
      assert OccursAt(pattern, line, 0);
    } else {
      ContainsIffOccurs(line[1..], pattern);
      if Occurs(pattern, line) {
        var i: nat :| OccursAt(pattern, line, i);
        assert i != 0;
        assert line[1..][i - 1..i - 1 + |pattern|] == line[i..i + |pattern|];
        assert OccursAt(pattern, line[1..], i - 1);
      }
      if Occurs(pattern, line[1..]) {
        var i: nat :| OccursAt(pattern, line[1..], i);
        assert line[1..][i..i + |pattern|] == line[i + 1..i + 1 + |pattern|];
        assert OccursAt(pattern, line, i + 1);
      }
    }
  }
}
