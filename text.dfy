/**
 * Character classes and string operations shared by the server (Python) and
 * the client (JavaScript) models: whitespace stripping, digit extraction,
 * ASCII case mapping, substring search and joining.
 *
 * Character classes are ASCII: `\s`, `\d`, `str.isspace`, `str.isdigit`,
 * `trim`, `toLowerCase` and `toUpperCase` are applied only to the ASCII range
 * here. The two languages disagree on ASCII whitespace, so each has its own
 * class and stripping takes the class as a parameter.
 */
module Text {

  /** JavaScript's `trim()` and `\s`: space, tab, line feed, carriage return, vertical tab, form feed. */
  predicate IsJsSpace(c: char) {
    c == ' ' || c == '\t' || c == '\n' || c == '\r' || c == '\U{000B}' || c == '\U{000C}'
  }

  /**
   * Python's `str.strip()`, `str.isspace()` and `\s` on `str` patterns: the
   * same, and the four separators `\x1c` to `\x1f`.
   */
  predicate IsPySpace(c: char) {
    IsJsSpace(c) || '\U{001C}' <= c <= '\U{001F}'
  }

  predicate IsDigit(c: char) { '0' <= c <= '9' }

  predicate IsUpper(c: char) { 'A' <= c <= 'Z' }

  predicate IsLower(c: char) { 'a' <= c <= 'z' }

  predicate IsLetter(c: char) { IsUpper(c) || IsLower(c) }

  /** Every character of `s` satisfies `p`. */
  predicate All(s: string, p: char -> bool) {
    forall i :: 0 <= i < |s| ==> p(s[i])
  }

  /** Some character of `s` satisfies `p` (a regex search for one character class). */
  predicate Any(s: string, p: char -> bool) {
    exists i :: 0 <= i < |s| && p(s[i])
  }

  predicate AllDigits(s: string) { All(s, IsDigit) }

  // ---------------------------------------------------------------------------
  // Stripping surrounding whitespace of class `ws`: Python `str.strip()`
  // with `IsPySpace`, JavaScript `trim()` with `IsJsSpace`

  function TrimStart(s: string, ws: char -> bool): (r: string)
    ensures |r| <= |s|
    ensures r == [] || !ws(r[0])
    ensures forall i :: 0 <= i < |s| - |r| ==> ws(s[i])
  {
    if s != [] && ws(s[0]) then TrimStart(s[1..], ws) else s
  }

  /** What `TrimStart` keeps is a suffix of its input. */
  lemma {:induction false} TrimStartIsSuffix(s: string, ws: char -> bool)
    ensures TrimStart(s, ws) == s[|s| - |TrimStart(s, ws)|..]
  {
    if s != [] && ws(s[0]) {
      TrimStartIsSuffix(s[1..], ws);
    }
  }

  function TrimEnd(s: string, ws: char -> bool): (r: string)
    ensures |r| <= |s| && r == s[..|r|]
    ensures r == [] || !ws(r[|r| - 1])
    ensures forall i :: |r| <= i < |s| ==> ws(s[i])
  {
    if s != [] && ws(s[|s| - 1]) then TrimEnd(s[..|s| - 1], ws) else s
  }

  /** The longest slice of `s` that neither starts nor ends with whitespace. */
  function Strip(s: string, ws: char -> bool): (r: string)
    ensures r == [] || (!ws(r[0]) && !ws(r[|r| - 1]))
    ensures |r| <= |s|
  {
    TrimEnd(TrimStart(s, ws), ws)
  }

  /**
   * The server's whitespace is wider than the client's: a lone information
   * separator strips to nothing in Python and survives JavaScript's `trim`.
   */
  lemma SeparatorIsServerSpaceOnly()
    ensures Strip("\U{001C}", IsPySpace) == [] && Strip("\U{001C}", IsJsSpace) == "\U{001C}"
  {
  }

  /** A string strips to nothing exactly when it is all whitespace. */
  lemma StripEmptyIffBlank(s: string, ws: char -> bool)
    ensures Strip(s, ws) == [] <==> All(s, ws)
  {
    var t := TrimStart(s, ws);
    TrimStartIsSuffix(s, ws);
    if t != [] {
      assert !ws(t[0]);
      assert TrimEnd(t, ws) != [];
      assert !ws(s[|s| - |t|]);
    }
  }

  /** A string that already neither starts nor ends with whitespace strips to itself. */
  lemma StripUnpadded(s: string, ws: char -> bool)
    requires s == [] || (!ws(s[0]) && !ws(s[|s| - 1]))
    ensures Strip(s, ws) == s
  {
  }

  lemma StripIdempotent(s: string, ws: char -> bool)
    ensures Strip(Strip(s, ws), ws) == Strip(s, ws)
  {
    StripUnpadded(Strip(s, ws), ws);
  }

  /** A non-whitespace character of `s` is kept by `Strip`. */
  lemma StripKeeps(s: string, ws: char -> bool, i: int)
    requires 0 <= i < |s| && !ws(s[i])
    ensures exists k :: 0 <= k < |Strip(s, ws)| && Strip(s, ws)[k] == s[i]
  {
    var t := TrimStart(s, ws);
    var d := |s| - |t|;
    TrimStartIsSuffix(s, ws);
    assert i >= d;
    assert t == s[d..];
    assert t[i - d] == s[i];
    var r := TrimEnd(t, ws);
    assert r == Strip(s, ws);
    assert i - d < |r|;
    assert r[i - d] == t[i - d];
  }

  // ---------------------------------------------------------------------------
  // Digits: Python `re.sub(r'\D', '', s)`, JavaScript `s.replace(/\D/g, '')`

  function Digits(s: string): (r: string)
    ensures AllDigits(r) && |r| <= |s|
  {
    if s == [] then [] else (if IsDigit(s[0]) then [s[0]] else []) + Digits(s[1..])
  }

  /** The number a string of decimal digits denotes, most significant digit first. */
  function DigitsValue(s: string): int {
    if s == [] then 0 else 10 * DigitsValue(s[..|s| - 1]) + (s[|s| - 1] as int - '0' as int)
  }

  lemma {:induction false} DigitsConcat(a: string, b: string)
    ensures Digits(a + b) == Digits(a) + Digits(b)
  {
    if a == [] {
      assert a + b == b;
    } else {
      var head := if IsDigit(a[0]) then [a[0]] else [];
      assert (a + b)[0] == a[0];
      assert (a + b)[1..] == a[1..] + b;
      DigitsConcat(a[1..], b);
      calc {
        Digits(a + b);
        head + Digits(a[1..] + b);
        head + (Digits(a[1..]) + Digits(b));
        (head + Digits(a[1..])) + Digits(b);
      }
    }
  }

  lemma {:induction false} DigitsOfDigits(s: string)
    requires AllDigits(s)
    ensures Digits(s) == s
  {
    if s != [] {
      DigitsOfDigits(s[1..]);
    }
  }

  /** No character of the whitespace class is a digit. */
  predicate NoDigitSpace(ws: char -> bool) {
    forall c :: ws(c) ==> !IsDigit(c)
  }

  lemma {:induction false} DigitsOfTrimStart(s: string, ws: char -> bool)
    requires NoDigitSpace(ws)
    ensures Digits(TrimStart(s, ws)) == Digits(s)
  {
    if s != [] && ws(s[0]) {
      DigitsOfTrimStart(s[1..], ws);
    }
  }

  lemma {:induction false} DigitsOfTrimEnd(s: string, ws: char -> bool)
    requires NoDigitSpace(ws)
    ensures Digits(TrimEnd(s, ws)) == Digits(s)
  {
    if s != [] && ws(s[|s| - 1]) {
      var init := s[..|s| - 1];
      assert s == init + [s[|s| - 1]];
      DigitsConcat(init, [s[|s| - 1]]);
      DigitsOfTrimEnd(init, ws);
    }
  }

  /** Python's stripping never changes which digits a string holds. */
  lemma DigitsOfStrip(s: string)
    ensures Digits(Strip(s, IsPySpace)) == Digits(s)
  {
    DigitsOfTrimStart(s, IsPySpace);
    DigitsOfTrimEnd(TrimStart(s, IsPySpace), IsPySpace);
  }

  // ---------------------------------------------------------------------------
  // ASCII case mapping

  function LowerChar(c: char): char {
    if IsUpper(c) then (c as int + 32) as char else c
  }

  function UpperChar(c: char): char {
    if IsLower(c) then (c as int - 32) as char else c
  }

  function Lower(s: string): (r: string)
    ensures |r| == |s|
    ensures forall i :: 0 <= i < |s| ==> r[i] == LowerChar(s[i])
  {
    seq(|s|, i requires 0 <= i < |s| => LowerChar(s[i]))
  }

  lemma LowerConcat(a: string, b: string)
    ensures Lower(a + b) == Lower(a) + Lower(b)
  {
  }

  // ---------------------------------------------------------------------------
  // Substrings: JavaScript `s.includes(sub)`, Python `sub in s`

  predicate OccursAt(s: string, sub: string, i: int) {
    0 <= i && i + |sub| <= |s| && s[i..i + |sub|] == sub
  }

  predicate Contains(s: string, sub: string) {
    exists i :: 0 <= i <= |s| && OccursAt(s, sub, i)
  }

  lemma ContainsInPrefix(a: string, b: string, sub: string)
    requires Contains(a, sub)
    ensures Contains(a + b, sub)
  {
    var i :| 0 <= i <= |a| && OccursAt(a, sub, i);
    assert (a + b)[i..i + |sub|] == a[i..i + |sub|];
    assert OccursAt(a + b, sub, i);
  }

  lemma ContainsInSuffix(a: string, b: string, sub: string)
    requires Contains(b, sub)
    ensures Contains(a + b, sub)
  {
    var i :| 0 <= i <= |b| && OccursAt(b, sub, i);
    assert (a + b)[|a| + i..|a| + i + |sub|] == b[i..i + |sub|];
    assert OccursAt(a + b, sub, |a| + i);
  }

  // ---------------------------------------------------------------------------
  // Joining: Python `sep.join(parts)`, JavaScript `parts.join(sep)`

  function Join(parts: seq<string>, sep: string): (r: string)
    ensures parts == [] ==> r == []
    ensures |parts| == 1 ==> r == parts[0]
  {
    if parts == [] then []
    else if |parts| == 1 then parts[0]
    else parts[0] + sep + Join(parts[1..], sep)
  }

  /** Joining one more part appends the separator and that part. */
  lemma {:induction false} JoinSnoc(parts: seq<string>, x: string, sep: string)
    requires parts != []
    ensures Join(parts + [x], sep) == Join(parts, sep) + sep + x
  {
    if |parts| == 1 {
      assert (parts + [x])[1..] == [x];
    } else {
      assert (parts + [x])[1..] == parts[1..] + [x];
      JoinSnoc(parts[1..], x, sep);
    }
  }
}
