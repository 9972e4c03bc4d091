/**
 * The parts of Python's `str` and number formatting that the application relies on:
 * whitespace splitting and stripping, `int()` and `float()` on label-file fields,
 * `str(int)`, fixed-point formatting (`f"{x:.2f}"`), single-character `split`,
 * `join`, ASCII case mapping and `capitalize`.
 */
module Text {
  import opened Wrappers

  // ---------------------------------------------------------------------------
  // Whitespace, tokens, split() and strip()
  // ---------------------------------------------------------------------------

  /** The characters for which Python's `str.isspace()` holds; `split()` and `strip()` use this set. */
  predicate IsSpace(c: char) {
    || c == ' '
    || ('\t' <= c <= '\r')
    || ('\U{1c}' <= c <= '\U{1f}')
    || c == '\U{85}' || c == '\U{a0}' || c == '\U{1680}'
    || ('\U{2000}' <= c <= '\U{200a}')
    || c == '\U{2028}' || c == '\U{2029}' || c == '\U{202f}' || c == '\U{205f}' || c == '\U{3000}'
  }

  predicate IsBlank(s: string) {
    forall i :: 0 <= i < |s| ==> IsSpace(s[i])
  }

  /** A non-empty run of non-space characters: one element of what `str.split()` returns. */
  predicate IsToken(t: string) {
    t != [] && forall i :: 0 <= i < |t| ==> !IsSpace(t[i])
  }

  /** Length of the leading run of non-space characters. */
  function TokenLength(s: string): (n: nat)
    ensures n <= |s|
    ensures forall i :: 0 <= i < n ==> !IsSpace(s[i])
    ensures n < |s| ==> IsSpace(s[n])
  {
    if s == [] || IsSpace(s[0]) then 0 else 1 + TokenLength(s[1..])
  }

  /** Python's `s.split()` without argument: the maximal runs of non-space characters, in order. */
  function Words(s: string): (ws: seq<string>)
    ensures forall k :: 0 <= k < |ws| ==> IsToken(ws[k])
    decreases |s|
  {
    if s == [] then []
    else if IsSpace(s[0]) then Words(s[1..])
    else
      var n := TokenLength(s);
      [s[..n]] + Words(s[n..])
  }

  /** `sep.join(parts)`. */
  function Join(parts: seq<string>, sep: string): string {
    if |parts| == 0 then ""
    else if |parts| == 1 then parts[0]
    else parts[0] + sep + Join(parts[1..], sep)
  }

  function LStrip(s: string): (r: string)
    ensures r == [] || !IsSpace(r[0])
    ensures |r| <= |s| && r == s[|s| - |r|..]
  {
    if s != [] && IsSpace(s[0]) then LStrip(s[1..]) else s
  }

  function RStrip(s: string): (r: string)
    ensures r == [] || !IsSpace(r[|r| - 1])
    ensures |r| <= |s| && r == s[..|r|]
  {
    if s != [] && IsSpace(s[|s| - 1]) then RStrip(s[..|s| - 1]) else s
  }

  /** Python's `s.strip()` without argument. */
  function Strip(s: string): string {
    RStrip(LStrip(s))
  }

  lemma BlankCons(s: string)
    requires s != [] && IsSpace(s[0])
    ensures IsBlank(s) <==> IsBlank(s[1..])
  {
    if IsBlank(s[1..]) {
      forall i | 1 <= i < |s| ensures IsSpace(s[i]) {
        assert s[i] == s[1..][i - 1];
      }
    }
  }

  lemma BlankSnoc(s: string)
    requires s != [] && IsSpace(s[|s| - 1])
    ensures IsBlank(s) <==> IsBlank(s[..|s| - 1])
  {
    if IsBlank(s[..|s| - 1]) {
      forall i | 0 <= i < |s| - 1 ensures IsSpace(s[i]) {
        assert s[i] == s[..|s| - 1][i];
      }
    }
  }

  lemma {:induction false} LStripEmptyIffBlank(s: string)
    ensures LStrip(s) == [] <==> IsBlank(s)
  {
    if s != [] && IsSpace(s[0]) {
      LStripEmptyIffBlank(s[1..]);
      BlankCons(s);
    }
  }

  lemma {:induction false} RStripEmptyIffBlank(s: string)
    ensures RStrip(s) == [] <==> IsBlank(s)
  {
    if s != [] && IsSpace(s[|s| - 1]) {
      RStripEmptyIffBlank(s[..|s| - 1]);
      BlankSnoc(s);
    }
  }

  /** `line.strip()` is empty exactly when the line holds whitespace only. */
  lemma StripEmptyIffBlank(s: string)
    ensures Strip(s) == [] <==> IsBlank(s)
  {
    LStripEmptyIffBlank(s);
    RStripEmptyIffBlank(LStrip(s));
    var l := LStrip(s);
    if l != [] {
      assert !IsBlank(l);
    }
  }

  /** A token (or any text starting and ending with a non-space character) is its own strip. */
  lemma StripTrimmed(s: string)
    requires s != [] && !IsSpace(s[0]) && !IsSpace(s[|s| - 1])
    ensures Strip(s) == s
  {
  }

  lemma {:induction false} TokenLengthOfTokenThen(t: string, rest: string)
    requires forall i :: 0 <= i < |t| ==> !IsSpace(t[i])
    requires rest == [] || IsSpace(rest[0])
    ensures TokenLength(t + rest) == |t|
  {
    if t != [] {
      assert (t + rest)[1..] == t[1..] + rest;
      TokenLengthOfTokenThen(t[1..], rest);
    } else {
      assert t + rest == rest;
    }
  }

  lemma WordsOfTokenThen(t: string, rest: string)
    requires IsToken(t)
    requires rest == [] || IsSpace(rest[0])
    ensures Words(t + rest) == [t] + Words(rest)
  {
    TokenLengthOfTokenThen(t, rest);
    var s := t + rest;
    assert s[..|t|] == t;
    assert s[|t|..] == rest;
  }

  /** Splitting a space-joined line of tokens gives the tokens back (the label-file round trip). */
  lemma {:induction false} WordsOfJoin(tokens: seq<string>)
    requires forall k :: 0 <= k < |tokens| ==> IsToken(tokens[k])
    ensures Words(Join(tokens, " ")) == tokens
  {
    if |tokens| == 1 {
      WordsOfTokenThen(tokens[0], "");
      assert tokens[0] + "" == tokens[0];
    } else if |tokens| > 1 {
      var rest := Join(tokens[1..], " ");
      assert Join(tokens, " ") == tokens[0] + (" " + rest);
      WordsOfTokenThen(tokens[0], " " + rest);
      assert (" " + rest)[1..] == rest;
      WordsOfJoin(tokens[1..]);
      assert tokens == [tokens[0]] + tokens[1..];
    }
  }

  /** A line of space-joined tokens ended by a newline splits back into the tokens. */
  lemma WordsOfLine(tokens: seq<string>)
    requires forall k :: 0 <= k < |tokens| ==> IsToken(tokens[k])
    ensures Words(Join(tokens, " ") + "\n") == tokens
  {
    WordsOfJoin(tokens);
    WordsOfSpaceAfter(Join(tokens, " "), '\n');
  }

  /** A line of six space-separated fields ended by a newline splits back into the fields. */
  lemma SixFields(fields: seq<string>)
    requires |fields| == 6
    requires IsToken(fields[0]) && IsToken(fields[1]) && IsToken(fields[2])
    requires IsToken(fields[3]) && IsToken(fields[4]) && IsToken(fields[5])
    ensures Words(Join(fields, " ") + "\n") == fields
  {
    assert forall k :: 0 <= k < |fields| ==> IsToken(fields[k]) by {
      forall k | 0 <= k < |fields| ensures IsToken(fields[k]) {
        if k == 0 {} else if k == 1 {} else if k == 2 {} else if k == 3 {} else if k == 4 {} else {}
      }
    }
    WordsOfLine(fields);
  }

  /** A trailing whitespace character (the newline ending a line) adds no field. */
  lemma {:induction false} WordsOfSpaceAfter(s: string, c: char)
    requires IsSpace(c)
    ensures Words(s + [c]) == Words(s)
    decreases |s|
  {
    if s == [] {
      assert Words([c]) == Words([c][1..]);
    } else if IsSpace(s[0]) {
      assert (s + [c])[1..] == s[1..] + [c];
      WordsOfSpaceAfter(s[1..], c);
    } else {
      var n := TokenLength(s);
      TokenLengthOfTokenThen(s[..n], s[n..] + [c]);
      assert s + [c] == s[..n] + (s[n..] + [c]);
      assert (s + [c])[..n] == s[..n];
      assert (s + [c])[n..] == s[n..] + [c];
      WordsOfSpaceAfter(s[n..], c);
    }
  }

  /** `str.split()` of a whitespace-only line is empty. */
  lemma {:induction false} WordsOfBlank(s: string)
    requires IsBlank(s)
    ensures Words(s) == []
  {
    if s != [] {
      WordsOfBlank(s[1..]);
    }
  }

  /** Length of `sep.join(parts)`: the parts plus one separator between each two. */
  lemma {:induction false} JoinLength(parts: seq<string>, sep: string)
    requires |parts| >= 1
    ensures |Join(parts, sep)| == SumLengths(parts) + (|parts| - 1) * |sep|
  {
    if |parts| > 1 {
      JoinLength(parts[1..], sep);
    }
  }

  function SumLengths(parts: seq<string>): nat {
    if parts == [] then 0 else |parts[0]| + SumLengths(parts[1..])
  }

  // ---------------------------------------------------------------------------
  // Prefixes, suffixes, single-character split
  // ---------------------------------------------------------------------------

  predicate StartsWith(s: string, prefix: string) {
    |prefix| <= |s| && s[..|prefix|] == prefix
  }

  predicate EndsWith(s: string, suffix: string) {
    |suffix| <= |s| && s[|s| - |suffix|..] == suffix
  }

  /** Python's `s.split(c)` for a one-character separator: the pieces between occurrences of `c`. */
  function SplitOn(s: string, c: char): (parts: seq<string>)
    ensures |parts| >= 1
  {
    if s == [] then [""]
    else
      var rest := SplitOn(s[1..], c);
      if s[0] == c then [""] + rest else [[s[0]] + rest[0]] + rest[1..]
  }

  lemma {:induction false} SplitOnFree(a: string, c: char)
    requires c !in a
    ensures SplitOn(a, c) == [a]
  {
    if a != [] {
      SplitOnFree(a[1..], c);
      assert [a[0]] + a[1..] == a;
    }
  }

  lemma {:induction false} SplitOnAt(a: string, c: char, b: string)
    requires c !in a
    ensures SplitOn(a + [c] + b, c) == [a] + SplitOn(b, c)
  {
    var s := a + [c] + b;
    if a == [] {
      assert s[0] == c && s[1..] == b;
    } else {
      assert s[1..] == a[1..] + [c] + b;
      SplitOnAt(a[1..], c, b);
      assert [a[0]] + a[1..] == a;
    }
  }

  // ---------------------------------------------------------------------------
  // Case mapping (ASCII)
  // ---------------------------------------------------------------------------

  function LowerChar(c: char): char {
    if 'A' <= c <= 'Z' then (c as int + 32) as char else c
  }

  function UpperChar(c: char): char {
    if 'a' <= c <= 'z' then (c as int - 32) as char else c
  }

  function Lower(s: string): (r: string)
    ensures |r| == |s| && forall i :: 0 <= i < |s| ==> r[i] == LowerChar(s[i])
  {
    seq(|s|, i requires 0 <= i < |s| => LowerChar(s[i]))
  }

  /** Python's `str.capitalize()`: first character upper case, the rest lower case. */
  function Capitalize(s: string): (r: string)
    ensures |r| == |s|
    ensures s != [] ==> r[0] == UpperChar(s[0]) && r[1..] == Lower(s[1..])
  {
    if s == [] then "" else [UpperChar(s[0])] + Lower(s[1..])
  }

  /** A lower-case word is capitalised by raising its first letter alone. */
  lemma CapitalizeOfLowercase(s: string)
    requires s != [] && forall i :: 0 <= i < |s| ==> 'a' <= s[i] <= 'z'
    ensures Capitalize(s) == [UpperChar(s[0])] + s[1..]
  {
    assert Lower(s[1..]) == s[1..];
  }

  // ---------------------------------------------------------------------------
  // Integers: str(n) and int(s)
  // ---------------------------------------------------------------------------

  predicate IsDigit(c: char) {
    '0' <= c <= '9'
  }

  function DigitValue(c: char): (d: nat)
    requires IsDigit(c)
    ensures d < 10
  {
    c as int - '0' as int
  }

  function DigitChar(d: nat): (c: char)
    requires d < 10
    ensures IsDigit(c) && DigitValue(c) == d
  {
    ('0' as int + d) as char
  }

  predicate AllDigits(s: string) {
    forall i :: 0 <= i < |s| ==> IsDigit(s[i])
  }

  /** `str(n)` for a non-negative integer. */
  function NatToString(n: nat): (s: string)
    ensures |s| >= 1 && AllDigits(s)
  {
    if n < 10 then [DigitChar(n)] else NatToString(n / 10) + [DigitChar(n % 10)]
  }

  /** `str(n)`. */
  function IntToString(n: int): (s: string)
    ensures |s| >= 1 && !IsSpace(s[0]) && !IsSpace(s[|s| - 1])
  {
    if n < 0 then "-" + NatToString(-n) else NatToString(n)
  }

  /** `str(n)` is a single field of a line. */
  lemma IntToStringIsToken(n: int)
    ensures IsToken(IntToString(n))
  {
    var s := IntToString(n);
    if n >= 0 {
      assert AllDigits(s);
    } else {
      assert AllDigits(s[1..]);
    }
  }

  /** Digit groups as Python's `int()` accepts them: digits, single underscores only between digits. */
  predicate ValidDigits(s: string) {
    && |s| >= 1 && IsDigit(s[0]) && IsDigit(s[|s| - 1])
    && (forall i :: 0 <= i < |s| ==> IsDigit(s[i]) || s[i] == '_')
    && (forall i :: 0 <= i < |s| - 1 ==> s[i] == '_' ==> s[i + 1] != '_')
  }

  /** The value of a digit string, underscores ignored. */
  function DigitsValue(s: string): nat
    requires forall i :: 0 <= i < |s| ==> IsDigit(s[i]) || s[i] == '_'
  {
    if s == [] then 0
    else if s[|s| - 1] == '_' then DigitsValue(s[..|s| - 1])
    else DigitsValue(s[..|s| - 1]) * 10 + DigitValue(s[|s| - 1])
  }

  /** Python's `int(t)` on text without surrounding whitespace; `None` where Python raises `ValueError`. */
  function ParseIntToken(t: string): Option<int> {
    if |t| >= 1 && (t[0] == '+' || t[0] == '-') then
      if ValidDigits(t[1..]) then
        var v: int := DigitsValue(t[1..]);
        Some(if t[0] == '-' then -v else v)
      else None
    else if ValidDigits(t) then Some(DigitsValue(t))
    else None
  }

  /** Python's `int(s)`: surrounding whitespace is allowed. */
  function PyInt(s: string): Option<int> {
    ParseIntToken(Strip(s))
  }

  lemma {:induction false} DigitsValueOfNat(n: nat)
    ensures DigitsValue(NatToString(n)) == n
  {
    if n >= 10 {
      var s := NatToString(n);
      assert s[..|s| - 1] == NatToString(n / 10);
      DigitsValueOfNat(n / 10);
    }
  }

  /** `str(n)` of a non-negative `n` is a digit group `int()` accepts, with value `n`. */
  lemma NatToStringParses(n: nat)
    ensures ValidDigits(NatToString(n)) && DigitsValue(NatToString(n)) == n
  {
    DigitsValueOfNat(n);
  }

  /** `str(n)` is read back by `int()` on the token itself. */
  lemma ParseIntTokenOfIntToString(n: int)
    ensures ParseIntToken(IntToString(n)) == Some(n)
  {
    var s := IntToString(n);
    if n < 0 {
      assert s[1..] == NatToString(-n);
      NatToStringParses(-n);
    } else {
      NatToStringParses(n);
      assert IsDigit(s[0]);
    }
  }

  /** `int(str(n)) == n`. */
  lemma PyIntOfIntToString(n: int)
    ensures PyInt(IntToString(n)) == Some(n)
  {
    StripTrimmed(IntToString(n));
    ParseIntTokenOfIntToString(n);
  }

  // ---------------------------------------------------------------------------
  // Reals: float() and fixed-point formatting
  // ---------------------------------------------------------------------------

  function Pow10(d: nat): (p: nat)
    ensures p >= 1
  {
    if d == 0 then 1 else 10 * Pow10(d - 1)
  }

  function Pow10Int(k: int): (r: real)
    ensures r > 0.0
  {
    if k >= 0 then Pow10(k) as real else 1.0 / Pow10(-k) as real
  }

  /** Index of the first character of `s` in `cs`, or `|s|`. */
  function IndexOfAny(s: string, cs: set<char>): (i: nat)
    ensures i <= |s|
    ensures forall j :: 0 <= j < i ==> s[j] !in cs
    ensures i < |s| ==> s[i] in cs
  {
    if s == [] || s[0] in cs then 0 else 1 + IndexOfAny(s[1..], cs)
  }

  /** An exponent: optional sign and at least one digit. */
  function ParseExponent(t: string): Option<int> {
    if |t| >= 1 && (t[0] == '+' || t[0] == '-') then
      if |t| >= 2 && AllDigits(t[1..]) then
        var v: int := DigitsValue(t[1..]);
        Some(if t[0] == '-' then -v else v)
      else None
    else if |t| >= 1 && AllDigits(t) then Some(DigitsValue(t))
    else None
  }

  /** Decimal notation without sign: `ddd`, `ddd.`, `.ddd`, `ddd.ddd`, each optionally followed by an exponent. */
  function ParseUnsignedDecimal(t: string): Option<real> {
    var e := IndexOfAny(t, {'e', 'E'});
    var mant := t[..e];
    var dot := IndexOfAny(mant, {'.'});
    var ip := mant[..dot];
    var fp := if dot < |mant| then mant[dot + 1..] else "";
    if !(AllDigits(ip) && AllDigits(fp) && |ip| + |fp| >= 1) then None
    else
      var m := DigitsValue(ip + fp) as real / Pow10(|fp|) as real;
      if e == |t| then Some(m)
      else
        match ParseExponent(t[e + 1..])
        case None => None
        case Some(k) => Some(m * Pow10Int(k))
  }

  /**
   * Python's `float(t)` on a token, for finite decimal notation. The spellings
   * `inf`, `infinity` and `nan` give `None` here: every caller in the model only
   * keeps values in [0, 1], which no infinity or NaN satisfies.
   */
  function ParseFloatToken(t: string): Option<real> {
    if |t| >= 1 && (t[0] == '+' || t[0] == '-') then
      match ParseUnsignedDecimal(t[1..])
      case None => None
      case Some(v) => Some(if t[0] == '-' then -v else v)
    else ParseUnsignedDecimal(t)
  }

  /** Fixed-point text has no whitespace: it is one token. */
  lemma FormatFixedIsToken(x: real, d: nat)
    ensures IsToken(FormatFixed(x, d))
  {
    var r := FormatFixed(x, d);
    forall i | 0 <= i < |r| ensures !IsSpace(r[i]) {
      assert IsFixedChar(r[i]);
    }
  }

  function Abs(x: real): (r: real)
    ensures r >= 0.0 && (r == x || r == -x)
  {
    if x < 0.0 then -x else x
  }

  /** Rounding to the nearest integer, ties to even (the rounding of Python's `format`). */
  function RoundHalfEven(r: real): (n: nat)
    requires r >= 0.0
    ensures -(1.0 / 2.0) <= r - n as real <= 1.0 / 2.0
    ensures (r - n as real == 1.0 / 2.0 || n as real - r == 1.0 / 2.0) ==> n % 2 == 0
  {
    var f := r.Floor;
    var frac := r - f as real;
    if frac > 0.5 then f + 1
    else if frac < 0.5 then f
    else if f % 2 == 0 then f
    else f + 1
  }

  /** `str(n)` padded on the left with zeros to at least `width` digits. */
  function PaddedDigits(n: nat, width: nat): (r: string)
    ensures |r| >= width && |r| >= 1 && AllDigits(r)
  {
    var s := NatToString(n);
    if |s| >= width then s
    else
      var pad := seq(width - |s|, _ => '0');
      assert AllDigits(pad + s) by {
        forall i | 0 <= i < |pad + s| ensures IsDigit((pad + s)[i]) {
          if i >= |pad| { assert (pad + s)[i] == s[i - |pad|]; }
        }
      }
      pad + s
  }

  /** A character of fixed-point text: a digit, the minus sign or the point. */
  predicate IsFixedChar(c: char) {
    IsDigit(c) || c == '-' || c == '.'
  }

  /** Sign, integer digits and an optional point with fraction digits contain only fixed-point characters. */
  lemma FixedTextChars(sign: string, ip: string, frac: string)
    requires sign == "" || sign == "-"
    requires AllDigits(ip)
    requires frac == "" || (frac[0] == '.' && AllDigits(frac[1..]))
    ensures forall i :: 0 <= i < |sign + ip + frac| ==> IsFixedChar((sign + ip + frac)[i])
  {
    var r := sign + ip + frac;
    forall i | 0 <= i < |r| ensures IsFixedChar(r[i]) {
      if i < |sign| {
        assert r[i] == sign[i];
      } else if i < |sign| + |ip| {
        assert r[i] == ip[i - |sign|];
      } else if i > |sign| + |ip| {
        assert r[i] == frac[1..][i - |sign| - |ip| - 1];
      }
    }
  }

  /**
   * `f"{x:.{d}f}"`: `x` is taken to be the exact value of the double, so rounding
   * half to even at the d-th decimal is what Python's formatting does.
   */
  function FormatFixed(x: real, d: nat): (r: string)
    ensures |r| >= d + 1
    ensures (x < 0.0) <==> (r[0] == '-')
    ensures d > 0 ==> r[|r| - d - 1] == '.' && AllDigits(r[|r| - d..])
    ensures forall i :: 0 <= i < |r| ==> IsFixedChar(r[i])
  {
    var n := RoundHalfEven(Abs(x) * Pow10(d) as real);
    var digits := PaddedDigits(n, d + 1);
    var cut := |digits| - d;
    var sign := if x < 0.0 then "-" else "";
    var frac := if d == 0 then "" else "." + digits[cut..];
    assert frac != "" ==> frac[1..] == digits[cut..];
    FixedTextChars(sign, digits[..cut], frac);
    var r := sign + digits[..cut] + frac;
    assert d > 0 ==> r[|r| - d..] == digits[cut..];
    r
  }
}
