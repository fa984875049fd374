/** The Python string operations the scripts rely on, restricted to ASCII digits and whitespace:
    `str.splitlines()`, `int(text)`, `str(n)` and `re.findall('-?\d+', text)`. */
module PyText {
  import opened Wrappers

  // ---------------------------------------------------------------- digits and str(n)

  /** An ASCII decimal digit: what `\d` and `int()` accept in this model. */
  predicate IsDigit(c: char) { '0' <= c <= '9' }

  predicate AllDigits(s: string) { forall i :: 0 <= i < |s| ==> IsDigit(s[i]) }

  function DigitValue(c: char): nat
    requires IsDigit(c)
  {
    c as int - '0' as int
  }

  function DigitChar(d: nat): (c: char)
    requires d < 10
    ensures IsDigit(c) && DigitValue(c) == d
  {
    ('0' as int + d) as char
  }

  /** The value of a run of decimal digits, most significant digit first. */
  function DecimalValue(s: string): nat
    requires AllDigits(s)
    decreases |s|
  {
    if s == [] then 0 else 10 * DecimalValue(s[..|s| - 1]) + DigitValue(s[|s| - 1])
  }

  /** `str(n)` for a non-negative integer: digits only, and a leading zero only for zero itself. */
  function NatToDecimal(n: nat): (s: string)
    ensures s != [] && AllDigits(s)
    ensures s[0] == '0' <==> n == 0
    decreases n
  {
    if n < 10 then [DigitChar(n)] else NatToDecimal(n / 10) + [DigitChar(n % 10)]
  }

  /** `str(i)` for any integer. */
  function IntToDecimal(i: int): string
  {
    if i < 0 then "-" + NatToDecimal(-i) else NatToDecimal(i)
  }

  /** Reading back what `str(n)` wrote gives `n`. */
  lemma {:induction false} DecimalRoundTrip(n: nat)
    ensures DecimalValue(NatToDecimal(n)) == n
    decreases n
  {
    if n >= 10 {
      var prefix := NatToDecimal(n / 10);
      var s := prefix + [DigitChar(n % 10)];
      assert s[..|s| - 1] == prefix;
      DecimalRoundTrip(n / 10);
    }
  }

  /** Distinct numbers are written differently. */
  lemma NatToDecimalInjective(a: nat, b: nat)
    ensures NatToDecimal(a) == NatToDecimal(b) ==> a == b
  {
    DecimalRoundTrip(a);
    DecimalRoundTrip(b);
  }

  // ---------------------------------------------------------------- int(text)

  /** The ASCII characters Python's `int()` skips around its argument: space and `\t` .. `\r`. The
      separators `\x1c` .. `\x1f`, which `str.strip` also removes, are not among them. */
  predicate IsPySpace(c: char)
  {
    c == ' ' || '\t' <= c <= '\r'
  }

  function LStrip(s: string): string
    decreases |s|
  {
    if s != [] && IsPySpace(s[0]) then LStrip(s[1..]) else s
  }

  function RStrip(s: string): string
    decreases |s|
  {
    if s != [] && IsPySpace(s[|s| - 1]) then RStrip(s[..|s| - 1]) else s
  }

  function Strip(s: string): string { RStrip(LStrip(s)) }

  /** Digits, optionally split into groups by single underscores (`1_000`), as `int()` accepts. */
  predicate IsDigitGroups(s: string)
  {
    |s| > 0 && IsDigit(s[0]) && IsDigit(s[|s| - 1]) &&
    (forall i :: 0 <= i < |s| ==> IsDigit(s[i]) || s[i] == '_') &&
    (forall i :: 0 <= i < |s| - 1 ==> s[i] == '_' ==> s[i + 1] != '_')
  }

  function DropUnderscores(s: string): (t: string)
    requires forall i :: 0 <= i < |s| ==> IsDigit(s[i]) || s[i] == '_'
    ensures AllDigits(t)
    decreases |s|
  {
    if s == [] then [] else (if s[0] == '_' then [] else [s[0]]) + DropUnderscores(s[1..])
  }

  function Magnitude(s: string): nat
    requires IsDigitGroups(s)
  {
    DecimalValue(DropUnderscores(s))
  }

  /** `int(line)` in base 10: `Some(value)`, or `None` where Python raises ValueError.
      Grammar: whitespace, an optional sign, digit groups, whitespace. */
  function ParsePyInt(line: string): Option<int>
  {
    var t := Strip(line);
    if |t| > 0 && (t[0] == '+' || t[0] == '-') then
      if IsDigitGroups(t[1..]) then
        var m: int := Magnitude(t[1..]);
        Some(if t[0] == '-' then -m else m)
      else None
    else if IsDigitGroups(t) then Some(Magnitude(t))
    else None
  }

  lemma {:induction false} DropUnderscoresOfDigits(s: string)
    requires AllDigits(s)
    ensures DropUnderscores(s) == s
    decreases |s|
  {
    if s != [] {
      DropUnderscoresOfDigits(s[1..]);
    }
  }

  lemma StripKeepsTrimmed(s: string)
    requires s != [] && !IsPySpace(s[0]) && !IsPySpace(s[|s| - 1])
    ensures Strip(s) == s
  {
  }

  /** A written number is one digit group whose value is the number. */
  lemma DecimalIsDigitGroup(m: nat)
    ensures IsDigitGroups(NatToDecimal(m)) && Magnitude(NatToDecimal(m)) == m
  {
    var d := NatToDecimal(m);
    DecimalRoundTrip(m);
    DropUnderscoresOfDigits(d);
  }

  lemma ParsePyIntOfNatural(m: nat)
    ensures ParsePyInt(NatToDecimal(m)) == Some(m)
  {
    var d := NatToDecimal(m);
    DecimalIsDigitGroup(m);
    assert IsDigit(d[0]) && IsDigit(d[|d| - 1]);
    StripKeepsTrimmed(d);
  }

  lemma ParsePyIntOfNegative(m: nat)
    ensures ParsePyInt("-" + NatToDecimal(m)) == Some(-(m as int))
  {
    var d := NatToDecimal(m);
    var s := "-" + d;
    DecimalIsDigitGroup(m);
    assert s[0] == '-' && s[|s| - 1] == d[|d| - 1] && IsDigit(d[|d| - 1]);
    StripKeepsTrimmed(s);
    assert s[1..] == d;
  }

  /** `int(str(i)) == i`. */
  lemma ParsePyIntOfDecimal(i: int)
    ensures ParsePyInt(IntToDecimal(i)) == Some(i)
  {
    if i < 0 {
      var m: nat := -i;
      assert IntToDecimal(i) == "-" + NatToDecimal(m);
      ParsePyIntOfNegative(m);
    } else {
      assert IntToDecimal(i) == NatToDecimal(i);
      ParsePyIntOfNatural(i);
    }
  }

  lemma {:induction false} LStripSkipsSpaces(pre: string, t: string)
    requires forall i :: 0 <= i < |pre| ==> IsPySpace(pre[i])
    ensures LStrip(pre + t) == LStrip(t)
    decreases |pre|
  {
    if pre == [] {
      assert pre + t == t;
    } else {
      assert (pre + t)[0] == pre[0] && IsPySpace(pre[0]);
      assert (pre + t)[1..] == pre[1..] + t;
      LStripSkipsSpaces(pre[1..], t);
    }
  }

  lemma {:induction false} RStripSkipsSpaces(t: string, post: string)
    requires forall i :: 0 <= i < |post| ==> IsPySpace(post[i])
    ensures RStrip(t + post) == RStrip(t)
    decreases |post|
  {
    if post == [] {
      assert t + post == t;
    } else {
      var s := t + post;
      assert s[|s| - 1] == post[|post| - 1] && IsPySpace(post[|post| - 1]);
      assert s[..|s| - 1] == t + post[..|post| - 1];
      RStripSkipsSpaces(t, post[..|post| - 1]);
    }
  }

  /** `int()` ignores whitespace around the number: padding a line never changes what it parses to. */
  lemma ParsePyIntIgnoresPadding(pre: string, t: string, post: string)
    requires forall i :: 0 <= i < |pre| ==> IsPySpace(pre[i])
    requires forall i :: 0 <= i < |post| ==> IsPySpace(post[i])
    ensures ParsePyInt(pre + t + post) == ParsePyInt(t)
  {
    assert pre + t + post == pre + (t + post);
    LStripSkipsSpaces(pre, t + post);
    var l := LStrip(t);
    LStripOfSuffix(t, post);
    RStripSkipsSpaces(l, post);
    assert Strip(pre + t + post) == Strip(t);
  }

  /** A text that does not start with whitespace keeps its first character through the right strip. */
  lemma {:induction false} RStripKeepsHead(s: string)
    requires s != [] && !IsPySpace(s[0])
    ensures RStrip(s) != [] && RStrip(s)[0] == s[0]
    decreases |s|
  {
    if IsPySpace(s[|s| - 1]) {
      RStripKeepsHead(s[..|s| - 1]);
    }
  }

  /** The information separators `\x1c` .. `\x1f` are not whitespace to `int()`: a line that starts
      with one is never an integer (`int('\x1f1')` raises ValueError). */
  lemma ParsePyIntRejectsLeadingSeparator(c: char, t: string)
    requires '\U{1C}' <= c <= '\U{1F}'
    ensures ParsePyInt([c] + t) == None
  {
    var s := [c] + t;
    assert LStrip(s) == s;
    RStripKeepsHead(s);
  }

  /** Trailing spaces survive a left strip unless the whole text is spaces; either way the right strip agrees. */
  lemma {:induction false} LStripOfSuffix(t: string, post: string)
    requires forall i :: 0 <= i < |post| ==> IsPySpace(post[i])
    ensures RStrip(LStrip(t + post)) == RStrip(LStrip(t) + post)
    decreases |t|
  {
    if t == [] {
      var e: string := [];
      LStripSkipsSpaces(post, e);
      assert post + e == post && t + post == post;
      RStripSkipsSpaces(e, post);
      assert e + post == post;
      assert LStrip(t) == e;
    } else if IsPySpace(t[0]) {
      assert (t + post)[1..] == t[1..] + post;
      LStripOfSuffix(t[1..], post);
    } else {
      assert (t + post)[0] == t[0];
    }
  }

  // ---------------------------------------------------------------- str.splitlines()

  /** The line boundaries of `str.splitlines()`. */
  predicate IsLineBreak(c: char)
  {
    c == '\n' || c == '\r' || c == '\U{B}' || c == '\U{C}' || '\U{1C}' <= c <= '\U{1E}' ||
    c == '\U{85}' || c == '\U{2028}' || c == '\U{2029}'
  }

  predicate NoLineBreak(l: string) { forall i :: 0 <= i < |l| ==> !IsLineBreak(l[i]) }

  /** Index of the first line boundary, or the length when there is none. */
  function FirstBreak(s: string): (i: nat)
    ensures i <= |s|
    ensures i < |s| ==> IsLineBreak(s[i])
    ensures NoLineBreak(s[..i])
    decreases |s|
  {
    if s == [] || IsLineBreak(s[0]) then 0 else 1 + FirstBreak(s[1..])
  }

  /** `str.splitlines()`: the lines without their terminators; `\r\n` ends one line, and a
      terminator at the very end does not open an empty last line. */
  function SplitLines(s: string): (lines: seq<string>)
    ensures forall k :: 0 <= k < |lines| ==> NoLineBreak(lines[k])
    decreases |s|
  {
    if s == [] then []
    else
      var i := FirstBreak(s);
      if i == |s| then [s]
      else
        var next := if s[i] == '\r' && i + 1 < |s| && s[i + 1] == '\n' then i + 2 else i + 1;
        [s[..i]] + SplitLines(s[next..])
  }

  /** Lines each followed by `\r\n`, the framing the radio answers in. */
  function CrLfTerminated(lines: seq<string>): string
  {
    if lines == [] then "" else lines[0] + "\r\n" + CrLfTerminated(lines[1..])
  }

  lemma FirstBreakAt(l: string, t: string)
    requires NoLineBreak(l) && t != [] && IsLineBreak(t[0])
    ensures FirstBreak(l + t) == |l|
  {
    var i := FirstBreak(l + t);
    assert (l + t)[|l|] == t[0];
  }

  /** Splitting CR-LF framed lines gives the lines back. */
  lemma {:induction false} SplitLinesOfCrLfTerminated(lines: seq<string>)
    requires forall k :: 0 <= k < |lines| ==> NoLineBreak(lines[k])
    ensures SplitLines(CrLfTerminated(lines)) == lines
    decreases |lines|
  {
    if lines != [] {
      var l, rest := lines[0], CrLfTerminated(lines[1..]);
      var s := l + "\r\n" + rest;
      assert s == l + ("\r\n" + rest);
      FirstBreakAt(l, "\r\n" + rest);
      assert s[|l|] == '\r' && s[|l| + 1] == '\n';
      assert s[..|l|] == l;
      assert s[|l| + 2..] == rest;
      SplitLinesOfCrLfTerminated(lines[1..]);
    }
  }

  // ---------------------------------------------------------------- re.findall('-?\d+', text)

  /** Length of the run of digits at the start of `s`. */
  function LeadingDigits(s: string): (k: nat)
    ensures k <= |s| && AllDigits(s[..k])
    ensures k < |s| ==> !IsDigit(s[k])
    decreases |s|
  {
    if s != [] && IsDigit(s[0]) then 1 + LeadingDigits(s[1..]) else 0
  }

  /** `list(map(int, re.findall('-?\d+', s)))`: every maximal run of digits, left to right, negated
      when a minus sign stands right before it. */
  function IntTokens(s: string): seq<int>
    decreases |s|
  {
    if s == [] then []
    else if IsDigit(s[0]) then
      var k := LeadingDigits(s);
      var v: int := DecimalValue(s[..k]);
      [v] + IntTokens(s[k..])
    else if s[0] == '-' && |s| > 1 && IsDigit(s[1]) then
      var k := 1 + LeadingDigits(s[1..]);
      assert s[1..][..k - 1] == s[1..k];
      var v: int := DecimalValue(s[1..k]);
      [-v] + IntTokens(s[k..])
    else IntTokens(s[1..])
  }

  predicate HasDigit(s: string) { exists i :: 0 <= i < |s| && IsDigit(s[i]) }

  /** The pattern finds nothing exactly when the text has no digit. */
  lemma {:induction false} IntTokensEmptyIff(s: string)
    ensures IntTokens(s) == [] <==> !HasDigit(s)
    decreases |s|
  {
    if s != [] {
      if IsDigit(s[0]) {
      } else if s[0] == '-' && |s| > 1 && IsDigit(s[1]) {
      } else {
        IntTokensEmptyIff(s[1..]);
        if HasDigit(s) {
          var i :| 0 <= i < |s| && IsDigit(s[i]);
          assert s[1..][i - 1] == s[i];
        }
        if HasDigit(s[1..]) {
          var i :| 0 <= i < |s[1..]| && IsDigit(s[1..][i]);
          assert s[i + 1] == s[1..][i];
        }
      }
    }
  }

  /** The first match is the run of digits that starts at the first digit of the text, with the
      minus sign right before it if there is one. */
  lemma {:induction false} FirstIntToken(s: string, i: nat)
    requires i < |s| && IsDigit(s[i])
    requires forall j :: 0 <= j < i ==> !IsDigit(s[j])
    ensures IntTokens(s) != []
    ensures IntTokens(s)[0] == (if i > 0 && s[i - 1] == '-' then -1 else 1) * DecimalValue(s[i..][..LeadingDigits(s[i..])])
    decreases i
  {
    if i == 0 {
      assert s[0..] == s;
    } else if s[0] == '-' && IsDigit(s[1]) {
      assert i == 1;
      assert s[1..][..LeadingDigits(s[1..])] == s[1..1 + LeadingDigits(s[1..])];
    } else {
      assert !IsDigit(s[0]);
      FirstIntToken(s[1..], i - 1);
      assert s[1..][i - 1..] == s[i..];
      if i - 1 > 0 {
        assert s[1..][i - 2] == s[i - 1];
      }
    }
  }
}
