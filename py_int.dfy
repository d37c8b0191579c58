/**
 * Python's decimal conversions between `int` and `str`, as the test programs
 * use them: `str(n)` renders a note's octave number and `int(s)` reads a
 * device id typed by the user.
 */
module PyInt {
  import opened Wrappers

  predicate IsDigit(c: char) {
    '0' <= c <= '9'
  }

  /**
   * The whitespace `int()` strips around its argument: tab to carriage
   * return, space, NEL, no-break space and the Unicode space separators.
   * These are the characters `str.isspace` accepts except the information
   * separators 0x1C to 0x1F, which `int()` keeps and then rejects.
   */
  predicate IsSpace(c: char) {
    || c == ' ' || '\t' <= c <= '\r'
    || c == '\U{85}' || c == '\U{A0}' || c == '\U{1680}' || '\U{2000}' <= c <= '\U{200A}'
    || c == '\U{2028}' || c == '\U{2029}' || c == '\U{202F}' || c == '\U{205F}' || c == '\U{3000}'
  }

  predicate AllSpace(s: string) {
    forall i :: 0 <= i < |s| ==> IsSpace(s[i])
  }

  predicate AllDigits(s: string) {
    forall i :: 0 <= i < |s| ==> IsDigit(s[i])
  }

  function DigitValue(c: char): (d: nat)
    requires IsDigit(c)
    ensures d <= 9
  {
    c as int - '0' as int
  }

  function DigitChar(d: nat): (c: char)
    requires d <= 9
    ensures IsDigit(c) && DigitValue(c) == d
  {
    ('0' as int + d) as char
  }

  /** The value of a numeral, most significant digit first. */
  function DigitsValue(s: string): nat
    requires AllDigits(s)
  {
    if s == [] then 0 else DigitsValue(s[..|s| - 1]) * 10 + DigitValue(s[|s| - 1])
  }

  /** `str(n)` for a non-negative `n`: the shortest decimal numeral of `n`. */
  function ShowNat(n: nat): (s: string)
    ensures |s| >= 1 && AllDigits(s)
    ensures DigitsValue(s) == n
    ensures |s| > 1 ==> s[0] != '0'
  {
    if n < 10 then [DigitChar(n)]
    else
      var front := ShowNat(n / 10);
      var s := front + [DigitChar(n % 10)];
      assert s[..|s| - 1] == front;
      s
  }

  /** `str(n)`: a minus sign for negative numbers, then the numeral of `|n|`. */
  function Show(n: int): (s: string)
    ensures |s| >= 1 && (s[0] == '-' || IsDigit(s[0])) && IsDigit(s[|s| - 1])
    ensures s[0] == '-' <==> n < 0
    ensures var digits := if n < 0 then s[1..] else s;
      && |digits| >= 1 && AllDigits(digits)
      && DigitsValue(digits) == (if n < 0 then -n else n)
      && (|digits| > 1 ==> digits[0] != '0')
  {
    if n < 0 then
      var s := "-" + ShowNat(-n);
      assert s[1..] == ShowNat(-n);
      s
    else ShowNat(n)
  }

  function TrimStart(s: string): (r: string)
    ensures |r| <= |s| && r == s[|s| - |r|..]
    ensures r == [] || !IsSpace(r[0])
  {
    if s != [] && IsSpace(s[0]) then TrimStart(s[1..]) else s
  }

  function TrimEnd(s: string): (r: string)
    ensures |r| <= |s| && r == s[..|r|]
    ensures r == [] || !IsSpace(r[|r| - 1])
  {
    if s != [] && IsSpace(s[|s| - 1]) then TrimEnd(s[..|s| - 1]) else s
  }

  /** What the strip drops from the front is whitespace. */
  lemma {:induction false} TrimStartDropsSpace(s: string)
    ensures AllSpace(s[..|s| - |TrimStart(s)|])
  {
    if s != [] && IsSpace(s[0]) {
      TrimStartDropsSpace(s[1..]);
      var k := |s| - |TrimStart(s)|;
      assert forall i :: 1 <= i < k ==> s[..k][i] == s[1..][..k - 1][i - 1];
    }
  }

  /** What the strip drops from the end is whitespace. */
  lemma {:induction false} TrimEndDropsSpace(s: string)
    ensures AllSpace(s[|TrimEnd(s)|..])
  {
    if s != [] && IsSpace(s[|s| - 1]) {
      var front := s[..|s| - 1];
      TrimEndDropsSpace(front);
      var k := |TrimEnd(s)|;
      assert forall i :: 0 <= i < |s| - 1 - k ==> s[k..][i] == front[k..][i];
    }
  }

  /** Digits with single underscores between them, as `int()` accepts in "1_000". */
  predicate IsDigitGroup(b: string) {
    && |b| > 0 && IsDigit(b[0]) && IsDigit(b[|b| - 1])
    && (forall i :: 0 <= i < |b| ==> IsDigit(b[i]) || b[i] == '_')
    && (forall i :: 0 <= i < |b| - 1 ==> b[i] == '_' ==> b[i + 1] != '_')
  }

  /** The digits of a digit group, underscores dropped. */
  function Digits(b: string): (r: string)
    ensures AllDigits(r)
    ensures AllDigits(b) ==> r == b
  {
    if b == [] then []
    else
      var rest := Digits(b[1..]);
      if IsDigit(b[0]) then
        assert [b[0]] + b[1..] == b;
        [b[0]] + rest
      else rest
  }

  /** Underscores are dropped character by character: the digits of `a + b` are those of `a`, then those of `b`. */
  lemma {:induction false} DigitsAppend(a: string, b: string)
    ensures Digits(a + b) == Digits(a) + Digits(b)
  {
    if a != [] {
      assert (a + b)[1..] == a[1..] + b;
      DigitsAppend(a[1..], b);
    } else {
      assert a + b == b;
    }
  }

  /** One character: a digit is kept, an underscore dropped. */
  lemma DigitsOfChar(c: char)
    ensures Digits([c]) == if IsDigit(c) then [c] else []
  {
    assert [c][1..] == [];
  }

  /** `int("1_000") == 1000`. */
  lemma ParseGroupedThousands()
    ensures Parse("1_000") == Some(1000)
  {
    NothingToTrim("1_000");
    GroupedThousands();
    ThousandValue();
  }

  lemma ThousandValue()
    ensures AllDigits("1000") && DigitsValue("1000") == 1000
  {
    assert "1000"[..3] == "100" && "100"[..2] == "10" && "10"[..1] == "1";
  }

  lemma GroupedThousands()
    ensures IsDigitGroup("1_000") && Digits("1_000") == "1000"
  {
    assert "1_000" == "1" + "_" + "000";
    DigitsAppend("1" + "_", "000");
    DigitsAppend("1", "_");
    DigitsOfChar('1');
    DigitsOfChar('_');
  }

  /**
   * `int(s)` in base 10: `Some(value)`, or `None` where Python raises
   * ValueError (an empty string, a stray character, a doubled underscore).
   */
  function Parse(s: string): (r: Option<int>)
  {
    ParseNumeral(TrimEnd(TrimStart(s)))
  }

  /** A numeral with an optional sign, after the whitespace is stripped. */
  function ParseNumeral(t: string): Option<int> {
    if |t| > 0 && (t[0] == '-' || t[0] == '+') then
      var body := t[1..];
      if IsDigitGroup(body) then
        var magnitude: int := DigitsValue(Digits(body));
        Some(if t[0] == '-' then -magnitude else magnitude)
      else None
    else if IsDigitGroup(t) then Some(DigitsValue(Digits(t)))
    else None
  }

  /** An information separator is not stripped, so a line that starts with one is not a number. */
  lemma ParseRejectsLeadingSeparator(c: char, s: string)
    requires '\U{1C}' <= c <= '\U{1F}'
    ensures Parse([c] + s) == None
  {
    var line := [c] + s;
    NoSpaceToTrimStart(line);
    TrimEndKeepsFirst(line);
    NumeralRejectsSeparator(TrimEnd(line), c);
  }

  lemma NoSpaceToTrimStart(s: string)
    requires s != [] && !IsSpace(s[0])
    ensures TrimStart(s) == s
  {
  }

  lemma TrimEndKeepsFirst(s: string)
    ensures TrimEnd(s) != [] ==> TrimEnd(s)[0] == s[0]
  {
  }

  lemma NumeralRejectsSeparator(t: string, c: char)
    requires '\U{1C}' <= c <= '\U{1F}'
    requires t != [] ==> t[0] == c
    ensures ParseNumeral(t) == None
  {
  }

  /** A numeral that `str` wrote, `int` reads back. */
  lemma ParseShow(n: int)
    ensures Parse(Show(n)) == Some(n)
  {
    NothingToTrim(Show(n));
    NumeralShow(n);
  }

  /** A string that starts and ends with a non-space is left as it is by the strip. */
  lemma NothingToTrim(s: string)
    requires s != [] && !IsSpace(s[0]) && !IsSpace(s[|s| - 1])
    ensures TrimEnd(TrimStart(s)) == s
  {
    assert TrimStart(s) == s;
  }

  /** A numeral starts with a sign or a digit and ends with a digit, so neither end is whitespace. */
  lemma ShowEdges(n: int)
    ensures Show(n) != [] && !IsSpace(Show(n)[0]) && !IsSpace(Show(n)[|Show(n)| - 1])
  {
  }

  lemma NumeralShow(n: int)
    ensures ParseNumeral(Show(n)) == Some(n)
  {
    var body := ShowNat(if n < 0 then -n else n);
    assert IsDigitGroup(body);
  }

  /** Whitespace before and after a numeral does not change what `int()` reads. */
  lemma ParseIgnoresSurroundingSpace(n: int, left: string, right: string)
    requires AllSpace(left) && AllSpace(right)
    ensures Parse(left + Show(n) + right) == Some(n)
  {
    ShowEdges(n);
    NumeralShow(n);
    SurroundedNumeral(left, Show(n), right, n);
  }

  /** A numeral that starts and ends with a non-space reads the same with whitespace around it. */
  lemma SurroundedNumeral(left: string, s: string, right: string, v: int)
    requires AllSpace(left) && AllSpace(right)
    requires s != [] && !IsSpace(s[0]) && !IsSpace(s[|s| - 1])
    requires ParseNumeral(s) == Some(v)
    ensures Parse(left + s + right) == Some(v)
  {
    assert left + s + right == left + (s + right);
    TrimStartSkipsSpace(left, s + right);
    TrimEndSkipsSpace(s, right);
  }

  lemma {:induction false} TrimStartSkipsSpace(pad: string, s: string)
    requires AllSpace(pad)
    requires s != [] && !IsSpace(s[0])
    ensures TrimStart(pad + s) == s
  {
    if pad != [] {
      assert (pad + s)[1..] == pad[1..] + s;
      TrimStartSkipsSpace(pad[1..], s);
    } else {
      assert pad + s == s;
    }
  }

  lemma {:induction false} TrimEndSkipsSpace(s: string, pad: string)
    requires AllSpace(pad)
    requires s != [] && !IsSpace(s[|s| - 1])
    ensures TrimEnd(s + pad) == s
  {
    if pad != [] {
      assert (s + pad)[..|s + pad| - 1] == s + pad[..|pad| - 1];
      TrimEndSkipsSpace(s, pad[..|pad| - 1]);
    } else {
      assert s + pad == s;
    }
  }
}
