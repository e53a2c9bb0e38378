/**
 * Python's `int(text)` on a `str` in base 10, which the link parser uses for the port
 * (main.py:76), and `str(n)`, which writes a natural number back out.
 *
 * `int()` skips surrounding white space (what `str.isspace()` accepts, except the four
 * information separators U+001C to U+001F), takes an optional sign and then decimal digits,
 * allowing single underscores between digits. Since CPython 3.11 (and 3.10.7) it also
 * refuses texts with more than 4300 digits. Any other text raises `ValueError`, which is
 * `None` here. There is no range check: `-1` and `70000` are both accepted.
 */
module PyInt {
  import opened Wrappers
  import opened PyStr

  /** CPython's default `sys.int_info.default_max_str_digits`. */
  const MAX_STR_DIGITS := 4300

  predicate IsDigit(c: char) {
    '0' <= c <= '9'
  }

  predicate AllDigits(ds: string) {
    forall i :: 0 <= i < |ds| ==> IsDigit(ds[i])
  }

  function DigitValue(c: char): nat
    requires IsDigit(c)
  {
    c as nat - '0' as nat
  }

  function DigitChar(d: nat): (c: char)
    requires d < 10
    ensures IsDigit(c) && DigitValue(c) == d
  {
    ('0' as nat + d) as char
  }

  /** The value of a string of decimal digits, most significant digit first. */
  function DigitsValue(ds: string): nat
    requires AllDigits(ds)
  {
    if ds == [] then 0 else DigitsValue(ds[..|ds| - 1]) * 10 + DigitValue(ds[|ds| - 1])
  }

  /** Digits, with single underscores allowed between two digits. */
  predicate IsDigitGroups(t: string) {
    && t != []
    && IsDigit(t[0])
    && IsDigit(t[|t| - 1])
    && (forall i :: 0 <= i < |t| ==> IsDigit(t[i]) || t[i] == '_')
    && (forall i :: 0 <= i < |t| - 1 ==> SingleUnderscore(t, i))
  }

  /** No underscore at `i` is followed by another one. */
  predicate SingleUnderscore(t: string, i: nat)
    requires i + 1 < |t|
  {
    t[i] == '_' ==> t[i + 1] != '_'
  }

  /** The digits of `t`, without its underscores. */
  function RemoveUnderscores(t: string): (ds: string)
    ensures |ds| <= |t|
    ensures (forall i :: 0 <= i < |t| ==> IsDigit(t[i]) || t[i] == '_') ==> AllDigits(ds)
    ensures (forall i :: 0 <= i < |t| ==> t[i] != '_') ==> ds == t
  {
    if t == [] then []
    else if t[0] == '_' then RemoveUnderscores(t[1..])
    else [t[0]] + RemoveUnderscores(t[1..])
  }

  /** The text after an optional leading sign. */
  function Unsigned(t: string): string {
    if t != [] && (t[0] == '+' || t[0] == '-') then t[1..] else t
  }

  /** `int(s)`: `Some(value)`, or `None` where Python raises `ValueError`. */
  function ParseInt(s: string): Option<int> {
    ParseTrimmed(Trim(s))
  }

  /**
   * The white space `int()` skips around the number. CPython first turns each non-ASCII
   * `isspace()` character into a space and then skips ASCII white space, so the separators
   * U+001C to U+001F, which `isspace()` accepts and `strip()` drops, are not skipped.
   */
  predicate IsIntSpace(c: char) {
    IsSpace(c) && !('\U{1C}' <= c <= '\U{1F}')
  }

  /** `s` without the white space `int()` skips in front: a suffix not starting with it. */
  function TrimLeft(s: string): (r: string)
    ensures |r| <= |s| && r == s[|s| - |r|..]
    ensures r != [] ==> !IsIntSpace(r[0])
    decreases |s|
  {
    if s != [] && IsIntSpace(s[0]) then TrimLeft(s[1..]) else s
  }

  /** `s` without the white space `int()` skips behind: a prefix not ending with it. */
  function TrimRight(s: string): (r: string)
    ensures |r| <= |s| && r == s[..|r|]
    ensures r != [] ==> !IsIntSpace(r[|r| - 1])
    decreases |s|
  {
    if s != [] && IsIntSpace(s[|s| - 1]) then TrimRight(s[..|s| - 1]) else s
  }

  /** The text `int()` reads the number from. */
  function Trim(s: string): (r: string)
    ensures r == [] || (!IsIntSpace(r[0]) && !IsIntSpace(r[|r| - 1]))
    ensures |r| <= |s|
  {
    TrimRight(TrimLeft(s))
  }

  /** What `TrimLeft` drops is white space `int()` skips, so its suffix is the longest. */
  lemma {:induction false} TrimLeftDropsSpace(s: string)
    ensures forall i :: 0 <= i < |s| - |TrimLeft(s)| ==> IsIntSpace(s[i])
    decreases |s|
  {
    if s != [] && IsIntSpace(s[0]) {
      TrimLeftDropsSpace(s[1..]);
      assert forall i :: 1 <= i < |s| - |TrimLeft(s)| ==> s[i] == s[1..][i - 1];
    }
  }

  /** What `TrimRight` drops is white space `int()` skips, so its prefix is the longest. */
  lemma {:induction false} TrimRightDropsSpace(s: string)
    ensures forall i :: |TrimRight(s)| <= i < |s| ==> IsIntSpace(s[i])
    decreases |s|
  {
    if s != [] && IsIntSpace(s[|s| - 1]) {
      TrimRightDropsSpace(s[..|s| - 1]);
      assert forall i :: |TrimRight(s)| <= i < |s| - 1 ==> s[i] == s[..|s| - 1][i];
    }
  }

  /** A text that neither starts nor ends with white space `int()` skips is its own `Trim`. */
  lemma TrimTrimmed(s: string)
    requires s == [] || (!IsIntSpace(s[0]) && !IsIntSpace(s[|s| - 1]))
    ensures Trim(s) == s
  {
    assert TrimLeft(s) == s;
  }

  /** `int()` on a text already stripped of surrounding white space. */
  function ParseTrimmed(t: string): Option<int> {
    var body := Unsigned(t);
    if !IsDigitGroups(body) then None
    else
      var ds := RemoveUnderscores(body);
      var magnitude: int := DigitsValue(ds);
      if |ds| > MAX_STR_DIGITS then None
      else if t[0] == '-' then Some(-magnitude)
      else Some(magnitude)
  }

  /** `str(n)`: the decimal digits of `n`, without leading zeros. */
  function DecimalString(n: nat): (r: string)
    ensures r != [] && AllDigits(r)
    ensures |r| == 1 || r[0] != '0'
    ensures DigitsValue(r) == n
    decreases n
  {
    if n < 10 then [DigitChar(n)]
    else
      var prefix := DecimalString(n / 10);
      var r := prefix + [DigitChar(n % 10)];
      assert r[..|r| - 1] == prefix;
      r
  }

  /** A non-empty run of digits is a single group, with no underscores to remove. */
  lemma DigitsAreGroups(ds: string)
    requires ds != [] && AllDigits(ds)
    ensures IsDigitGroups(ds)
    ensures RemoveUnderscores(ds) == ds
  {
  }

  /** A run of digits has no white space to skip. */
  lemma DigitsTrimmed(ds: string)
    requires AllDigits(ds)
    ensures Trim(ds) == ds
  {
    if ds != [] {
      assert IsDigit(ds[0]) && IsDigit(ds[|ds| - 1]);
    }
    TrimTrimmed(ds);
  }

  /** `int(ds)` is the value of `ds`, for every run of 1 to 4300 digits (leading zeros included). */
  lemma ParseDigits(ds: string)
    requires ds != [] && AllDigits(ds) && |ds| <= MAX_STR_DIGITS
    ensures ParseInt(ds) == Some(DigitsValue(ds) as int)
  {
    DigitsAreGroups(ds);
    SignedTrimmed(ds, ds);
    DigitsTrimmed(ds);
  }

  /** `int(str(n)) == n` for every natural number with at most 4300 digits. */
  lemma ParseDecimal(n: nat)
    requires |DecimalString(n)| <= MAX_STR_DIGITS
    ensures ParseInt(DecimalString(n)) == Some(n)
  {
    ParseDigits(DecimalString(n));
  }

  /** A leading minus sign is accepted: `int("-" + ds) == -value(ds)` for 1 to 4300 digits. */
  lemma ParseNegative(s: string)
    requires |s| >= 2 && s[0] == '-' && AllDigits(s[1..]) && |s| - 1 <= MAX_STR_DIGITS
    ensures ParseInt(s) == Some(-(DigitsValue(s[1..]) as int))
  {
    var ds := s[1..];
    DigitsAreGroups(ds);
    SignedTrimmed(s, ds);
    SignTrimmed(s);
  }

  /** A sign followed by digits has no white space to skip. */
  lemma SignTrimmed(s: string)
    requires |s| >= 2 && s[0] == '-' && AllDigits(s[1..])
    ensures Trim(s) == s
  {
    assert s[|s| - 1] == s[1..][|s| - 2];
    TrimTrimmed(s);
  }

  /** `int()` on a stripped text made of an optional sign and one plain group of digits. */
  lemma SignedTrimmed(t: string, ds: string)
    requires t != [] && Unsigned(t) == ds
    requires AllDigits(ds) && IsDigitGroups(ds) && RemoveUnderscores(ds) == ds
    requires |ds| <= MAX_STR_DIGITS
    ensures ParseTrimmed(t) == Some(if t[0] == '-' then -(DigitsValue(ds) as int) else DigitsValue(ds) as int)
  {
  }

  /** White space `int()` skips, added at either end, does not matter to it. */
  lemma ParsePadded(s: string, c: char)
    requires IsIntSpace(c)
    ensures ParseInt([c] + s) == ParseInt(s)
    ensures ParseInt(s + [c]) == ParseInt(s)
  {
    TrimLeadingSpace(s, c);
    TrimTrailingSpace(s, c);
  }

  lemma TrimLeadingSpace(s: string, c: char)
    requires IsIntSpace(c)
    ensures Trim([c] + s) == Trim(s)
  {
    assert ([c] + s)[1..] == s;
  }

  lemma TrimTrailingSpace(s: string, c: char)
    requires IsIntSpace(c)
    ensures Trim(s + [c]) == Trim(s)
  {
    TrimLeftPadded(s, c);
    if TrimLeft(s) != [] {
      TrimRightPadded(TrimLeft(s), c);
    }
  }

  lemma {:induction false} TrimLeftPadded(s: string, c: char)
    requires IsIntSpace(c)
    ensures TrimLeft(s + [c]) == (if TrimLeft(s) == [] then [] else TrimLeft(s) + [c])
    decreases |s|
  {
    if s == [] {
      assert TrimLeft([c]) == TrimLeft([c][1..]);
    } else if IsIntSpace(s[0]) {
      assert (s + [c])[1..] == s[1..] + [c];
      TrimLeftPadded(s[1..], c);
    }
  }

  lemma TrimRightPadded(s: string, c: char)
    requires IsIntSpace(c)
    ensures TrimRight(s + [c]) == TrimRight(s)
  {
    assert (s + [c])[..|s|] == s;
  }

  /** Every character of `s` that `int()` does not skip is part of the text it reads. */
  lemma TrimKeeps(s: string, i: nat)
    requires i < |s| && !IsIntSpace(s[i])
    ensures s[i] in Trim(s)
  {
    var l := TrimLeft(s);
    TrimLeftDropsSpace(s);
    TrimRightDropsSpace(l);
    var j := i - (|s| - |l|);
    assert j >= 0;
    assert l[j] == s[i];
    var t := TrimRight(l);
    assert j < |t|;
    assert t[j] == s[i];
  }

  /**
   * A text holding anything but white space `int()` skips, a sign, digits and underscores
   * is not an integer: such a port makes the parser fail.
   */
  lemma ParseRejects(s: string, i: nat)
    requires i < |s|
    requires !IsIntSpace(s[i]) && !IsDigit(s[i]) && s[i] !in "_+-"
    ensures ParseInt(s) == None
  {
    TrimKeeps(s, i);
    var t := Trim(s);
    var k :| 0 <= k < |t| && t[k] == s[i];
    var body := Unsigned(t);
    assert k == 0 || body[k - 1] == t[k] || body[k] == t[k];
    assert !IsDigitGroups(body);
  }

  /** The empty text, or one of white space only, is not an integer. */
  lemma ParseBlank(s: string)
    requires forall i :: 0 <= i < |s| ==> IsSpace(s[i])
    ensures ParseInt(s) == None
  {
    var t := Trim(s);
    if t != [] {
      assert t[0] == s[|s| - |TrimLeft(s)|];
    }
  }

  /**
   * The separators U+001C to U+001F are white space to `strip()`, which drops them, but
   * `int()` does not skip them: a number text holding one, even at an end, is refused.
   */
  lemma SeparatorNotSkipped(s: string, c: char)
    requires '\U{1C}' <= c <= '\U{1F}'
    ensures IsSpace(c) && Strip([c] + s) == Strip(s)
    ensures ParseInt([c] + s) == None && ParseInt(s + [c]) == None
  {
    assert ([c] + s)[1..] == s;
    ParseRejects([c] + s, 0);
    ParseRejects(s + [c], |s|);
  }
}
