/**
 * The three pieces of the Java string library that the system's parsing
 * rests on: `String.trim()`, the regular-expression class `\s`, and
 * `Integer.parseInt(String)` in radix 10.
 */
module JavaText {
  import opened Results
  import opened Int32

  /** A character matched by `\s`: space, tab, newline, vertical tab, form feed, carriage return. */
  predicate IsSpace(c: char) {
    c == ' ' || c == '\t' || c == '\n' || c == '\U{B}' || c == '\U{C}' || c == '\r'
  }

  /** A character that `String.trim()` removes from the ends: every code point up to U+0020. */
  predicate IsBlank(c: char) {
    c <= ' '
  }

  predicate NoSpace(s: string) {
    forall k | 0 <= k < |s| :: !IsSpace(s[k])
  }

  /** Neither end of `s` is a character that `trim` would remove. */
  predicate Trimmed(s: string) {
    s == [] || (!IsBlank(s[0]) && !IsBlank(s[|s| - 1]))
  }

  /** The number of blanks `s` starts with. */
  function LeadingBlanks(s: string): (n: nat)
    ensures n <= |s|
    ensures forall k | 0 <= k < n :: IsBlank(s[k])
    ensures n < |s| ==> !IsBlank(s[n])
  {
    if s != [] && IsBlank(s[0]) then 1 + LeadingBlanks(s[1..]) else 0
  }

  /** The number of blanks `s` ends with. */
  function TrailingBlanks(s: string): (n: nat)
    ensures n <= |s|
    ensures forall k | |s| - n <= k < |s| :: IsBlank(s[k])
    ensures n < |s| ==> !IsBlank(s[|s| - 1 - n])
  {
    if s != [] && IsBlank(s[|s| - 1]) then 1 + TrailingBlanks(s[..|s| - 1]) else 0
  }

  /** `s.trim()`: `s` without its leading and trailing blanks. */
  function Trim(s: string): (r: string)
    ensures Trimmed(r) && |r| <= |s|
  {
    var a := LeadingBlanks(s);
    if a == |s| then "" else s[a..|s| - TrailingBlanks(s)]
  }

  /** `trim` returns one contiguous slice of its argument, and everything it cuts off is blank. */
  lemma TrimSpec(s: string)
    ensures LeadingBlanks(s) + |Trim(s)| <= |s|
    ensures Trim(s) == s[LeadingBlanks(s)..LeadingBlanks(s) + |Trim(s)|]
    ensures forall k | 0 <= k < |s| && !(LeadingBlanks(s) <= k < LeadingBlanks(s) + |Trim(s)|) :: IsBlank(s[k])
  {
  }

  /** Conversely, a slice with no blank at either end and only blanks around it is what `trim` returns. */
  lemma TrimUnique(s: string, a: nat, b: nat)
    requires a <= b <= |s| && Trimmed(s[a..b])
    requires forall k | 0 <= k < |s| && !(a <= k < b) :: IsBlank(s[k])
    ensures Trim(s) == s[a..b]
  {
    if a < b {
      assert LeadingBlanks(s) == a by {
        assert !IsBlank(s[a]);
      }
      assert TrailingBlanks(s) == |s| - b by {
        assert !IsBlank(s[b - 1]);
      }
    }
  }

  /** Trimming a string whose ends are not blank leaves it as it is. */
  lemma TrimOfTrimmed(s: string)
    requires Trimmed(s)
    ensures Trim(s) == s
  {
  }

  /** A blank at the end of a trimmed string is all that `trim` takes away. */
  lemma TrimDropsFinalBlank(s: string, c: char)
    requires s != [] && Trimmed(s) && IsBlank(c)
    ensures Trim(s + [c]) == s
  {
    var t := s + [c];
    assert LeadingBlanks(t) == 0;
    assert TrailingBlanks(t) == 1 by {
      assert t[..|t| - 1] == s;
    }
    assert t[0..|t| - 1] == s;
  }

  predicate IsDigit(c: char) {
    '0' <= c <= '9'
  }

  predicate AllDigits(s: string) {
    forall k | 0 <= k < |s| :: IsDigit(s[k])
  }

  /** The value of a string of decimal digits, most significant first. */
  function DigitsValue(s: string): nat
    requires AllDigits(s)
  {
    if s == [] then 0 else DigitsValue(s[..|s| - 1]) * 10 + (s[|s| - 1] as int - '0' as int)
  }

  /**
   * `Integer.parseInt(s)`: an optional `-` or `+` followed by at least one
   * digit, whose value fits in an `int`; anything else is a
   * NumberFormatException, here `None`.
   */
  function ParseInt(s: string): (r: Option<int32>)
    ensures r.Some? ==> s != [] && IsDigit(s[|s| - 1])
    ensures r.Some? ==> forall k | 0 <= k < |s| :: IsDigit(s[k]) || (k == 0 && (s[k] == '-' || s[k] == '+'))
  {
    if s == [] then None
    else
      var digits := if s[0] == '-' || s[0] == '+' then s[1..] else s;
      if digits == [] || !AllDigits(digits) then None
      else
        var v: int := if s[0] == '-' then 0 - DigitsValue(digits) else DigitsValue(digits);
        if InRange(v) then Some(v) else None
  }

  /** A string that `parseInt` accepts has nothing for `trim` or `\s` to act on. */
  lemma ParsedIsToken(s: string)
    requires ParseInt(s).Some?
    ensures s != [] && NoSpace(s) && Trimmed(s)
  {
  }

  /** The decimal digits of `n`, as `String.valueOf` writes a non-negative int. */
  function NatDigits(n: nat): (r: string)
    ensures r != [] && AllDigits(r)
  {
    if n < 10 then [('0' as int + n) as char] else NatDigits(n / 10) + [('0' as int + n % 10) as char]
  }

  lemma {:induction false} NatDigitsValue(n: nat)
    ensures DigitsValue(NatDigits(n)) == n
  {
    if n >= 10 {
      NatDigitsValue(n / 10);
      var s := NatDigits(n);
      assert s[..|s| - 1] == NatDigits(n / 10);
    }
  }

  /** `String.valueOf(n)` for a Java int. */
  function Decimal(n: int32): (r: string)
  {
    if n < 0 then "-" + NatDigits(0 - n as int) else NatDigits(n)
  }

  /** What `String.valueOf` writes, `parseInt` reads back. */
  lemma ParseDecimal(n: int32)
    ensures ParseInt(Decimal(n)) == Some(n)
  {
    if n < 0 {
      NatDigitsValue(0 - n as int);
      ParseNegated(NatDigits(0 - n as int));
    } else {
      NatDigitsValue(n);
      ParseUnsigned(NatDigits(n));
    }
  }

  lemma ParseUnsigned(d: string)
    requires d != [] && AllDigits(d) && InRange(DigitsValue(d))
    ensures ParseInt(d) == Some(DigitsValue(d))
  {
    assert IsDigit(d[0]);
  }

  lemma ParseNegated(d: string)
    requires d != [] && AllDigits(d) && InRange(0 - DigitsValue(d))
    ensures ParseInt("-" + d) == Some(0 - DigitsValue(d))
  {
    assert ("-" + d)[0] == '-' && ("-" + d)[1..] == d;
  }
}
