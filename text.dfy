/**
 * The few string operations of Rust's `str` that the pattern reader relies on, over strings
 * seen as sequences of Unicode scalar values: `trim`, `trim_matches`, `split_whitespace`
 * joined back together, the first two pieces of `split(',')`, the byte length of a character
 * in UTF-8, and `parse::<usize>` on a 64-bit target.
 */
module Text {
  import opened Wrappers

  /** The characters `char::is_whitespace` accepts (the Unicode White_Space property). */
  const Whitespace: set<char> := {
    '\t', '\n', '\U{000B}', '\U{000C}', '\r', ' ', '\U{0085}', '\U{00A0}', '\U{1680}',
    '\U{2000}', '\U{2001}', '\U{2002}', '\U{2003}', '\U{2004}', '\U{2005}', '\U{2006}',
    '\U{2007}', '\U{2008}', '\U{2009}', '\U{200A}', '\U{2028}', '\U{2029}', '\U{202F}',
    '\U{205F}', '\U{3000}'
  }

  const USIZE_MAX: nat := 0xFFFF_FFFF_FFFF_FFFF

  /** `s` with every leading character in `drop` removed. */
  function StripStart(s: string, drop: set<char>): (r: string)
    ensures |r| <= |s| && r == s[|s| - |r|..]
    ensures forall i | 0 <= i < |s| - |r| :: s[i] in drop
    ensures r == [] || r[0] !in drop
  {
    if s != [] && s[0] in drop then StripStart(s[1..], drop) else s
  }

  /** `s` with every trailing character in `drop` removed. */
  function StripEnd(s: string, drop: set<char>): (r: string)
    ensures |r| <= |s| && r == s[..|r|]
    ensures forall i | |r| <= i < |s| :: s[i] in drop
    ensures r == [] || r[|r| - 1] !in drop
  {
    if s != [] && s[|s| - 1] in drop then StripEnd(s[..|s| - 1], drop) else s
  }

  /** `trim_matches`: both ends stripped of the characters in `drop`. */
  function Strip(s: string, drop: set<char>): string {
    StripEnd(StripStart(s, drop), drop)
  }

  /** `trim`: both ends stripped of whitespace; a string that neither starts nor ends with whitespace is kept. */
  function Trim(s: string): (r: string)
    ensures |r| <= |s|
    ensures r == [] || (r[0] !in Whitespace && r[|r| - 1] !in Whitespace)
    ensures (s == [] || (s[0] !in Whitespace && s[|s| - 1] !in Whitespace)) ==> r == s
  {
    Strip(s, Whitespace)
  }

  /** `split_whitespace().collect()`: the characters of `s` that are not whitespace, in order. */
  function RemoveWhitespace(s: string): (r: string)
    ensures |r| <= |s|
    ensures forall i | 0 <= i < |r| :: r[i] !in Whitespace
    ensures (forall i | 0 <= i < |s| :: s[i] !in Whitespace) ==> r == s
    ensures |s| == 1 ==> r == (if s[0] in Whitespace then [] else s)
  {
    if s == [] then []
    else if s[0] in Whitespace then RemoveWhitespace(s[1..])
    else [s[0]] + RemoveWhitespace(s[1..])
  }

  /** The first piece of `s.split(sep)`: everything before the first `sep`. */
  function FirstPiece(s: string, sep: char): (r: string)
    ensures |r| <= |s| && r == s[..|r|]
    ensures sep !in r
    ensures |r| < |s| ==> s[|r|] == sep
  {
    if s == [] || s[0] == sep then [] else [s[0]] + FirstPiece(s[1..], sep)
  }

  /** What is left after the first piece and its separator; None when `sep` does not occur. */
  function AfterFirst(s: string, sep: char): (r: Option<string>)
    ensures r.None? <==> sep !in s
    ensures r.Some? ==> s == FirstPiece(s, sep) + [sep] + r.value
  {
    var f := FirstPiece(s, sep);
    if |f| == |s| then None else Some(s[|f| + 1..])
  }

  /** The number of bytes the character takes in UTF-8. */
  function Utf8Len(c: char): (n: nat)
    ensures 1 <= n <= 4
    ensures n == 1 <==> (c as int) < 0x80
  {
    if (c as int) < 0x80 then 1
    else if (c as int) < 0x800 then 2
    else if (c as int) < 0x1_0000 then 3
    else 4
  }

  predicate IsDigit(c: char) {
    '0' <= c <= '9'
  }

  predicate AllDigits(s: string) {
    forall i | 0 <= i < |s| :: IsDigit(s[i])
  }

  /** The value of a string of decimal digits, most significant first. */
  function DigitsValue(s: string): nat
    requires AllDigits(s)
  {
    if s == [] then 0 else DigitsValue(s[..|s| - 1]) * 10 + (s[|s| - 1] as int - '0' as int)
  }

  /** The decimal numeral of `n`, without leading zeros. */
  function Decimal(n: nat): (s: string)
    ensures s != [] && AllDigits(s)
  {
    var d := ['0' + (n % 10) as char];
    if n < 10 then d else Decimal(n / 10) + d
  }

  /** Reading back the numeral of `n` gives `n`. */
  lemma {:induction false} DecimalValue(n: nat)
    ensures DigitsValue(Decimal(n)) == n
  {
    var s := Decimal(n);
    if n >= 10 {
      DecimalValue(n / 10);
      assert s[..|s| - 1] == Decimal(n / 10);
    }
  }

  /** `parse::<usize>()`: an optional `+`, then at least one digit, and a value that fits in 64 bits. */
  function ParseUsize(s: string): (r: Option<nat>)
    ensures r.Some? ==> r.value <= USIZE_MAX
  {
    var d := if s != [] && s[0] == '+' then s[1..] else s;
    if d != [] && AllDigits(d) && DigitsValue(d) <= USIZE_MAX then Some(DigitsValue(d)) else None
  }

  /** Every numeral of a `usize` parses back to its value, with or without a leading `+`. */
  lemma ParseDecimal(n: nat)
    requires n <= USIZE_MAX
    ensures ParseUsize(Decimal(n)) == Some(n)
    ensures ParseUsize("+" + Decimal(n)) == Some(n)
  {
    DecimalValue(n);
    assert ("+" + Decimal(n))[1..] == Decimal(n);
  }

  /** Text that is not an optional `+` followed by digits does not parse, and neither does a lone sign. */
  lemma ParseRejects(s: string, i: nat)
    requires i < |s| && !IsDigit(s[i]) && !(i == 0 && s[0] == '+')
    ensures ParseUsize(s) == None
    ensures ParseUsize("") == None && ParseUsize("+") == None
  {
    if s[0] == '+' {
      assert !IsDigit(s[1..][i - 1]);
    }
  }

  /** A numeral beyond `usize` does not parse. */
  lemma ParseOverflow(n: nat)
    requires n > USIZE_MAX
    ensures ParseUsize(Decimal(n)) == None
  {
    DecimalValue(n);
  }
}
