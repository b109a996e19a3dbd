/**
 * The few pieces of Java's string handling the core relies on:
 * `String.split` with a one-character separator, and decimal text for integers.
 */
module Text {
  import opened Wrappers

  /** Every field of `s` between separators, empty ones included: n separators give n + 1 fields. */
  function Fields(s: string, sep: char): (fs: seq<string>)
    ensures |fs| >= 1
    ensures forall k :: 0 <= k < |fs| ==> sep !in fs[k]
  {
    if |s| == 0 then [""]
    else
      var rest := Fields(s[1..], sep);
      if s[0] == sep then [""] + rest
      else [[s[0]] + rest[0]] + rest[1..]
  }

  /** The parts written one after the other with `sep` between them. */
  function Join(parts: seq<string>, sep: char): string
    requires |parts| >= 1
  {
    if |parts| == 1 then parts[0] else parts[0] + [sep] + Join(parts[1..], sep)
  }

  /** Removes the empty strings at the end of `fs`. */
  function DropTrailingEmpty(fs: seq<string>): (r: seq<string>)
    ensures |r| <= |fs| && r == fs[..|r|]
    ensures forall k :: |r| <= k < |fs| ==> fs[k] == ""
    ensures |r| == 0 || r[|r| - 1] != ""
  {
    if |fs| > 0 && fs[|fs| - 1] == "" then DropTrailingEmpty(fs[..|fs| - 1]) else fs
  }

  /**
   * Java's `s.split(sep)` for a separator that is not a regular-expression
   * metacharacter: a string without the separator is returned whole (so ""
   * gives [""]); otherwise the fields, less the trailing empty ones.
   */
  function JavaSplit(s: string, sep: char): seq<string>
  {
    if sep !in s then [s] else DropTrailingEmpty(Fields(s, sep))
  }

  lemma {:induction false} FieldsWithoutSeparator(s: string, sep: char)
    requires sep !in s
    ensures Fields(s, sep) == [s]
  {
    if |s| > 0 {
      FieldsWithoutSeparator(s[1..], sep);
      assert [s[0]] + s[1..] == s;
    }
  }

  /** Java's split keeps the leading fields unchanged and drops only empty ones at the end. */
  lemma JavaSplitFields(s: string, sep: char)
    ensures |JavaSplit(s, sep)| <= |Fields(s, sep)|
    ensures forall k :: 0 <= k < |JavaSplit(s, sep)| ==> JavaSplit(s, sep)[k] == Fields(s, sep)[k]
    ensures forall k :: |JavaSplit(s, sep)| <= k < |Fields(s, sep)| ==> Fields(s, sep)[k] == ""
  {
    if sep !in s {
      FieldsWithoutSeparator(s, sep);
    }
  }

  lemma {:induction false} FieldsPrepend(p: string, sep: char, rest: string)
    requires sep !in p
    ensures Fields(p + [sep] + rest, sep) == [p] + Fields(rest, sep)
  {
    if |p| == 0 {
      assert p + [sep] + rest == [sep] + rest;
      assert ([sep] + rest)[1..] == rest;
    } else {
      var s := p + [sep] + rest;
      FieldsPrepend(p[1..], sep, rest);
      assert s[1..] == p[1..] + [sep] + rest;
      assert [p[0]] + p[1..] == p;
    }
  }

  /** Splitting what `Join` wrote gives back the parts, when no part holds the separator. */
  lemma {:induction false} FieldsOfJoin(parts: seq<string>, sep: char)
    requires |parts| >= 1
    requires forall k :: 0 <= k < |parts| ==> sep !in parts[k]
    ensures Fields(Join(parts, sep), sep) == parts
  {
    if |parts| == 1 {
      FieldsWithoutSeparator(parts[0], sep);
    } else {
      FieldsOfJoin(parts[1..], sep);
      FieldsPrepend(parts[0], sep, Join(parts[1..], sep));
      assert [parts[0]] + parts[1..] == parts;
    }
  }

  predicate IsDigits(s: string) {
    forall k :: 0 <= k < |s| ==> '0' <= s[k] <= '9'
  }

  function DigitChar(d: nat): (c: char)
    requires d < 10
  {
    (('0' as int) + d) as char
  }

  /** Decimal digits of `n`, most significant first, as Java's `Integer.toString` writes them. */
  function NatToString(n: nat): (s: string)
    ensures |s| >= 1 && IsDigits(s)
  {
    if n < 10 then [DigitChar(n)] else NatToString(n / 10) + [DigitChar(n % 10)]
  }

  /** The number a string of decimal digits denotes. */
  function DigitsValue(s: string): nat
    requires IsDigits(s)
  {
    if |s| == 0 then 0
    else DigitsValue(s[..|s| - 1]) * 10 + ((s[|s| - 1] as int) - ('0' as int))
  }

  lemma {:induction false} NatToStringRoundTrip(n: nat)
    ensures DigitsValue(NatToString(n)) == n
  {
    var s := NatToString(n);
    if n >= 10 {
      NatToStringRoundTrip(n / 10);
      assert s[..|s| - 1] == NatToString(n / 10);
    }
  }

  /** Java's `Integer.toString`: a minus sign before the digits of a negative number. */
  function IntToString(i: int): string
  {
    if i < 0 then "-" + NatToString(-i) else NatToString(i)
  }

  /** Reads back what `IntToString` writes. */
  function IntValue(s: string): Option<int>
  {
    if |s| >= 2 && s[0] == '-' && IsDigits(s[1..]) then Some(-(DigitsValue(s[1..]) as int))
    else if |s| >= 1 && IsDigits(s) then Some(DigitsValue(s))
    else None
  }

  lemma IntToStringRoundTrip(i: int)
    ensures IntValue(IntToString(i)) == Some(i)
  {
    var n: nat := if i < 0 then -i else i;
    var digits := NatToString(n);
    NatToStringRoundTrip(n);
    var v := DigitsValue(digits);
    assert v == n;
    if i < 0 {
      NegativeValue(IntToString(i), digits);
      assert IntValue(IntToString(i)) == Some(-(v as int));
    } else {
      DigitsIntValue(digits);
      assert IntValue(IntToString(i)) == Some(v as int);
    }
  }

  lemma NegativeValue(s: string, digits: string)
    requires s == "-" + digits && |digits| >= 1 && IsDigits(digits)
    ensures IntValue(s) == Some(-(DigitsValue(digits) as int))
  {
    assert s[1..] == digits;
  }

  lemma DigitsIntValue(digits: string)
    requires |digits| >= 1 && IsDigits(digits)
    ensures IntValue(digits) == Some(DigitsValue(digits))
  {
    assert '0' <= digits[0] <= '9';
  }
}
