/** The decimal text of a sequence number as the sensor-node example sends
    it (printf's "%03d") and reads it back (C's atoi). */
module SeqnoFormat {

  predicate IsDigit(c: char)
  {
    '0' <= c <= '9'
  }

  /** The characters atoi skips before the number (isspace). */
  predicate IsSpace(c: char)
  {
    c == ' ' || c == '\t' || c == '\n' || c == '\U{B}' || c == '\U{C}' || c == '\r'
  }

  predicate AllDigits(s: seq<char>)
  {
    forall i :: 0 <= i < |s| ==> IsDigit(s[i])
  }

  function DigitChar(d: int): (c: char)
    requires 0 <= d < 10
    ensures IsDigit(c)
  {
    ('0' as int + d) as char
  }

  /** The shortest decimal representation of `n`, most significant digit
      first. */
  function Decimal(n: nat): (s: seq<char>)
    ensures |s| >= 1 && AllDigits(s)
    ensures n < 10 <==> |s| == 1
    decreases n
  {
    if n < 10 then [DigitChar(n)] else Decimal(n / 10) + [DigitChar(n % 10)]
  }

  /** `s` left-padded with '0' to at least `width` characters. */
  function ZeroPad(s: seq<char>, width: nat): (r: seq<char>)
    ensures |r| == if |s| < width then width else |s|
    ensures r[|r| - |s|..] == s
    ensures forall i :: 0 <= i < |r| - |s| ==> r[i] == '0'
  {
    if |s| < width then seq(width - |s|, _ => '0') + s else s
  }

  /** printf's "%03d": the decimal digits of `n`, zero-padded so that the
      sign and digits together take at least three characters. */
  function FormatSeqno(n: int): (s: seq<char>)
    ensures |s| >= 3
    ensures n >= 0 ==> AllDigits(s)
    ensures n < 0 ==> s[0] == '-' && AllDigits(s[1..])
  {
    if n < 0 then ['-'] + ZeroPad(Decimal(-n), 2) else ZeroPad(Decimal(n), 3)
  }

  /** Sequence numbers below 1000 always format to exactly three
      characters. */
  lemma {:induction false} FormatSeqnoWidth(n: int)
    requires 0 <= n < 1000
    ensures |FormatSeqno(n)| == 3
  {
    if n >= 10 {
      assert |Decimal(n / 10)| <= 2 by {
        if n / 10 >= 10 {
          assert Decimal(n / 10) == Decimal(n / 100) + [DigitChar(n / 10 % 10)];
        }
      }
    }
  }

  /** The value of a string of decimal digits. */
  function DigitsValue(s: seq<char>): (v: nat)
    requires AllDigits(s)
  {
    if |s| == 0 then 0
    else DigitsValue(s[..|s| - 1]) * 10 + (s[|s| - 1] as int - '0' as int)
  }

  /** The longest prefix of `s` made of decimal digits. */
  function LeadingDigits(s: seq<char>): (p: seq<char>)
    ensures AllDigits(p) && p <= s
    ensures |p| < |s| ==> !IsDigit(s[|p|])
    ensures AllDigits(s) ==> p == s
  {
    if |s| == 0 || !IsDigit(s[0]) then [] else [s[0]] + LeadingDigits(s[1..])
  }

  function SkipSpaces(s: seq<char>): (t: seq<char>)
    ensures |t| <= |s| && t == s[|s| - |t|..]
    ensures |t| > 0 ==> !IsSpace(t[0])
  {
    if |s| > 0 && IsSpace(s[0]) then SkipSpaces(s[1..]) else s
  }

  /** C's atoi: leading white space, an optional sign, then as many digits
      as follow. Out-of-range results, undefined in C, are not modelled. */
  function Atoi(s: seq<char>): (v: int)
  {
    SignedValue(SkipSpaces(s))
  }

  /** The part of atoi after the white space: an optional sign, then the
      leading digits. */
  function SignedValue(t: seq<char>): (v: int)
  {
    if |t| > 0 && t[0] == '-' then 0 - DigitsValue(LeadingDigits(t[1..]))
    else if |t| > 0 && t[0] == '+' then DigitsValue(LeadingDigits(t[1..]))
    else DigitsValue(LeadingDigits(t))
  }

  /** What atoi returns, case by case: the decimal value of an all-digit
      string, a negative number only after a leading '-', and 0 when the
      text after the spaces is empty or starts with neither a digit nor a
      sign. */
  lemma {:induction false} AtoiCases(s: seq<char>)
    ensures AllDigits(s) ==> Atoi(s) == DigitsValue(s)
    ensures Atoi(s) < 0 ==> |SkipSpaces(s)| > 0 && SkipSpaces(s)[0] == '-'
    ensures |SkipSpaces(s)| == 0 ==> Atoi(s) == 0
    ensures (|SkipSpaces(s)| > 0 && !IsDigit(SkipSpaces(s)[0])
             && SkipSpaces(s)[0] != '-' && SkipSpaces(s)[0] != '+') ==> Atoi(s) == 0
  {
    var t := SkipSpaces(s);
    if AllDigits(s) {
      if |s| > 0 {
        assert !IsSpace(s[0]) && t == s;
        assert t[0] != '-' && t[0] != '+';
      }
      assert Atoi(s) == DigitsValue(LeadingDigits(s));
    } else if |t| == 0 || (!IsDigit(t[0]) && t[0] != '-' && t[0] != '+') {
      assert LeadingDigits(t) == [];
    }
  }

  /** atoi skips any run of white space that is followed by something
      else. */
  lemma {:induction false} SkipSpacesPrefix(sp: seq<char>, rest: seq<char>)
    requires forall i :: 0 <= i < |sp| ==> IsSpace(sp[i])
    requires |rest| > 0 && !IsSpace(rest[0])
    ensures SkipSpaces(sp + rest) == rest
    decreases |sp|
  {
    if |sp| == 0 {
      assert sp + rest == rest;
    } else {
      assert (sp + rest)[1..] == sp[1..] + rest;
      SkipSpacesPrefix(sp[1..], rest);
    }
  }

  /** The whole of atoi on a decomposed input: white space, an optional
      sign, the digits (at least one when there is no sign) and any text
      that does not start with a digit. The result is the digits' value,
      negated after '-'. */
  lemma {:induction false} AtoiParts(sp: seq<char>, sign: seq<char>, d: seq<char>, tail: seq<char>)
    requires forall i :: 0 <= i < |sp| ==> IsSpace(sp[i])
    requires sign == [] || sign == ['-'] || sign == ['+']
    requires AllDigits(d)
    requires |d| > 0 || sign != []
    requires |tail| == 0 || !IsDigit(tail[0])
    ensures Atoi(sp + sign + d + tail) == if sign == ['-'] then 0 - DigitsValue(d) else DigitsValue(d)
  {
    var rest := sign + d + tail;
    assert sp + sign + d + tail == sp + rest;
    if sign == [] {
      assert rest == d + tail;
      UnsignedValueParts(d, tail);
    } else {
      assert rest == [sign[0]] + d + tail;
      SignedValueParts(sign[0], d, tail);
    }
    SkipSpacesPrefix(sp, rest);
  }

  lemma {:induction false} UnsignedValueParts(d: seq<char>, tail: seq<char>)
    requires AllDigits(d) && |d| > 0
    requires |tail| == 0 || !IsDigit(tail[0])
    ensures |d + tail| > 0 && !IsSpace((d + tail)[0])
    ensures SignedValue(d + tail) == DigitsValue(d)
  {
    var rest := d + tail;
    assert rest[0] == d[0];
    LeadingDigitsOf(d, tail);
    assert rest[0] != '-' && rest[0] != '+';
  }

  lemma {:induction false} SignedValueParts(c: char, d: seq<char>, tail: seq<char>)
    requires c == '-' || c == '+'
    requires AllDigits(d)
    requires |tail| == 0 || !IsDigit(tail[0])
    ensures |[c] + d + tail| > 0 && !IsSpace(([c] + d + tail)[0])
    ensures SignedValue([c] + d + tail) == if c == '-' then 0 - DigitsValue(d) else DigitsValue(d)
  {
    var rest := [c] + d + tail;
    assert rest[0] == c;
    assert rest[1..] == d + tail;
    LeadingDigitsOf(d, tail);
  }

  lemma {:induction false} DecimalValue(n: nat)
    ensures DigitsValue(Decimal(n)) == n
    decreases n
  {
    if n >= 10 {
      var s := Decimal(n);
      assert s[..|s| - 1] == Decimal(n / 10);
      DecimalValue(n / 10);
    }
  }

  /** Leading zeros do not change the value of a digit string. */
  lemma {:induction false} LeadingZerosValue(z: seq<char>, s: seq<char>)
    requires forall i :: 0 <= i < |z| ==> z[i] == '0'
    requires AllDigits(s)
    ensures AllDigits(z + s) && DigitsValue(z + s) == DigitsValue(s)
    decreases |s|
  {
    if |s| == 0 {
      assert z + s == z;
      ZerosValue(z);
    } else {
      var u := z + s;
      assert u[..|u| - 1] == z + s[..|s| - 1];
      LeadingZerosValue(z, s[..|s| - 1]);
    }
  }

  lemma {:induction false} ZerosValue(z: seq<char>)
    requires forall i :: 0 <= i < |z| ==> z[i] == '0'
    ensures AllDigits(z) && DigitsValue(z) == 0
    decreases |z|
  {
    if |z| > 0 {
      ZerosValue(z[..|z| - 1]);
    }
  }

  /** A digit string followed by a non-digit is read up to that non-digit. */
  lemma {:induction false} LeadingDigitsOf(d: seq<char>, tail: seq<char>)
    requires AllDigits(d)
    requires |tail| == 0 || !IsDigit(tail[0])
    ensures LeadingDigits(d + tail) == d
    decreases |d|
  {
    if |d| > 0 {
      assert (d + tail)[1..] == d[1..] + tail;
      LeadingDigitsOf(d[1..], tail);
    } else {
      assert d + tail == tail;
    }
  }

  lemma {:induction false} ZeroPadValue(n: nat, width: nat)
    ensures AllDigits(ZeroPad(Decimal(n), width))
    ensures DigitsValue(ZeroPad(Decimal(n), width)) == n
  {
    var s := Decimal(n);
    DecimalValue(n);
    if |s| < width {
      LeadingZerosValue(seq(width - |s|, _ => '0'), s);
    }
  }

  /** atoi of a non-empty digit string followed by a non-digit. */
  lemma {:induction false} AtoiOfDigits(d: seq<char>, tail: seq<char>)
    requires |d| > 0 && AllDigits(d)
    requires |tail| == 0 || !IsDigit(tail[0])
    ensures Atoi(d + tail) == DigitsValue(d)
  {
    var s := d + tail;
    assert s[0] == d[0] && IsDigit(s[0]);
    assert SkipSpaces(s) == s;
    LeadingDigitsOf(d, tail);
  }

  /** atoi of a minus sign, a digit string and then a non-digit. */
  lemma {:induction false} AtoiOfNegative(d: seq<char>, tail: seq<char>)
    requires AllDigits(d)
    requires |tail| == 0 || !IsDigit(tail[0])
    ensures Atoi(['-'] + d + tail) == 0 - DigitsValue(d)
  {
    var s := ['-'] + d + tail;
    assert SkipSpaces(s) == s;
    assert s[1..] == d + tail;
    LeadingDigitsOf(d, tail);
  }

  /** Round trip: atoi reads back the number "%03d" wrote, whatever non-digit
      text (a terminating NUL, padding) follows it. */
  lemma {:induction false} AtoiFormatSeqno(n: int, tail: seq<char>)
    requires |tail| == 0 || !IsDigit(tail[0])
    ensures Atoi(FormatSeqno(n) + tail) == n
  {
    if n < 0 {
      AtoiFormatNegative(n, tail);
    } else {
      AtoiFormatNonNegative(n, tail);
    }
  }

  lemma {:induction false} AtoiFormatNegative(n: int, tail: seq<char>)
    requires n < 0
    requires |tail| == 0 || !IsDigit(tail[0])
    ensures Atoi(FormatSeqno(n) + tail) == n
  {
    var m: nat := -n;
    var d := ZeroPad(Decimal(m), 2);
    ZeroPadValue(m, 2);
    var text := ['-'] + d + tail;
    assert FormatSeqno(n) + tail == text;
    AtoiOfNegative(d, tail);
  }

  lemma {:induction false} AtoiFormatNonNegative(n: int, tail: seq<char>)
    requires n >= 0
    requires |tail| == 0 || !IsDigit(tail[0])
    ensures Atoi(FormatSeqno(n) + tail) == n
  {
    var d := ZeroPad(Decimal(n), 3);
    ZeroPadValue(n, 3);
    assert FormatSeqno(n) == d;
    AtoiOfDigits(d, tail);
  }
}
