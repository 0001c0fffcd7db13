/**
 * The few std::string operations the core relies on: ordering (`operator<`),
 * `find` of a character, `std::to_string` of an int and `std::stoi`.
 */
module Text {
  import opened Wrappers

  /** `a < b` on std::string: lexicographic on characters, a proper prefix first. */
  predicate Less(a: string, b: string)
  {
    if |b| == 0 then false
    else if |a| == 0 then true
    else if a[0] != b[0] then a[0] < b[0]
    else Less(a[1..], b[1..])
  }

  lemma {:induction false} LessIrreflexive(a: string)
    ensures !Less(a, a)
  {
    if |a| > 0 {
      LessIrreflexive(a[1..]);
    }
  }

  lemma {:induction false} LessTransitive(a: string, b: string, c: string)
    requires Less(a, b) && Less(b, c)
    ensures Less(a, c)
  {
    if |a| > 0 && a[0] == b[0] && b[0] == c[0] {
      LessTransitive(a[1..], b[1..], c[1..]);
    }
  }

  lemma {:induction false} LessTotal(a: string, b: string)
    requires a != b
    ensures Less(a, b) || Less(b, a)
  {
    if |a| > 0 && |b| > 0 && a[0] == b[0] {
      assert a == [a[0]] + a[1..] && b == [b[0]] + b[1..];
      LessTotal(a[1..], b[1..]);
    }
  }

  lemma LessAsymmetric(a: string, b: string)
    requires Less(a, b)
    ensures !Less(b, a)
  {
    if Less(b, a) {
      LessTransitive(a, b, a);
      LessIrreflexive(a);
    }
  }

  /** `s.find(c)`: the index of the first occurrence of `c`, `None` for npos. */
  function FindChar(s: string, c: char): (r: Option<nat>)
    ensures r.Some? ==> r.value < |s| && s[r.value] == c
    ensures r.Some? ==> forall k :: 0 <= k < r.value ==> s[k] != c
    ensures r.None? ==> forall k :: 0 <= k < |s| ==> s[k] != c
  {
    if |s| == 0 then None
    else if s[0] == c then Some(0)
    else match FindChar(s[1..], c)
      case None => None
      case Some(k) => Some(k + 1)
  }

  const MinInt32: int := -0x8000_0000
  const MaxInt32: int := 0x7fff_ffff

  predicate IsDigit(c: char)
  {
    '0' <= c <= '9'
  }

  function DigitValue(c: char): nat
    requires IsDigit(c)
  {
    c as int - '0' as int
  }

  function DigitChar(d: nat): char
    requires d < 10
  {
    ('0' as int + d) as char
  }

  /** Decimal digits without sign or leading zeros (the digits printed by to_string). */
  function NatToString(n: nat): string
  {
    if n < 10 then [DigitChar(n)] else NatToString(n / 10) + [DigitChar(n % 10)]
  }

  /** `std::to_string(int)`. */
  function IntToString(n: int): string
  {
    if n < 0 then "-" + NatToString(-n) else NatToString(n)
  }

  /** The first occurrence of `c` is where it occurs with none before it. */
  lemma FindCharAt(s: string, c: char, i: nat)
    requires i < |s| && s[i] == c
    requires forall k :: 0 <= k < i ==> s[k] != c
    ensures FindChar(s, c) == Some(i)
  {
  }

  /** The value of a run of decimal digits read left to right (as strtol accumulates). */
  function DigitsValue(ds: string): nat
    requires forall k :: 0 <= k < |ds| ==> IsDigit(ds[k])
  {
    if |ds| == 0 then 0
    else DigitsValue(ds[..|ds| - 1]) * 10 + DigitValue(ds[|ds| - 1])
  }

  /** The value of the digits at the start of `u`. */
  function LeadingValue(u: string): nat
  {
    DigitsValue(u[..LeadingDigits(u)])
  }

  /** The length of the longest prefix of `s` made of digits. */
  function LeadingDigits(s: string): (n: nat)
    ensures n <= |s|
    ensures forall k :: 0 <= k < n ==> IsDigit(s[k])
    ensures n < |s| ==> !IsDigit(s[n])
  {
    if |s| == 0 || !IsDigit(s[0]) then 0 else 1 + LeadingDigits(s[1..])
  }

  /** The white-space characters of the C locale (isspace). */
  predicate IsSpace(c: char)
  {
    c == ' ' || c == '\t' || c == '\n' || c == '\r' || c == '\U{B}' || c == '\U{C}'
  }

  function SkipSpaces(s: string): (t: string)
    ensures |t| <= |s| && t == s[|s| - |t|..]
    ensures |t| > 0 ==> !IsSpace(t[0])
  {
    if |s| > 0 && IsSpace(s[0]) then SkipSpaces(s[1..]) else s
  }

  /**
   * `std::stoi(s)`: leading white space, an optional sign, then the longest run of
   * digits; the characters after it are ignored. It throws (`None`) when there is
   * no digit and when the value does not fit in a 32-bit int.
   */
  function Stoi(s: string): (r: Option<int>)
    ensures r.Some? ==> MinInt32 <= r.value <= MaxInt32
  {
    var t := SkipSpaces(s);
    if |t| > 0 && t[0] == '-' then SignedDigits(t[1..], true)
    else if |t| > 0 && t[0] == '+' then SignedDigits(t[1..], false)
    else SignedDigits(t, false)
  }

  /** The digits at the start of `u`, negated when a '-' preceded them. */
  function SignedDigits(u: string, negative: bool): (r: Option<int>)
    ensures r.Some? ==> MinInt32 <= r.value <= MaxInt32
  {
    var n := LeadingDigits(u);
    if n == 0 then None
    else
      var v: int := DigitsValue(u[..n]);
      InRange(if negative then -v else v)
  }

  /** A value that fits in a 32-bit int; out_of_range otherwise. */
  function InRange(value: int): (r: Option<int>)
    ensures r.Some? ==> MinInt32 <= r.value <= MaxInt32
  {
    if MinInt32 <= value <= MaxInt32 then Some(value) else None
  }

  lemma {:induction false} NatToStringDigits(n: nat)
    ensures |NatToString(n)| > 0
    ensures forall k :: 0 <= k < |NatToString(n)| ==> IsDigit(NatToString(n)[k])
    ensures DigitsValue(NatToString(n)) == n
  {
    if n >= 10 {
      NatToStringDigits(n / 10);
      var s := NatToString(n);
      assert s[..|s| - 1] == NatToString(n / 10);
    }
  }

  /** `std::to_string` never writes a character other than a digit or a leading '-'. */
  lemma IntToStringChars(n: int)
    ensures forall k :: 0 <= k < |IntToString(n)| ==> IsDigit(IntToString(n)[k]) || IntToString(n)[k] == '-'
  {
    if n < 0 { NatToStringDigits(-n); } else { NatToStringDigits(n); }
  }

  lemma SignedDigitsAll(ds: string, negative: bool)
    requires |ds| > 0 && forall k :: 0 <= k < |ds| ==> IsDigit(ds[k])
    ensures var v: int := DigitsValue(ds);
      var value := if negative then -v else v;
      SignedDigits(ds, negative) == if MinInt32 <= value <= MaxInt32 then Some(value) else None
  {
    var n := LeadingDigits(ds);
    assert n == |ds|;
    assert ds[..n] == ds;
    var v: int := DigitsValue(ds);
    assert DigitsValue(ds[..n]) == v;
    assert SignedDigits(ds, negative) == InRange(if negative then -v else v);
  }

  /**
   * The three outcomes of `stoi`: after the white space and one optional sign, no
   * digit throws; otherwise the signed value of the digit run is returned when it
   * fits in 32 bits and throws when it does not.
   */
  lemma StoiCases(s: string)
    ensures var t := SkipSpaces(s);
      var signed := |t| > 0 && (t[0] == '-' || t[0] == '+');
      var u := if signed then t[1..] else t;
      var n := LeadingDigits(u);
      && (n == 0 ==> Stoi(s).None?)
      && (n > 0 ==>
            var v: int := LeadingValue(u);
            var value := if signed && t[0] == '-' then -v else v;
            && (Stoi(s).None? <==> !(MinInt32 <= value <= MaxInt32))
            && (Stoi(s).Some? ==> Stoi(s).value == value))
  {
    var t := SkipSpaces(s);
    if |t| > 0 && t[0] == '-' {
      assert Stoi(s) == SignedDigits(t[1..], true);
    } else if |t| > 0 && t[0] == '+' {
      assert Stoi(s) == SignedDigits(t[1..], false);
    } else {
      assert Stoi(s) == SignedDigits(t, false);
    }
  }

  /** The digit run of `ds + rest` is `ds` when `rest` does not start with a digit. */
  lemma {:induction false} LeadingDigitsConcat(ds: string, rest: string)
    requires forall k :: 0 <= k < |ds| ==> IsDigit(ds[k])
    requires |rest| == 0 || !IsDigit(rest[0])
    ensures LeadingDigits(ds + rest) == |ds|
  {
    if |ds| > 0 {
      assert (ds + rest)[1..] == ds[1..] + rest;
      LeadingDigitsConcat(ds[1..], rest);
    }
  }

  /** `stoi` reads only the leading digits: whatever follows the first non-digit is ignored. */
  lemma StoiIgnoresRest(ds: string, rest: string)
    requires |ds| > 0 && forall k :: 0 <= k < |ds| ==> IsDigit(ds[k])
    requires |rest| == 0 || !IsDigit(rest[0])
    ensures Stoi(ds + rest) == Stoi(ds)
  {
    var s := ds + rest;
    assert s[0] == ds[0];
    SkipNoSpace(s);
    SkipNoSpace(ds);
    LeadingDigitsConcat(ds, rest);
    LeadingDigitsConcat(ds, "");
    assert ds + "" == ds;
    assert s[..|ds|] == ds;
  }

  lemma SkipNoSpace(s: string)
    requires |s| > 0 && !IsSpace(s[0])
    ensures SkipSpaces(s) == s
  {
  }

  /** Reading back what `std::to_string` printed gives the same int. */
  lemma StoiIntToString(n: int)
    requires MinInt32 <= n <= MaxInt32
    ensures Stoi(IntToString(n)) == Some(n)
  {
    var s := IntToString(n);
    if n < 0 {
      var d := NatToString(-n);
      assert s == "-" + d;
      NatToStringDigits(-n);
      SignedDigitsAll(d, true);
      assert s[1..] == d;
      SkipNoSpace(s);
      assert Stoi(s) == SignedDigits(d, true);
    } else {
      var d := NatToString(n);
      assert s == d;
      NatToStringDigits(n);
      SignedDigitsAll(d, false);
      assert IsDigit(d[0]);
      assert d[0] != '-' && d[0] != '+';
      SkipNoSpace(s);
      var t := SkipSpaces(s);
      assert t == d;
      assert !(|t| > 0 && t[0] == '-') && !(|t| > 0 && t[0] == '+');
      assert Stoi(s) == SignedDigits(d, false);
    }
  }
}
