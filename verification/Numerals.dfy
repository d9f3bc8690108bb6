/** Numerals as the debug server and the hub print and read them: base-16 numbers, byte
    strings as pairs of hexadecimal digits, and decimal instance numbers. */
module Numerals {
  import opened Options

  function Upper(d: nat): char
    requires d < 16
  {
    if d < 10 then ('0' as int + d) as char else ('A' as int + d - 10) as char
  }

  function Lower(d: nat): char
    requires d < 16
  {
    if d < 10 then ('0' as int + d) as char else ('a' as int + d - 10) as char
  }

  predicate IsUpper(c: char) { '0' <= c <= '9' || 'A' <= c <= 'F' }

  predicate IsLower(c: char) { '0' <= c <= '9' || 'a' <= c <= 'f' }

  /** The value of a hexadecimal digit of either case. */
  function DigitValue(c: char): (v: Option<nat>)
    ensures v.Some? ==> v.value < 16
  {
    if '0' <= c <= '9' then Some(c as int - '0' as int)
    else if 'a' <= c <= 'f' then Some(c as int - 'a' as int + 10)
    else if 'A' <= c <= 'F' then Some(c as int - 'A' as int + 10)
    else None
  }

  datatype Base = Ten | Sixteen

  function Quotient(n: nat, base: Base): nat { if base.Ten? then n / 10 else n / 16 }

  function Last(n: nat, base: Base): (d: nat)
    ensures d < 16
  {
    if base.Ten? then n % 10 else n % 16
  }

  function Append(high: nat, d: nat, base: Base): nat { if base.Ten? then high * 10 + d else high * 16 + d }

  predicate IsDigit(d: nat, base: Base) { d < if base.Ten? then 10 else 16 }

  lemma QuotientAndLast(n: nat, base: Base)
    ensures Append(Quotient(n, base), Last(n, base), base) == n
    ensures IsDigit(Last(n, base), base)
    ensures !IsDigit(n, base) ==> Quotient(n, base) < n
  {
  }

  /** fxl::NumberToString: no leading zeros, upper-case digits. */
  function Print(n: nat, base: Base): (s: string)
    ensures s != "" && forall i | 0 <= i < |s| :: IsUpper(s[i])
  {
    if IsDigit(n, base) then [Upper(n)]
    else
      QuotientAndLast(n, base);
      Print(Quotient(n, base), base) + [Upper(Last(n, base))]
  }

  /** The number written by a string of digits, if every character is a digit of the base. */
  function Digits(s: string, base: Base): Option<nat> {
    if s == "" then Some(0)
    else
      var high := Digits(s[..|s| - 1], base);
      var low := DigitValue(s[|s| - 1]);
      if high.Some? && low.Some? && IsDigit(low.value, base) then Some(Append(high.value, low.value, base)) else None
  }

  const INT64_LIMIT := 0x8000_0000_0000_0000

  /** fxl::StringToNumberWithError<int64_t> in base 16. */
  function ParseInt64(s: string): (r: Option<int>)
    ensures r.Some? ==> -INT64_LIMIT <= r.value < INT64_LIMIT
  {
    var negative := s != "" && s[0] == '-';
    var digits := if negative then s[1..] else s;
    var magnitude := if digits == "" then None else Digits(digits, Sixteen);
    if magnitude.None? then None
    else if negative then (if magnitude.value <= INT64_LIMIT then Some(-magnitude.value) else None)
    else (if magnitude.value < INT64_LIMIT then Some(magnitude.value) else None)
  }

  /** fxl::StringToNumberWithError<int> in base 16. */
  function ParseInt32(s: string): Option<int> {
    var n := ParseInt64(s);
    if n.Some? && -0x8000_0000 <= n.value < 0x8000_0000 then n else None
  }

  const UINT64_LIMIT := 0x1_0000_0000_0000_0000

  /** fxl::StringToNumberWithError<uint64_t> in base 16; no sign is taken. */
  function ParseUint64(s: string): (r: Option<nat>)
    ensures r.Some? ==> r.value < UINT64_LIMIT
  {
    var n := if s == "" then None else Digits(s, Sixteen);
    if n.Some? && n.value < UINT64_LIMIT then n else None
  }

  /** A string that does not start with a digit is not a number. */
  lemma {:induction false} DigitsStart(s: string)
    requires s != "" && Digits(s, Sixteen).Some?
    ensures DigitValue(s[0]).Some?
  {
    if |s| > 1 { DigitsStart(s[..|s| - 1]); }
  }

  function Power(k: nat, base: Base): nat { if k == 0 then 1 else Append(Power(k - 1, base), 0, base) }

  /** A number below the k-th power of the base has at most k digits. */
  lemma {:induction false} PrintLength(n: nat, k: nat, base: Base)
    requires k > 0 && n < Power(k, base)
    ensures |Print(n, base)| <= k
    decreases k
  {
    assert Power(1, base) == if base.Ten? then 10 else 16;
    if !IsDigit(n, base) {
      QuotientAndLast(n, base);
      PrintLength(Quotient(n, base), k - 1, base);
    }
  }

  lemma Print64Length(n: nat)
    requires n < UINT64_LIMIT
    ensures |Print(n, Sixteen)| <= 16
  {
    assert Power(4, Sixteen) == 0x1_0000 by { assert Power(2, Sixteen) == 256; }
    assert Power(8, Sixteen) == 0x1_0000_0000 by { assert Power(6, Sixteen) == 0x100_0000; }
    assert Power(12, Sixteen) == 0x1_0000_0000_0000 by { assert Power(10, Sixteen) == 0x100_0000_0000; }
    assert Power(16, Sixteen) == UINT64_LIMIT by { assert Power(14, Sixteen) == 0x100_0000_0000_0000; }
    PrintLength(n, 16, Sixteen);
  }

  lemma DigitRoundTrip(d: nat)
    requires d < 16
    ensures DigitValue(Upper(d)) == Some(d) && DigitValue(Lower(d)) == Some(d)
  {
  }

  /** Reading back a printed number. */
  lemma {:induction false} PrintDigits(n: nat, base: Base)
    ensures Digits(Print(n, base), base) == Some(n)
    decreases n
  {
    var s := Print(n, base);
    QuotientAndLast(n, base);
    if IsDigit(n, base) {
      DigitRoundTrip(n);
      assert s[..0] == "" && Append(0, n, base) == n;
    } else {
      DigitRoundTrip(Last(n, base));
      PrintDigits(Quotient(n, base), base);
      assert s[..|s| - 1] == Print(Quotient(n, base), base);
    }
  }

  lemma PrintInjective(m: nat, n: nat, base: Base)
    requires Print(m, base) == Print(n, base)
    ensures m == n
  {
    PrintDigits(m, base);
    PrintDigits(n, base);
  }

  /** Reading a printed 64-bit id as a signed number works exactly below 2^63. */
  lemma PrintParse(n: nat)
    ensures ParseInt64(Print(n, Sixteen)) == if n < INT64_LIMIT then Some(n) else None
  {
    PrintDigits(n, Sixteen);
    assert IsUpper(Print(n, Sixteen)[0]);
  }

  lemma MinusOneParse()
    ensures ParseInt64("-1") == Some(-1)
  {
    assert "-1"[1..] == "1" && "1"[..0] == "";
    assert Digits("1", Sixteen) == Some(1);
  }

  // ----- Bytes as pairs of digits -----

  predicate IsByte(c: char) { c as int < 256 }

  /** EncodeByteString. */
  function EncodeByte(b: nat): (s: string)
    requires b < 256
    ensures |s| == 2
  {
    [Lower(b / 16), Lower(b % 16)]
  }

  /** DecodeByteString. */
  function DecodeByte(s: string): (b: Option<nat>)
    requires |s| == 2
    ensures b.Some? ==> b.value < 256
  {
    var msb, lsb := DigitValue(s[0]), DigitValue(s[1]);
    if msb.Some? && lsb.Some? then Some(msb.value * 16 + lsb.value) else None
  }

  lemma ByteRoundTrip(b: nat)
    requires b < 256
    ensures DecodeByte(EncodeByte(b)) == Some(b)
  {
    DigitRoundTrip(b / 16);
    DigitRoundTrip(b % 16);
  }

  function EncodeString(s: string): (r: string)
    requires forall c | c in s :: IsByte(c)
    ensures |r| == 2 * |s| && (forall i | 0 <= i < |r| :: IsLower(r[i]))
  {
    if s == "" then "" else
      assert IsByte(s[0]);
      EncodeByte(s[0] as int) + EncodeString(s[1..])
  }

  function DecodePairs(s: string): Option<string>
    requires |s| % 2 == 0
  {
    if s == "" then Some("")
    else
      var head, tail := DecodeByte(s[..2]), DecodePairs(s[2..]);
      if head.Some? && tail.Some? then Some([head.value as char] + tail.value) else None
  }

  /** DecodeByteArrayString: malformed input decodes to the empty array. */
  function DecodeString(s: string): string {
    if |s| % 2 == 0 && DecodePairs(s).Some? then DecodePairs(s).value else ""
  }

  lemma {:induction false} StringRoundTrip(s: string)
    requires forall c | c in s :: IsByte(c)
    ensures DecodeString(EncodeString(s)) == s
  {
    PairsRoundTrip(s);
  }

  lemma {:induction false} PairsRoundTrip(s: string)
    requires forall c | c in s :: IsByte(c)
    ensures DecodePairs(EncodeString(s)) == Some(s)
  {
    if s != "" {
      assert IsByte(s[0]);
      ByteRoundTrip(s[0] as int);
      var e := EncodeString(s);
      assert e[..2] == EncodeByte(s[0] as int) && e[2..] == EncodeString(s[1..]);
      PairsRoundTrip(s[1..]);
      assert [s[0]] + s[1..] == s;
    }
  }
}
