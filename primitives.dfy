/** The Go library values the core leans on, written out: MongoDB ObjectIDs and
    their hex form (primitive.ObjectIDFromHex, ObjectID.Hex), time.Time as whole
    seconds, strconv.Atoi / strconv.Itoa, and 64-bit `int` wrap-around. */
module Primitives {
  import opened Wrappers

  /** A MongoDB ObjectID: twelve bytes, read as the big-endian number they spell. */
  type ObjectId = nat

  /** time.Time in whole seconds. `ZeroTime` is Go's zero value `time.Time{}`. */
  type Time = int
  const ZeroTime: Time := 0
  const Minute: int := 60
  const Hour: int := 3600

  // ---------------------------------------------------------------------------
  // Hexadecimal ObjectIDs
  // ---------------------------------------------------------------------------

  function Pow16(n: nat): (p: nat)
    ensures p >= 1
  {
    if n == 0 then 1 else 16 * Pow16(n - 1)
  }

  predicate IsHexDigit(c: char) {
    ('0' <= c <= '9') || ('a' <= c <= 'f') || ('A' <= c <= 'F')
  }

  predicate IsHexString(s: string) {
    forall i :: 0 <= i < |s| ==> IsHexDigit(s[i])
  }

  function HexDigitValue(c: char): (v: nat)
    requires IsHexDigit(c)
    ensures v < 16
  {
    if '0' <= c <= '9' then c as int - '0' as int
    else if 'a' <= c <= 'f' then c as int - 'a' as int + 10
    else c as int - 'A' as int + 10
  }

  /** The lower-case digit Go's hex encoder writes for `v`. */
  function HexChar(v: nat): (c: char)
    requires v < 16
    ensures IsHexDigit(c) && HexDigitValue(c) == v
    ensures !('A' <= c <= 'F')
  {
    if v < 10 then ('0' as int + v) as char else ('a' as int + v - 10) as char
  }

  /** The number a string of hex digits spells, most significant digit first. */
  function HexValue(s: string): (v: nat)
    requires IsHexString(s)
    ensures v < Pow16(|s|)
  {
    if s == [] then 0 else HexValue(s[..|s| - 1]) * 16 + HexDigitValue(s[|s| - 1])
  }

  /** primitive.ObjectIDFromHex: exactly 24 hex digits (either case), else an error. */
  function ObjectIdFromHex(s: string): (r: Option<ObjectId>)
    ensures r.Some? <==> |s| == 24 && IsHexString(s)
    ensures r.Some? ==> r.value < Pow16(24)
  {
    if |s| == 24 && IsHexString(s) then Some(HexValue(s)) else None
  }

  /** The `width` lower-case hex digits of `n`, most significant first. */
  function HexDigits(n: nat, width: nat): (s: string)
    ensures |s| == width && IsHexString(s)
    ensures forall i :: 0 <= i < |s| ==> !('A' <= s[i] <= 'F')
  {
    if width == 0 then [] else HexDigits(n / 16, width - 1) + [HexChar(n % 16)]
  }

  /** ObjectID.Hex: the 24 lower-case hex digits of an ObjectID. */
  function ObjectIdHex(id: ObjectId): string
    requires id < Pow16(24)
  {
    HexDigits(id, 24)
  }

  /** The number of distinct ObjectIDs: twelve bytes, 2^96. */
  const ObjectIdSpace: nat := 0x1_0000_0000_0000_0000_0000_0000

  lemma {:induction false} Pow16Add(a: nat, b: nat)
    ensures Pow16(a + b) == Pow16(a) * Pow16(b)
  {
    if b > 0 {
      Pow16Add(a, b - 1);
      assert Pow16(a + b) == 16 * Pow16(a + b - 1);
    }
  }

  /** Twenty-four hex digits are exactly the twelve bytes of an ObjectID. */
  lemma Pow16IsObjectIdSpace()
    ensures Pow16(24) == ObjectIdSpace
  {
    assert Pow16(4) == 0x1_0000;
    assert Pow16(8) == 0x1_0000_0000 by { Pow16Add(4, 4); }
    assert Pow16(16) == 0x1_0000_0000_0000_0000 by { Pow16Add(8, 8); }
    Pow16Add(16, 8);
  }

  lemma {:induction false} HexDigitsValue(n: nat, width: nat)
    requires n < Pow16(width)
    ensures HexValue(HexDigits(n, width)) == n
  {
    if width > 0 {
      var s := HexDigits(n, width);
      assert s[..|s| - 1] == HexDigits(n / 16, width - 1);
      assert n / 16 < Pow16(width - 1);
      HexDigitsValue(n / 16, width - 1);
    }
  }

  /** Every ObjectID survives the trip through its hex form and back. */
  lemma ObjectIdHexRoundTrip(id: ObjectId)
    requires id < Pow16(24)
    ensures ObjectIdFromHex(ObjectIdHex(id)) == Some(id)
  {
    HexDigitsValue(id, 24);
  }

  // ---------------------------------------------------------------------------
  // strconv.Atoi and strconv.Itoa on a 64-bit platform
  // ---------------------------------------------------------------------------

  const MaxUint64: int := 0xFFFF_FFFF_FFFF_FFFF
  const MaxInt64: int := 0x7FFF_FFFF_FFFF_FFFF
  const MinInt64: int := -0x8000_0000_0000_0000

  predicate IsDigit(c: char) { '0' <= c <= '9' }

  function DigitValue(c: char): (v: nat)
    requires IsDigit(c)
    ensures v < 10
  {
    c as int - '0' as int
  }

  predicate IsDigits(s: string) {
    forall i :: 0 <= i < |s| ==> IsDigit(s[i])
  }

  /** What strconv.ParseUint's digit loop ends with. */
  datatype UintScan = SyntaxError | RangeError | Parsed(n: nat)

  /** strconv.ParseUint's base-10 loop, left to right: a non-digit is a syntax
      error, but an overflow stops the scan first, before later characters are
      looked at. `acc` is the value read so far. */
  function ScanDigits(s: string, acc: nat): UintScan
    requires acc <= MaxUint64
  {
    if s == [] then Parsed(acc)
    else if !IsDigit(s[0]) then SyntaxError
    else if acc >= MaxUint64 / 10 + 1 then RangeError
    else
      var next := acc * 10 + DigitValue(s[0]);
      if next > MaxUint64 then RangeError else ScanDigits(s[1..], next)
  }

  /** strconv.Atoi (= ParseInt(s, 10, 64)), keeping only the value: a syntax
      error gives 0, a range error the nearest int64 bound. */
  function Atoi(s: string): (n: int)
    ensures MinInt64 <= n <= MaxInt64
  {
    if s == [] then 0
    else
      var negative := s[0] == '-';
      var digits := if s[0] == '+' || s[0] == '-' then s[1..] else s;
      if digits == [] then 0
      else
        match ScanDigits(digits, 0)
        case SyntaxError => 0
        case RangeError => if negative then MinInt64 else MaxInt64
        case Parsed(u) =>
          if !negative && u > MaxInt64 then MaxInt64
          else if negative && u > -MinInt64 then MinInt64
          else if negative then -(u as int) else u
  }

  /** Decimal digits of `n`, most significant first (strconv.Itoa for n >= 0). */
  function Digits(n: nat): (s: string)
    ensures |s| >= 1 && IsDigits(s)
  {
    if n < 10 then [('0' as int + n) as char]
    else Digits(n / 10) + [('0' as int + n % 10) as char]
  }

  /** strconv.Itoa. */
  function Itoa(n: int): string {
    if n < 0 then "-" + Digits(-n) else Digits(n)
  }

  /** The number a digit string spells after `acc`, with nothing bounded. */
  function DecimalFold(s: string, acc: nat): nat
    requires IsDigits(s)
  {
    if s == [] then acc else DecimalFold(s[1..], acc * 10 + DigitValue(s[0]))
  }

  lemma {:induction false} DecimalFoldGrows(s: string, acc: nat)
    requires IsDigits(s)
    ensures DecimalFold(s, acc) >= acc
  {
    if s != [] {
      DecimalFoldGrows(s[1..], acc * 10 + DigitValue(s[0]));
    }
  }

  lemma {:induction false} DecimalFoldSnoc(s: string, c: char, acc: nat)
    requires IsDigits(s) && IsDigit(c)
    ensures DecimalFold(s + [c], acc) == DecimalFold(s, acc) * 10 + DigitValue(c)
  {
    if s != [] {
      assert (s + [c])[1..] == s[1..] + [c];
      DecimalFoldSnoc(s[1..], c, acc * 10 + DigitValue(s[0]));
    }
  }

  lemma {:induction false} DigitsFold(n: nat)
    ensures DecimalFold(Digits(n), 0) == n
  {
    if n >= 10 {
      var c := ('0' as int + n % 10) as char;
      DecimalFoldSnoc(Digits(n / 10), c, 0);
      DigitsFold(n / 10);
    }
  }

  /** Without overflow, the scan reads exactly the number the digits spell. */
  lemma {:induction false} ScanDigitsFold(s: string, acc: nat)
    requires IsDigits(s) && acc <= MaxUint64
    requires DecimalFold(s, acc) <= MaxUint64
    ensures ScanDigits(s, acc) == Parsed(DecimalFold(s, acc))
  {
    if s != [] {
      var next := acc * 10 + DigitValue(s[0]);
      DecimalFoldGrows(s[1..], next);
      assert acc < MaxUint64 / 10 + 1;
      ScanDigitsFold(s[1..], next);
    }
  }

  /** strconv.Atoi reads back every int64 that strconv.Itoa writes. */
  lemma AtoiItoa(n: int)
    requires MinInt64 <= n <= MaxInt64
    ensures Atoi(Itoa(n)) == n
  {
    if n < 0 {
      var ds := Digits(-n);
      assert Itoa(n)[1..] == ds;
      DigitsFold(-n);
      ScanDigitsFold(ds, 0);
    } else {
      DigitsFold(n);
      ScanDigitsFold(Digits(n), 0);
    }
  }

  function Pow10(n: nat): (p: nat)
    ensures p >= 1
  {
    if n == 0 then 1 else 10 * Pow10(n - 1)
  }

  const TenPow19: nat := 10_000_000_000_000_000_000

  lemma Pow10Nineteen()
    ensures Pow10(19) == TenPow19
  {
    assert Pow10(1) == 10;
    assert Pow10(2) == 100;
    assert Pow10(3) == 1000;
    assert Pow10(4) == 10000;
    assert Pow10(5) == 100000;
    assert Pow10(6) == 1000000;
    assert Pow10(7) == 10000000;
    assert Pow10(8) == 100000000;
    assert Pow10(9) == 1000000000;
    assert Pow10(10) == 10000000000;
    assert Pow10(11) == 100000000000;
    assert Pow10(12) == 1000000000000;
    assert Pow10(13) == 10000000000000;
    assert Pow10(14) == 100000000000000;
    assert Pow10(15) == 1000000000000000;
    assert Pow10(16) == 10000000000000000;
    assert Pow10(17) == 100000000000000000;
    assert Pow10(18) == 1000000000000000000;
    assert Pow10(19) == 10000000000000000000;
  }

  lemma {:induction false} Pow10Monotone(a: nat, b: nat)
    requires a <= b
    ensures Pow10(a) <= Pow10(b)
  {
    if a < b { Pow10Monotone(a, b - 1); }
  }

  /** A scan that has read `acc < bound` and whose remaining characters could at
      most multiply `bound` up to 10^19 never overflows: nineteen decimal digits
      fit in 64 bits. */
  lemma {:induction false} ShortScanNeverOverflows(s: string, acc: nat, bound: nat)
    requires acc < bound && bound * Pow10(|s|) <= TenPow19
    ensures acc <= MaxUint64 && ScanDigits(s, acc) != RangeError
  {
    assert bound * Pow10(|s|) >= bound;
    if s != [] && IsDigit(s[0]) {
      var next := acc * 10 + DigitValue(s[0]);
      var p := Pow10(|s| - 1);
      assert bound * Pow10(|s|) == (bound * 10) * p;
      assert (bound * 10) * p >= bound * 10;
      ShortScanNeverOverflows(s[1..], next, bound * 10);
    }
  }

  lemma {:induction false} MalformedScanNotParsed(s: string, acc: nat)
    requires acc <= MaxUint64
    requires !IsDigits(s)
    ensures !ScanDigits(s, acc).Parsed?
  {
    if IsDigit(s[0]) && acc < MaxUint64 / 10 + 1 && acc * 10 + DigitValue(s[0]) <= MaxUint64 {
      assert !IsDigits(s[1..]);
      MalformedScanNotParsed(s[1..], acc * 10 + DigitValue(s[0]));
    }
  }

  /** Any text of at most 19 characters that is not an optional sign followed by
      digits reads as 0 (the error itself is dropped by the callers). */
  lemma ShortMalformedAtoiIsZero(s: string)
    requires |s| <= 19
    requires !(|s| >= 1 && IsDigits(s)) &&
             !(|s| >= 2 && (s[0] == '+' || s[0] == '-') && IsDigits(s[1..]))
    ensures Atoi(s) == 0
  {
    if s != [] {
      var digits := if s[0] == '+' || s[0] == '-' then s[1..] else s;
      if digits != [] {
        Pow10Monotone(|digits|, 19);
        Pow10Nineteen();
        ShortScanNeverOverflows(digits, 0, 1);
        MalformedScanNotParsed(digits, 0);
      }
    }
  }

  // ---------------------------------------------------------------------------
  // 64-bit signed integer arithmetic
  // ---------------------------------------------------------------------------

  /** The int64 that Go's two's-complement arithmetic leaves for the exact value `x`. */
  function Wrap64(x: int): (r: int)
    ensures MinInt64 <= r <= MaxInt64
    ensures (r - x) % 0x1_0000_0000_0000_0000 == 0
    ensures MinInt64 <= x <= MaxInt64 ==> r == x
  {
    (x - MinInt64) % 0x1_0000_0000_0000_0000 + MinInt64
  }
}
