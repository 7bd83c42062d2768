/** JSON values and the Go conversions of encoding/json, strconv and time that fileee/types.go relies on. */
module Json {
  import opened Integers
  import opened Optional

  /** A number literal: an integer; one with a fraction or exponent, whose double truncates to the double
      nearest to `whole`; or one too large for any double, which Go refuses to decode. */
  datatype Number = Integer(n: int) | Fraction(whole: int, literal: string) | Huge(literal: string)

  datatype Value =
    | Null
    | Bool(b: bool)
    | Num(num: Number)
    | Str(s: string)
    | Arr(elems: seq<Value>)
    | Obj(fields: map<string, Value>)

  const TWO_53: int := 0x20_0000_0000_0000

  // ---------------------------------------------------------------- float64

  function Abs(n: int): nat { if n < 0 then -n else n }

  /** The distance of neighbouring doubles at the magnitude of m: 1 up to 2^53, then 2, 4, 8 .. */
  function Spacing(m: nat): (u: nat)
    ensures u >= 1 && m < TWO_53 * u
    ensures u > 1 ==> u % 2 == 0 && TWO_53 * (u / 2) <= m
    decreases m
  {
    if m < TWO_53 then 1 else 2 * Spacing(m / 2)
  }

  /** Round to the nearest multiple of the spacing, ties to the even multiple. */
  function RoundNat(m: nat): nat {
    var u := Spacing(m);
    var q, r := m / u, m % u;
    if 2 * r < u || (2 * r == u && q % 2 == 0) then q * u else (q + 1) * u
  }

  /** The double nearest to an integer literal, as an integer. */
  function Float64(n: int): int {
    if n < 0 then 0 - RoundNat(-n) else RoundNat(n)
  }

  /** n is a double. */
  predicate Exact(n: int) { Abs(n) % Spacing(Abs(n)) == 0 }

  lemma RoundExact(m: nat)
    ensures RoundNat(m) == m <==> m % Spacing(m) == 0
  {
    var u := Spacing(m);
    var q, r := m / u, m % u;
    assert m == q * u + r;
    assert (q + 1) * u == q * u + u;
  }

  lemma SmallIntegersExact(n: int)
    requires Abs(n) <= TWO_53
    ensures Exact(n) && Float64(n) == n
  {}

  lemma Float64Fixes(n: int)
    ensures Float64(n) == n <==> Exact(n)
  {
    RoundExact(Abs(n));
  }

  /** Go's int(f) for an integral double on amd64, where a value out of range gives the smallest int. */
  function ToInt(f: int): int {
    if -TWO_63 <= f < TWO_63 then f else -TWO_63
  }

  lemma {:induction false} SpacingIsPow2(m: nat) returns (k: nat)
    ensures Spacing(m) == Pow2(k)
    decreases m
  {
    if m < TWO_53 {
      k := 0;
    } else {
      k := SpacingIsPow2(m / 2);
      k := k + 1;
    }
  }

  lemma {:induction false} SpacingIs(m: nat, k: nat)
    requires m < TWO_53 * Pow2(k) && (k > 0 ==> TWO_53 * Pow2(k - 1) <= m)
    ensures Spacing(m) == Pow2(k)
  {
    if k > 0 { SpacingIs(m / 2, k - 1); }
  }

  /** What rounding gives is a double. */
  lemma RoundedIsExact(m: nat)
    ensures RoundNat(m) % Spacing(RoundNat(m)) == 0
    ensures m > 0 ==> RoundNat(m) > 0
  {
    var u := Spacing(m);
    var q, r := m / u, m % u;
    var e := SpacingIsPow2(m);
    assert m == q * u + r;
    if u > 1 {
      var h := TWO_53 / 2;
      assert TWO_53 * (u / 2) == h * u;
      QuotientBounds(q, r, u, h);
      var k := if 2 * r < u || (2 * r == u && q % 2 == 0) then q else q + 1;
      assert RoundNat(m) == k * u && h <= k <= 2 * h;
      MultipleIsExact(k, e, h);
    }
  }

  lemma MulSucc(q: nat, u: nat)
    ensures (q + 1) * u == q * u + u
  {}

  /** The numbers between neighbouring doubles have the same spacing. */
  lemma SameSpacing(q: nat, r: nat, e: nat, d: nat)
    requires r < Pow2(e) && q * Pow2(e) + r < TWO_53 * Pow2(e)
    requires e > 0 ==> TWO_53 * Pow2(e - 1) <= q * Pow2(e) + r
    requires q * Pow2(e) < d < q * Pow2(e) + Pow2(e)
    ensures Spacing(d) == Pow2(e)
  {
    var u, h := Pow2(e), TWO_53 / 2;
    MulSucc(q, u);
    if q >= TWO_53 { Grow(TWO_53, q, u); }
    Grow(q + 1, TWO_53, u);
    if e > 0 {
      assert TWO_53 * Pow2(e - 1) == h * u;
      if q < h { Grow(q + 1, h, u); }
      Grow(h, q, u);
    }
    SpacingIs(d, e);
  }

  lemma NoMultipleBetween(p: nat, q: nat, u: nat)
    ensures p * u <= q * u || p * u >= q * u + u
  {
    MulSucc(q, u);
    if p <= q { Grow(p, q, u); } else { Grow(q + 1, p, u); }
  }

  /** Between neighbouring multiples of the spacing there is no double. */
  lemma NoDoubleBetween(q: nat, r: nat, e: nat, p: nat, d: nat)
    requires r < Pow2(e) && q * Pow2(e) + r < TWO_53 * Pow2(e)
    requires e > 0 ==> TWO_53 * Pow2(e - 1) <= q * Pow2(e) + r
    requires d == p * Spacing(d)
    ensures d <= q * Pow2(e) || d >= q * Pow2(e) + Pow2(e)
  {
    if q * Pow2(e) < d < q * Pow2(e) + Pow2(e) {
      SameSpacing(q, r, e, d);
      NoMultipleBetween(p, q, Pow2(e));
    }
  }

  lemma DivMod(m: nat, u: nat)
    requires u > 0
    ensures m == m / u * u + m % u && m % u < u
  {}

  lemma {:induction false} SpacingBounds(m: nat) returns (k: nat)
    ensures Spacing(m) == Pow2(k) && m < TWO_53 * Pow2(k) && (k > 0 ==> TWO_53 * Pow2(k - 1) <= m)
    decreases m
  {
    if m < TWO_53 {
      k := 0;
    } else {
      k := SpacingBounds(m / 2);
      k := k + 1;
    }
  }

  /** RoundNat without its divisions: the multiples q and q + 1 of the spacing around m, and the one taken. */
  lemma RoundCases(m: nat) returns (q: nat, r: nat, e: nat, k: nat)
    ensures Spacing(m) == Pow2(e) && m == q * Pow2(e) + r && r < Pow2(e) && m < TWO_53 * Pow2(e)
    ensures e > 0 ==> TWO_53 * Pow2(e - 1) <= m
    ensures k == if 2 * r < Pow2(e) || (2 * r == Pow2(e) && q % 2 == 0) then q else q + 1
    ensures RoundNat(m) == k * Pow2(e)
  {
    e := SpacingBounds(m);
    q, r := m / Spacing(m), m % Spacing(m);
    k := if 2 * r < Pow2(e) || (2 * r == Pow2(e) && q % 2 == 0) then q else q + 1;
    DivMod(m, Spacing(m));
  }

  /** A number between two neighbouring multiples of its spacing, and the nearer of them. */
  lemma NearestOf(m: nat, q: nat, r: nat, e: nat, p: nat, d: nat, rounded: nat)
    requires m == q * Pow2(e) + r && r < Pow2(e) && m < TWO_53 * Pow2(e)
    requires e > 0 ==> TWO_53 * Pow2(e - 1) <= m
    requires d == p * Spacing(d)
    requires rounded == q * Pow2(e) || rounded == q * Pow2(e) + Pow2(e)
    requires (2 * r < Pow2(e) ==> rounded == q * Pow2(e)) && (2 * r > Pow2(e) ==> rounded == q * Pow2(e) + Pow2(e))
    ensures Abs(rounded - m) <= Abs(d - m)
    ensures Abs(rounded - m) == Abs(d - m) && d != rounded ==> 2 * r == Pow2(e)
  {
    NoDoubleBetween(q, r, e, p, d);
    NearerEnd(m, q * Pow2(e), r, Pow2(e), rounded, d);
  }

  lemma NearestMultiple(m: nat, q: nat, r: nat, e: nat, k: nat, p: nat, d: nat)
    requires m == q * Pow2(e) + r && r < Pow2(e) && m < TWO_53 * Pow2(e)
    requires e > 0 ==> TWO_53 * Pow2(e - 1) <= m
    requires k == if 2 * r < Pow2(e) || (2 * r == Pow2(e) && q % 2 == 0) then q else q + 1
    requires d == p * Spacing(d)
    ensures Abs(k * Pow2(e) - m) <= Abs(d - m)
    ensures Abs(k * Pow2(e) - m) == Abs(d - m) && d != k * Pow2(e) ==> k % 2 == 0
  {
    MultipleOf(q, k, Pow2(e));
    NearestOf(m, q, r, e, p, d, k * Pow2(e));
  }

  lemma MultipleOf(q: nat, k: nat, u: nat)
    requires k == q || k == q + 1
    ensures k * u == if k == q then q * u else q * u + u
  {
    MulSucc(q, u);
  }

  /** No double is nearer to m than the rounded one; of two equally near it is the even multiple k of the
      spacing. */
  lemma RoundNearest(m: nat, d: nat) returns (k: nat)
    requires Exact(d)
    ensures RoundNat(m) == k * Spacing(m) && Abs(RoundNat(m) - m) <= Abs(d - m)
    ensures Abs(RoundNat(m) - m) == Abs(d - m) && d != RoundNat(m) ==> k % 2 == 0
  {
    var q, r, e;
    q, r, e, k := RoundCases(m);
    DivMod(d, Spacing(d));
    NearestMultiple(m, q, r, e, k, d / Spacing(d), d);
  }

  lemma NearerEnd(m: nat, low: nat, r: nat, u: nat, rounded: nat, d: nat)
    requires m == low + r && r < u && (d <= low || d >= low + u)
    requires rounded == low || rounded == low + u
    requires (2 * r < u ==> rounded == low) && (2 * r > u ==> rounded == low + u)
    ensures Abs(rounded - m) <= Abs(d - m)
    ensures Abs(rounded - m) == Abs(d - m) && d != rounded ==> 2 * r == u
  {}

  lemma QuotientBounds(q: nat, r: nat, u: nat, h: nat)
    requires r < u && h * u <= q * u + r < 2 * h * u
    ensures h <= q < 2 * h
  {
    if q < h { assert q * u + u <= h * u by { Grow(q + 1, h, u); } }
    if q >= 2 * h { Grow(2 * h, q, u); }
  }

  lemma Grow(a: nat, b: nat, u: nat)
    requires a <= b
    ensures a * u <= b * u
  {}

  lemma MultipleIsExact(k: nat, e: nat, h: nat)
    requires e > 0 && h == TWO_53 / 2 && h <= k <= 2 * h
    ensures var u := Pow2(e); k * u > 0 && (k * u) % Spacing(k * u) == 0
  {
    var u := Pow2(e);
    Grow(h, k, u);
    Grow(k, 2 * h, u);
    if k < 2 * h {
      Grow(k + 1, 2 * h, u);
      SpacingIs(k * u, e);
      DivisibleBy(k, u);
    } else {
      SpacingIs(k * u, e + 1);
      assert k * u == h * (2 * u);
      DivisibleBy(h, 2 * u);
    }
  }

  lemma DivisibleBy(k: nat, u: nat)
    requires u > 0
    ensures (k * u) % u == 0
  {
    var q, r := k * u / u, (k * u) % u;
    assert k * u == q * u + r;
    if k > q { Grow(q + 1, k, u); }
    if k < q { Grow(k + 1, q, u); }
  }

  lemma SmallestExact()
    ensures Exact(-TWO_63)
  {
    Pow2Values();
    SpacingIs(TWO_63, 11);
  }

  /** The number path of decodeIntValue yields only integers that a double holds, and not 0 for another
      integer; going through it once more changes nothing. */
  lemma DecodedIntIsExact(n: int)
    ensures Exact(ToInt(Float64(n)))
    ensures n != 0 ==> ToInt(Float64(n)) != 0
    ensures ToInt(Float64(ToInt(Float64(n)))) == ToInt(Float64(n))
  {
    RoundedIsExact(Abs(n));
    SmallestExact();
    Float64Fixes(ToInt(Float64(n)));
  }

  /** A Go int after one more trip: written as a number, read through float64. */
  function Reread(n: int): int { ToInt(Float64(n)) }

  lemma RereadFacts(n: int)
    ensures Reread(n) == n ==> Exact(n)
    ensures Exact(n) && -TWO_63 <= n < TWO_63 ==> Reread(n) == n
    ensures Exact(Reread(n)) && Reread(Reread(n)) == Reread(n)
    ensures Reread(n) == 0 <==> n == 0
  {
    DecodedIntIsExact(n);
    Float64Fixes(n);
    SmallIntegersExact(0);
  }

  // ---------------------------------------------------------------- strconv.ParseInt(s, 10, 64)

  predicate IsDigit(c: char) { '0' <= c <= '9' }

  function Digit(c: char): nat
    requires IsDigit(c)
  {
    c as int - '0' as int
  }

  function Digits(s: string): Option<nat> {
    if s == "" then Some(0)
    else
      var front := Digits(s[..|s| - 1]);
      if front.Some? && IsDigit(s[|s| - 1]) then Some(10 * front.value + Digit(s[|s| - 1])) else None
  }

  function ParseInt(s: string): Option<int> {
    var negative := s != "" && s[0] == '-';
    var digits := if s != "" && (s[0] == '-' || s[0] == '+') then s[1..] else s;
    if digits == "" || Digits(digits).None? then None
    else
      var n := if negative then 0 - Digits(digits).value else Digits(digits).value;
      if -TWO_63 <= n < TWO_63 then Some(n) else None
  }

  /** Decimal notation. */
  function DigitChar(d: nat): char
    requires d < 10
  {
    "0123456789"[d]
  }

  function Decimal(n: nat): string {
    if n < 10 then [DigitChar(n)] else Decimal(n / 10) + [DigitChar(n % 10)]
  }

  function SignedDecimal(n: int): string {
    if n < 0 then "-" + Decimal(-n) else Decimal(n)
  }

  lemma DigitOfChar(d: nat)
    requires d < 10
    ensures IsDigit(DigitChar(d)) && Digit(DigitChar(d)) == d
  {}

  lemma {:induction false} DigitsOfDecimal(n: nat)
    ensures Digits(Decimal(n)) == Some(n) && Decimal(n) != "" && IsDigit(Decimal(n)[0])
  {
    if n < 10 {
      DigitOfChar(n);
      assert Decimal(n)[..0] == "";
    } else {
      DigitsOfDecimal(n / 10);
      DigitOfChar(n % 10);
      assert Decimal(n)[..|Decimal(n)| - 1] == Decimal(n / 10);
    }
  }

  function IfInt64(n: int): Option<int> { if -TWO_63 <= n < TWO_63 then Some(n) else None }

  lemma ParseDigits(digits: string, n: nat)
    requires digits != "" && IsDigit(digits[0]) && Digits(digits) == Some(n)
    ensures ParseInt(digits) == IfInt64(n) == ParseInt("+" + digits)
    ensures ParseInt("-" + digits) == IfInt64(0 - n)
  {
    assert ("-" + digits)[1..] == digits == ("+" + digits)[1..];
    assert ("-" + digits)[0] == '-' && ("+" + digits)[0] == '+';
  }

  /** ParseInt reads back every int64 in decimal, with or without a plus sign, and refuses larger ones. */
  lemma ParseDecimal(n: int)
    ensures ParseInt(SignedDecimal(n)) == IfInt64(n)
    ensures n >= 0 ==> ParseInt("+" + Decimal(n)) == IfInt64(n)
  {
    DigitsOfDecimal(Abs(n));
    ParseDigits(Decimal(Abs(n)), Abs(n));
  }

  // ---------------------------------------------------------------- time.Parse and Time.Format

  /** A parsed time: the full-date of RFC 3339 (section 5.6) and what followed it. */
  datatype Time = Time(date: string, rest: string)

  function Number2(s: string, i: nat): int
    requires i + 2 <= |s|
  {
    if IsDigit(s[i]) && IsDigit(s[i + 1]) then 10 * Digit(s[i]) + Digit(s[i + 1]) else -1
  }

  function DaysIn(month: int, year: int): int {
    if month == 2 then (if year % 4 == 0 && (year % 100 != 0 || year % 400 == 0) then 29 else 28)
    else if month in {4, 6, 9, 11} then 30
    else 31
  }

  predicate IsFullDate(s: string) {
    && |s| == 10 && s[4] == '-' && s[7] == '-'
    && Number2(s, 0) >= 0 && Number2(s, 2) >= 0
    && 1 <= Number2(s, 5) <= 12
    && 1 <= Number2(s, 8) <= DaysIn(Number2(s, 5), 100 * Number2(s, 0) + Number2(s, 2))
  }

  predicate IsLeap(year: nat) { year % 4 == 0 && (year % 100 != 0 || year % 400 == 0) }

  /** A date of the Gregorian calendar: the first and last two digits of the year, month and day. */
  predicate IsDate(century: nat, year: nat, month: nat, day: nat) {
    && century < 100 && year < 100 && 1 <= month <= 12 && 1 <= day
    && day <= [31, if IsLeap(100 * century + year) then 29 else 28, 31, 30, 31, 30,
               31, 31, 30, 31, 30, 31][month - 1]
  }

  function DateText(century: nat, year: nat, month: nat, day: nat): string
    requires IsDate(century, year, month, day)
  {
    [DigitChar(century / 10), DigitChar(century % 10), DigitChar(year / 10), DigitChar(year % 10), '-',
     DigitChar(month / 10), DigitChar(month % 10), '-', DigitChar(day / 10), DigitChar(day % 10)]
  }

  lemma DaysTable(century: nat, year: nat, month: nat)
    requires 1 <= month <= 12 && century < 100 && year < 100
    ensures forall day: nat ::
              IsDate(century, year, month, day) <==> 1 <= day <= DaysIn(month, 100 * century + year)
  {}

  lemma TwoDigitsRead(s: string, i: nat, n: nat)
    requires n < 100 && i + 2 <= |s| && s[i] == DigitChar(n / 10) && s[i + 1] == DigitChar(n % 10)
    ensures Number2(s, i) == n
  {
    DigitOfChar(n / 10);
    DigitOfChar(n % 10);
  }

  lemma TwoDigitsWritten(s: string, i: nat)
    requires i + 2 <= |s| && Number2(s, i) >= 0
    ensures Number2(s, i) < 100
    ensures s[i] == DigitChar(Number2(s, i) / 10) && s[i + 1] == DigitChar(Number2(s, i) % 10)
  {
    CharOfDigit(s[i]);
    CharOfDigit(s[i + 1]);
  }

  lemma CharOfDigit(c: char)
    requires IsDigit(c)
    ensures DigitChar(Digit(c)) == c
  {}

  /** Every date is read. */
  lemma DateIsFullDate(century: nat, year: nat, month: nat, day: nat)
    requires IsDate(century, year, month, day)
    ensures IsFullDate(DateText(century, year, month, day))
  {
    var s := DateText(century, year, month, day);
    DaysTable(century, year, month);
    TwoDigitsRead(s, 0, century);
    TwoDigitsRead(s, 2, year);
    TwoDigitsRead(s, 5, month);
    TwoDigitsRead(s, 8, day);
    FullDateParts(s, century, year, month, day);
  }

  lemma FullDateParts(s: string, century: nat, year: nat, month: nat, day: nat)
    requires |s| == 10 && s[4] == '-' && s[7] == '-'
    requires Number2(s, 0) == century && Number2(s, 2) == year && Number2(s, 5) == month && Number2(s, 8) == day
    requires 1 <= month <= 12 && 1 <= day <= DaysIn(month, 100 * century + year)
    ensures IsFullDate(s)
  {}

  /** Nothing else is. */
  lemma FullDateIsDate(s: string) returns (century: nat, year: nat, month: nat, day: nat)
    requires IsFullDate(s)
    ensures IsDate(century, year, month, day) && s == DateText(century, year, month, day)
  {
    TwoDigitsWritten(s, 0);
    TwoDigitsWritten(s, 2);
    TwoDigitsWritten(s, 5);
    TwoDigitsWritten(s, 8);
    century, year, month, day := Number2(s, 0), Number2(s, 2), Number2(s, 5), Number2(s, 8);
    DaysTable(century, year, month);
  }

  /** time.Parse with the layout RFC 3339 first and the plain date second. `tail` is what the first accepts
      after the date: time of day and offset. */
  function ParseTime(s: string, tail: string -> bool): (t: Option<Time>)
    ensures t.Some? ==> IsFullDate(t.value.date) && s == t.value.date + t.value.rest
  {
    if |s| >= 10 && IsFullDate(s[..10]) && (|s| == 10 || tail(s[10..])) then Some(Time(s[..10], s[10..]))
    else None
  }
}
