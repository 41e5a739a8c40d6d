/** The 18-decimal parser and printer of SPRX amounts. Strings are sequences of characters,
    `bigint` is `int`, and `None` stands for a thrown error. */
module Decimal {
  import opened Basics

  const SCALE: nat := 18
  const ATTO_PER_SPRX: int := 1_000_000_000_000_000_000

  // ---------------------------------------------------------------------------------
  // Digits

  function Pow10(n: nat): (r: int)
    ensures r >= 1
  {
    if n == 0 then 1 else 10 * Pow10(n - 1)
  }

  predicate IsDigit(c: char) {
    '0' <= c <= '9'
  }

  predicate AllDigits(s: string) {
    forall i :: 0 <= i < |s| ==> IsDigit(s[i])
  }

  function DigitChar(d: int): (c: char)
    requires 0 <= d < 10
    ensures IsDigit(c) && c as int == '0' as int + d
  {
    ('0' as int + d) as char
  }

  /** The number a string of digits denotes. */
  function Number(s: string): int
    requires AllDigits(s)
  {
    if s == [] then 0 else Number(s[..|s| - 1]) * 10 + (s[|s| - 1] as int - '0' as int)
  }

  /** `toString` of a non-negative number. */
  function Print(n: nat): (s: string)
    ensures s != [] && AllDigits(s) && (n > 0 ==> s[0] != '0')
  {
    if n < 10 then [DigitChar(n)] else Print(n / 10) + [DigitChar(n % 10)]
  }

  lemma {:induction false} NumberOfPrint(n: nat)
    ensures Number(Print(n)) == n
  {
    if n >= 10 {
      NumberOfPrint(n / 10);
      assert Print(n)[..|Print(n)| - 1] == Print(n / 10);
    } else {
      assert Print(n)[..0] == [];
    }
  }

  lemma {:induction false} NumberBounds(s: string)
    requires AllDigits(s)
    ensures 0 <= Number(s) < Pow10(|s|)
    ensures s != [] && s[0] != '0' ==> Pow10(|s| - 1) <= Number(s)
  {
    if s != [] {
      NumberBounds(s[..|s| - 1]);
      if |s| == 1 { assert s[..0] == []; }
    }
  }

  lemma {:induction false} NumberConcat(a: string, b: string)
    requires AllDigits(a) && AllDigits(b)
    ensures AllDigits(a + b) && Number(a + b) == Number(a) * Pow10(|b|) + Number(b)
  {
    if b == [] {
      assert a + b == a;
    } else {
      var front, d := b[..|b| - 1], b[|b| - 1] as int - '0' as int;
      NumberConcat(a, front);
      assert (a + b)[..|a + b| - 1] == a + front;
      Append(Number(a), Pow10(|b| - 1), Number(front), d);
    }
  }

  lemma Append(x: int, p: int, y: int, d: int)
    ensures (x * p + y) * 10 + d == x * (10 * p) + (y * 10 + d)
  {
  }

  function Zeros(n: nat): (s: string)
    ensures |s| == n && AllDigits(s) && forall i :: 0 <= i < n ==> s[i] == '0'
  {
    seq(n, _ => '0')
  }

  lemma {:induction false} NumberOfZeros(n: nat)
    ensures Number(Zeros(n)) == 0
  {
    if n > 0 {
      NumberOfZeros(n - 1);
      assert Zeros(n)[..n - 1] == Zeros(n - 1);
    }
  }

  // ---------------------------------------------------------------------------------
  // The string and bigint primitives

  function PadStart(s: string, n: nat): (r: string)
    ensures |r| == if |s| < n then n else |s|
  {
    if |s| < n then Zeros(n - |s|) + s else s
  }

  /** `padEnd(n, "0").slice(0, n)`. */
  function FitEnd(s: string, n: nat): (r: string)
    ensures |r| == n
  {
    if |s| < n then s + Zeros(n - |s|) else s[..n]
  }

  /** `replace(/0+$/, "")`. */
  function StripZeros(s: string): string {
    if s == [] || s[|s| - 1] != '0' then s else StripZeros(s[..|s| - 1])
  }

  /** White space and line ends of ECMAScript. */
  predicate IsSpace(c: char) {
    || '\U{0009}' <= c <= '\U{000D}' || c == ' ' || c == '\U{00A0}' || c == '\U{1680}'
    || '\U{2000}' <= c <= '\U{200A}' || c == '\U{2028}' || c == '\U{2029}' || c == '\U{202F}'
    || c == '\U{205F}' || c == '\U{3000}' || c == '\U{FEFF}'
  }

  function Trim(s: string): string {
    if s == [] then []
    else if IsSpace(s[0]) then Trim(s[1..])
    else if IsSpace(s[|s| - 1]) then Trim(s[..|s| - 1])
    else s
  }

  /** `split(".")`. */
  function Split(s: string): (r: seq<string>)
    ensures r != []
  {
    if s == [] then [[]]
    else
      var rest := Split(s[1..]);
      if s[0] == '.' then [[]] + rest else [[s[0]] + rest[0]] + rest[1..]
  }

  /** The base that `0x`, `0o` or `0b` announces. */
  function Base(s: string): nat {
    if |s| < 3 || s[0] != '0' then 10
    else if s[1] == 'x' || s[1] == 'X' then 16
    else if s[1] == 'o' || s[1] == 'O' then 8
    else if s[1] == 'b' || s[1] == 'B' then 2
    else 10
  }

  /** The value of a digit in any base, `36` for other characters. */
  function DigitValue(c: char): nat {
    if IsDigit(c) then c as int - '0' as int
    else if 'a' <= c <= 'f' then c as int - 'a' as int + 10
    else if 'A' <= c <= 'F' then c as int - 'A' as int + 10
    else 36
  }

  function NumberInBase(s: string, base: nat): Option<nat> {
    if s == [] then Some(0)
    else
      var front, d := NumberInBase(s[..|s| - 1], base), DigitValue(s[|s| - 1]);
      if front.None? || d >= base then None else Some(front.value * base + d)
  }

  /** `BigInt(s)` of a string. */
  function ToBigInt(s: string): Option<int> {
    var t := Trim(s);
    if t == [] then Some(0)
    else if AllDigits(t) then Some(Number(t))
    else if (t[0] == '-' || t[0] == '+') && |t| > 1 && AllDigits(t[1..]) then
      Some(if t[0] == '-' then -Number(t[1..]) else Number(t[1..]))
    else if Base(t) != 10 then
      var n := NumberInBase(t[2..], Base(t));
      if n.None? then None else Some(n.value)
    else None
  }

  /** `toString` of any `bigint`. */
  function PrintInt(n: int): (s: string)
    ensures s != []
  {
    if n >= 0 then Print(n) else "-" + Print(-n)
  }

  /** Division that truncates towards zero. */
  function Quotient(a: int, b: int): int
    requires b > 0
  {
    if a >= 0 then a / b else -((-a) / b)
  }

  function Remainder(a: int, b: int): int
    requires b > 0
  {
    a - Quotient(a, b) * b
  }

  // ---------------------------------------------------------------------------------
  // Parser and printer

  /** The amount of a whole part and a fraction, if both could be read. */
  function Combine(whole: Option<int>, fraction: Option<int>): Option<int> {
    if whole.None? || fraction.None? then None else Some(whole.value * ATTO_PER_SPRX + fraction.value)
  }

  /** `sprxToAtto`. */
  function SprxToAtto(s: string): Option<int> {
    var parts := Split(Trim(s));
    if |parts| > 2 then None
    else
      Combine(ToBigInt(if parts[0] == [] then "0" else parts[0]),
              if |parts| == 1 then Some(0) else ToBigInt(FitEnd(parts[1], SCALE)))
  }

  /** `attoToSprx`. */
  function AttoToSprx(atto: int): string {
    var whole, rem := Quotient(atto, ATTO_PER_SPRX), Remainder(atto, ATTO_PER_SPRX);
    if rem == 0 then PrintInt(whole)
    else PrintInt(whole) + "." + StripZeros(PadStart(PrintInt(rem), SCALE))
  }

  /** `Amount::to_sprx_string`. */
  function ToSprxString(atto: nat): string {
    var whole, frac := atto / ATTO_PER_SPRX, atto % ATTO_PER_SPRX;
    if frac == 0 then Print(whole) + " SPRX"
    else Print(whole) + "." + StripZeros(PadStart(Print(frac), SCALE)) + " SPRX"
  }

  // ---------------------------------------------------------------------------------
  // Splitting and trimming

  lemma {:induction false} SplitPlain(s: string)
    requires '.' !in s
    ensures Split(s) == [s]
  {
    if s != [] {
      assert s[0] in s && forall c <- s[1..] :: c in s;
      SplitPlain(s[1..]);
      assert s == [s[0]] + s[1..];
    }
  }

  lemma {:induction false} SplitTwo(a: string, b: string)
    requires '.' !in a && '.' !in b
    ensures Split(a + "." + b) == [a, b]
  {
    var s := a + "." + b;
    if a == [] {
      assert s[1..] == b;
      SplitPlain(b);
    } else {
      assert a[0] in a && forall c <- a[1..] :: c in a;
      SplitTwo(a[1..], b);
      assert s[1..] == a[1..] + "." + b;
      assert a == [a[0]] + a[1..];
    }
  }

  /** Digits, perhaps with dots and a leading minus: nothing to trim. */
  predicate Solid(s: string) {
    forall c <- s :: IsDigit(c) || c == '.' || c == '-'
  }

  lemma TrimSolid(s: string)
    requires Solid(s)
    ensures Trim(s) == s
  {
    if s != [] {
      assert s[0] in s && s[|s| - 1] in s;
    }
  }

  lemma DigitsToBigInt(s: string)
    requires AllDigits(s)
    ensures ToBigInt(s) == Some(Number(s))
  {
    TrimSolid(s);
  }

  lemma PrintIntToBigInt(n: int)
    ensures Solid(PrintInt(n)) && '.' !in PrintInt(n) && ToBigInt(PrintInt(n)) == Some(n)
  {
    var s := PrintInt(n);
    if n >= 0 {
      NumberOfPrint(n);
      DigitsToBigInt(s);
    } else {
      NumberOfPrint(-n);
      assert s[1..] == Print(-n) && s[0] == '-';
      assert Solid(s);
      TrimSolid(s);
    }
  }

  // ---------------------------------------------------------------------------------
  // Floor

  lemma {:induction false} Pow10Add(a: nat, b: nat)
    ensures Pow10(a + b) == Pow10(a) * Pow10(b)
  {
    if a > 0 {
      Pow10Add(a - 1, b);
      assert 10 * (Pow10(a - 1) * Pow10(b)) == (10 * Pow10(a - 1)) * Pow10(b);
    }
  }

  lemma ScaleIsPow10()
    ensures Pow10(SCALE) == ATTO_PER_SPRX
  {
    assert Pow10(3) == 1000;
    Pow10Add(3, 3);
    Pow10Add(6, 3);
    Pow10Add(9, 9);
  }

  /** `r` is the floor of `num / den`. */
  predicate IsFloor(r: int, num: int, den: int) {
    r * den <= num < (r + 1) * den
  }

  lemma FloorOfMultiple(n: int, f: int, k: int, den: int, a: int)
    requires den >= 1 && n == f * k && a == k * den
    ensures IsFloor(n, f * a, den)
  {
    assert n * den == f * a by { assert (f * k) * den == f * (k * den); }
    assert (n + 1) * den == n * den + den;
  }

  lemma FloorOfCut(head: int, tail: int, t: int, f: int, a: int, den: int)
    requires 0 <= tail < t && a >= 1 && f == head * t + tail && den == a * t
    ensures IsFloor(head, f * a, den)
  {
    assert f * a == head * den + tail * a by { assert (head * t + tail) * a == head * (a * t) + tail * a; }
    assert (head + 1) * den == head * den + t * a;
    assert t * a == tail * a + (t - tail) * a;
    assert 0 <= tail * a && (t - tail) * a >= 1;
  }

  lemma FloorShift(w: int, n: int, f: int, den: int, a: int)
    requires IsFloor(n, f * a, den)
    ensures IsFloor(w * a + n, (w * den + f) * a, den)
  {
    assert (w * den + f) * a == (w * a) * den + f * a;
    assert (w * a + n) * den == (w * a) * den + n * den;
    assert (w * a + n + 1) * den == (w * a) * den + (n + 1) * den;
  }

  lemma FitShort(f: string, n: nat)
    requires AllDigits(f) && |f| < n
    ensures AllDigits(FitEnd(f, n)) && Number(FitEnd(f, n)) == Number(f) * Pow10(n - |f|)
  {
    NumberConcat(f, Zeros(n - |f|));
    NumberOfZeros(n - |f|);
  }

  lemma FitLong(f: string, n: nat)
    requires AllDigits(f) && n <= |f|
    ensures AllDigits(FitEnd(f, n))
    ensures var tail := Number(f) - Number(FitEnd(f, n)) * Pow10(|f| - n); 0 <= tail < Pow10(|f| - n)
  {
    assert f == f[..n] + f[n..];
    NumberConcat(f[..n], f[n..]);
    NumberBounds(f[n..]);
  }

  /** The fraction as it is padded or cut is the floor of its value at `n` decimals. */
  lemma FractionFloor(f: string, n: nat)
    requires AllDigits(f)
    ensures AllDigits(FitEnd(f, n))
    ensures IsFloor(Number(FitEnd(f, n)), Number(f) * Pow10(n), Pow10(|f|))
  {
    if |f| < n {
      FitShort(f, n);
      Pow10Add(n - |f|, |f|);
      FloorOfMultiple(Number(FitEnd(f, n)), Number(f), Pow10(n - |f|), Pow10(|f|), Pow10(n));
    } else {
      FitLong(f, n);
      var head, t := Number(FitEnd(f, n)), Pow10(|f| - n);
      Pow10Add(n, |f| - n);
      FloorOfCut(head, Number(f) - head * t, t, Number(f), Pow10(n), Pow10(|f|));
    }
  }

  lemma ParseWhole(w: string)
    requires AllDigits(w)
    ensures SprxToAtto(w) == Some(Number(w) * ATTO_PER_SPRX)
  {
    assert Solid(w) && '.' !in w;
    TrimSolid(w);
    SplitPlain(w);
    ParseFirst(w);
  }

  lemma ParseFirst(w: string)
    requires AllDigits(w)
    ensures ToBigInt(if w == [] then "0" else w) == Some(Number(w))
  {
    DigitsToBigInt(w);
    DigitsToBigInt("0");
    assert "0"[..0] == "" && Number("0") == 0;
  }

  lemma ParseTwo(a: string, b: string)
    requires Solid(a + "." + b) && '.' !in a && '.' !in b
    ensures SprxToAtto(a + "." + b) == Combine(ToBigInt(if a == [] then "0" else a), ToBigInt(FitEnd(b, SCALE)))
  {
    TrimSolid(a + "." + b);
    SplitTwo(a, b);
  }

  lemma ParseParts(w: string, f: string)
    requires AllDigits(w) && AllDigits(f) && AllDigits(FitEnd(f, SCALE))
    ensures SprxToAtto(w + "." + f) == Combine(Some(Number(w)), Some(Number(FitEnd(f, SCALE))))
  {
    assert Solid(w + "." + f) && '.' !in w && '.' !in f;
    ParseTwo(w, f);
    ParseFirst(w);
    DigitsToBigInt(FitEnd(f, SCALE));
  }

  lemma CombineFloor(w: int, n: int, f: int, den: int)
    requires IsFloor(n, f * Pow10(SCALE), den)
    ensures IsFloor(Combine(Some(w), Some(n)).value, (w * den + f) * ATTO_PER_SPRX, den)
  {
    ScaleIsPow10();
    FloorShift(w, n, f, den, ATTO_PER_SPRX);
  }

  /** For every string of digits with any number of digits after the point, the parsed amount is
      the floor of its value in atto-SPRX. */
  lemma ParseIsFloor(w: string, f: string)
    requires AllDigits(w) && AllDigits(f)
    ensures var r := SprxToAtto(w + "." + f);
      r.Some? && IsFloor(r.value, (Number(w) * Pow10(|f|) + Number(f)) * ATTO_PER_SPRX, Pow10(|f|))
  {
    FractionFloor(f, SCALE);
    ParseParts(w, f);
    CombineFloor(Number(w), Number(FitEnd(f, SCALE)), Number(f), Pow10(|f|));
  }

  // ---------------------------------------------------------------------------------
  // Round trip

  lemma {:induction false} StripThenFit(s: string)
    ensures |StripZeros(s)| <= |s| && FitEnd(StripZeros(s), |s|) == s
    ensures '.' !in s ==> '.' !in StripZeros(s)
    ensures Solid(s) ==> Solid(StripZeros(s))
  {
    if s != [] && s[|s| - 1] == '0' {
      var front := s[..|s| - 1];
      assert forall c <- front :: c in s;
      StripThenFit(front);
      assert FitEnd(StripZeros(s), |s|) == FitEnd(StripZeros(front), |front|) + "0";
    }
  }

  /** What is read back as the fraction of an amount printed with remainder `rem`. */
  function ReadBack(rem: int): Option<int> {
    ToBigInt(FitEnd(StripZeros(PadStart(PrintInt(rem), SCALE)), SCALE))
  }

  lemma ParsePrinted(x: int)
    requires Remainder(x, ATTO_PER_SPRX) != 0
    ensures SprxToAtto(AttoToSprx(x))
      == Combine(Some(Quotient(x, ATTO_PER_SPRX)), ReadBack(Remainder(x, ATTO_PER_SPRX)))
  {
    var whole, rem := Quotient(x, ATTO_PER_SPRX), Remainder(x, ATTO_PER_SPRX);
    var padded := PadStart(PrintInt(rem), SCALE);
    PrintIntToBigInt(whole);
    PrintIntToBigInt(rem);
    assert Solid(padded) && '.' !in padded;
    StripThenFit(padded);
    ParseTwo(PrintInt(whole), StripZeros(padded));
  }

  /** So the amount comes back exactly if its remainder does. */
  lemma ComesBack(x: int)
    requires Remainder(x, ATTO_PER_SPRX) != 0
    ensures SprxToAtto(AttoToSprx(x)) == Some(x)
      <==> ReadBack(Remainder(x, ATTO_PER_SPRX)) == Some(Remainder(x, ATTO_PER_SPRX))
  {
    Divided(x);
    ParsePrinted(x);
  }

  lemma Divided(x: int)
    ensures Quotient(x, ATTO_PER_SPRX) * ATTO_PER_SPRX + Remainder(x, ATTO_PER_SPRX) == x
  {
  }

  lemma ParsePrintedWhole(x: int)
    requires Remainder(x, ATTO_PER_SPRX) == 0
    ensures SprxToAtto(AttoToSprx(x)) == Some(x)
  {
    var whole := Quotient(x, ATTO_PER_SPRX);
    PrintIntToBigInt(whole);
    TrimSolid(PrintInt(whole));
    SplitPlain(PrintInt(whole));
  }

  /** Numbers below `10^n` print with at most `n` digits, others with more. */
  lemma PrintLength(n: nat, k: nat)
    requires k >= 1
    ensures n < Pow10(k) <==> |Print(n)| <= k
  {
    NumberOfPrint(n);
    NumberBounds(Print(n));
    if n < Pow10(k) && |Print(n)| > k {
      Pow10Grows(k, |Print(n)| - 1);
    } else if |Print(n)| <= k {
      Pow10Grows(|Print(n)|, k);
    }
  }

  lemma {:induction false} Pow10Grows(a: nat, b: nat)
    requires a <= b
    ensures Pow10(a) <= Pow10(b)
    decreases b
  {
    if a < b { Pow10Grows(a, b - 1); }
  }

  lemma ReadBackPositive(n: nat)
    requires n < ATTO_PER_SPRX
    ensures ReadBack(n) == Some(n)
  {
    ScaleIsPow10();
    PrintLength(n, SCALE);
    var k := SCALE - |Print(n)|;
    var padded := PadStart(Print(n), SCALE);
    assert padded == Zeros(k) + Print(n);
    NumberOfPrint(n);
    NumberOfZeros(k);
    NumberConcat(Zeros(k), Print(n));
    assert 0 * Pow10(|Print(n)|) == 0;
    DigitsToBigInt(padded);
    StripThenFit(padded);
  }

  /** Printing and parsing a non-negative amount gives it back. */
  lemma RoundTrip(x: nat)
    ensures SprxToAtto(AttoToSprx(x)) == Some(x)
  {
    var rem := Remainder(x, ATTO_PER_SPRX);
    if rem == 0 {
      ParsePrintedWhole(x);
    } else {
      ReadBackPositive(rem);
      ComesBack(x);
    }
  }

  // ---------------------------------------------------------------------------------
  // Negative amounts

  lemma {:induction false} StripThenCut(s: string, n: nat)
    requires n <= |s|
    ensures FitEnd(StripZeros(s), n) == s[..n]
  {
    StripThenFit(s);
    var rest := StripZeros(s);
    assert s == rest + Zeros(|s| - |rest|);
  }

  lemma ReadBackExact(m: int)
    requires m > 0 && |Print(m)| == SCALE - 1
    ensures ReadBack(-m) == Some(-m)
  {
    var s := PrintInt(-m);
    assert |s| == SCALE && PadStart(s, SCALE) == s;
    StripThenFit(s);
    PrintIntToBigInt(-m);
  }

  lemma ReadBackLong(m: int)
    requires m > 0 && |Print(m)| == SCALE
    ensures ReadBack(-m) != Some(-m)
  {
    var s := PrintInt(-m);
    StripThenCut(s, SCALE);
    var t := s[..SCALE];
    assert t[0] == '-' && t[1..] == Print(m)[..SCALE - 1] && AllDigits(t[1..]);
    assert Solid(t);
    TrimSolid(t);
    NumberBounds(t[1..]);
    PrintLength(m, SCALE - 1);
  }

  lemma ReadBackShort(m: int)
    requires m > 0 && |Print(m)| < SCALE - 1
    ensures ReadBack(-m).None?
  {
    var s := PadStart(PrintInt(-m), SCALE);
    StripThenFit(s);
    var n := SCALE - 1 - |Print(m)|;
    assert s[n] == '-' && s[0] == '0' && (s[1] == '0' || s[1] == '-');
    assert Solid(s);
    TrimSolid(s);
  }

  /** Over all integers, printing and parsing gives the amount back exactly if it is not
      negative, has no fraction, or has a fraction of exactly 17 digits. */
  lemma RoundTripExactly(x: int)
    ensures var m := -Remainder(x, ATTO_PER_SPRX);
      SprxToAtto(AttoToSprx(x)) == Some(x) <==> x >= 0 || m == 0 || Pow10(SCALE - 2) <= m < Pow10(SCALE - 1)
  {
    var m := -Remainder(x, ATTO_PER_SPRX);
    if x >= 0 {
      RoundTrip(x);
    } else if m == 0 {
      ParsePrintedWhole(x);
    } else {
      ComesBack(x);
      FractionLengths(m);
      if |Print(m)| == SCALE { ReadBackLong(m); }
      else if |Print(m)| == SCALE - 1 { ReadBackExact(m); }
      else { ReadBackShort(m); }
    }
  }

  lemma FractionLengths(m: nat)
    requires m < ATTO_PER_SPRX
    ensures |Print(m)| <= SCALE && (|Print(m)| == SCALE - 1 <==> Pow10(SCALE - 2) <= m < Pow10(SCALE - 1))
  {
    ScaleIsPow10();
    PrintLength(m, SCALE);
    PrintLength(m, SCALE - 1);
    PrintLength(m, SCALE - 2);
  }

  /** The node prints amounts as the wallet does, followed by the unit, so that the wallet reads
      back what the node shows. */
  lemma NodePrintsAlike(x: nat)
    ensures ToSprxString(x) == AttoToSprx(x) + " SPRX"
    ensures var shown := ToSprxString(x); SprxToAtto(shown[..|shown| - 5]) == Some(x)
  {
    RoundTrip(x);
    assert ToSprxString(x)[..|ToSprxString(x)| - 5] == AttoToSprx(x);
  }
}
