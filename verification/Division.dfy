/** Division, and decimal output and input, without a divide instruction. */
module Division {
  import S = Shifts

  newtype int32 = x: int | -0x80000000 <= x < 0x80000000
  newtype uint32 = x: int | 0 <= x < 0x100000000

  /** The quotient of C, which rounds towards zero. */
  function Quotient(x: int, y: int): int
    requires y != 0
  {
    var q := Abs(x) / Abs(y);
    if (x < 0) == (y < 0) then q else -q
  }

  /** The remainder of C has the sign of the dividend. */
  function Remainder(x: int, y: int): int
    requires y != 0
  {
    var r := Abs(x) % Abs(y);
    if x < 0 then -r else r
  }

  function Abs(x: int): nat { if x < 0 then -x else x }

  /** The two belong together, and the remainder is smaller than the divisor. */
  lemma QuotientRemainder(x: int, y: int)
    requires y != 0
    ensures Quotient(x, y) * y + Remainder(x, y) == x && Abs(Remainder(x, y)) < Abs(y)
  {
    var q, a, b := Abs(x) / Abs(y), Abs(x), Abs(y);
    assert a == q * b + a % b;
    if y < 0 { assert q * b == (-q) * y; } else { assert q * b == q * y; }
    assert (-q) * y == -(q * y);
  }

  lemma Unique(a: nat, b: nat, q: nat, r: nat)
    requires b > 0 && q * b + r == a && r < b
    ensures a / b == q && a % b == r
  {
    S.Quotient(a, b, q);
    Rest(a, b, a / b);
  }

  lemma Rest(a: nat, b: nat, q: nat)
    requires b > 0 && q == a / b
    ensures a % b == a - q * b
  {
  }

  lemma {:induction false} UpSmall(a: nat, i: nat)
    ensures S.Up(a, i) <= a
  {
    if i > 0 { UpSmall(a, i - 1); }
  }

  lemma EightMore(k: nat)
    ensures S.Size(k + 8) == 256 * S.Size(k)
  {
    S.SizeDoubles(k); S.SizeDoubles(k + 1); S.SizeDoubles(k + 2); S.SizeDoubles(k + 3);
    S.SizeDoubles(k + 4); S.SizeDoubles(k + 5); S.SizeDoubles(k + 6); S.SizeDoubles(k + 7);
  }

  lemma WordSize()
    ensures S.Size(32) == 0x100000000
  {
    EightMore(0);
    EightMore(8);
    EightMore(16);
    EightMore(24);
  }

  lemma NoBitsAbove(a: nat)
    requires a < 0x80000000
    ensures S.Up(a, 32) == 0 && S.Start(32, 0) == 0
  {
    WordSize();
    S.StartTimes(32, 0);
    S.UpStart(a, 32, 0);
  }

  /** `h` times `b` by addition. */
  function Times(h: nat, b: nat): nat { if h == 0 then 0 else Times(h - 1, b) + b }

  lemma {:induction false} TimesTwice(h: nat, b: nat)
    ensures Times(2 * h, b) == 2 * Times(h, b)
  {
    if h > 0 {
      TimesTwice(h - 1, b);
      assert Times(2 * h, b) == Times(2 * h - 1, b) + b && Times(2 * h - 1, b) == Times(2 * h - 2, b) + b;
    }
  }

  lemma {:induction false} TimesIs(h: nat, b: nat)
    ensures Times(h, b) == h * b && (b > 0 ==> h <= Times(h, b))
  {
    if h > 0 { TimesIs(h - 1, b); }
  }

  /** With bits `i` and up divided: the quotient so far is `h` shifted by `i`. */
  ghost predicate Divided(a: nat, b: nat, q: nat, r: nat, i: nat, h: nat)
  {
    q == S.Start(i, h) && Times(h, b) + r == S.Up(a, i) && r < b
  }

  /** The next bit brought down; neither the remainder nor the quotient leaves the word. */
  lemma NextBit(a: nat, b: nat, q: nat, r: nat, i: nat, h: nat)
    requires a < 0x80000000 && b > 0 && Divided(a, b, q, r, i + 1, h)
    ensures var r' := 2 * r + S.Up(a, i) % 2;
      && r' < 0x80000000
      && (if r' >= b then q + S.Size(i) < 0x80000000 && Divided(a, b, q + S.Size(i), r' - b, i, 2 * h + 1)
        else Divided(a, b, q, r', i, 2 * h))
  {
    var r' := 2 * r + S.Up(a, i) % 2;
    UpSmall(a, i);
    TimesTwice(h, b);
    if r' >= b {
      S.StartAdds(i, 2 * h, 1);
      TimesIs(2 * h + 1, b);
      if 2 * h + 1 < S.Up(a, i) { S.StartGrows(i, 2 * h + 1, S.Up(a, i)); }
      S.UpStart(a, i, S.Up(a, i));
    }
  }

  /** The loop of `myDiv` and `myRem`; the types show that nothing overflows. */
  method DivideLoop(a: int32, b: int32) returns (shang: int32, yu: int32)
    requires a >= 0 && b > 0
    ensures shang as int == a as nat / b as nat && yu as int == a as nat % b as nat
  {
    shang, yu := 0, 0;
    var i := 32;
    ghost var h: nat := 0;
    NoBitsAbove(a as nat);
    while i > 0
      invariant 0 <= i <= 32 && 0 <= yu && 0 <= shang && Divided(a as nat, b as nat, shang as nat, yu as nat, i, h)
    {
      i := i - 1;
      NextBit(a as nat, b as nat, shang as nat, yu as nat, i, h);
      yu := yu * 2 + (S.Up(a as nat, i) % 2) as int32;
      h := 2 * h;
      if yu >= b {
        yu := yu - b;
        shang := shang + S.Size(i) as int32;
        h := h + 1;
      }
    }
    TimesIs(h, b as nat);
    Unique(a as nat, b as nat, shang as nat, yu as nat);
  }

  /** `myDiv`. */
  method MyDiv(x: int32, y: int32) returns (r: int32)
    requires x > -0x80000000 && y > -0x80000000 && y != 0
    ensures r as int == Quotient(x as int, y as int)
  {
    var a := if x > 0 then x else -x;
    var b := if y > 0 then y else -y;
    var shang, yu := DivideLoop(a, b);
    r := if (x > 0 && y > 0) || (x < 0 && y < 0) then shang else -shang;
  }

  lemma SignedRest(x: int, y: int, r: int)
    requires y != 0 && r == Abs(x) % Abs(y)
    ensures Remainder(x, y) == if x > 0 then r else -r
  {
    if x == 0 { Unique(0, Abs(y), 0, 0); }
  }

  /** `myRem`. */
  method MyRem(x: int32, y: int32) returns (r: int32)
    requires x > -0x80000000 && y > -0x80000000 && y != 0
    ensures r as int == Remainder(x as int, y as int)
  {
    var a := if x > 0 then x else -x;
    var b := if y > 0 then y else -y;
    var shang, yu := DivideLoop(a, b);
    SignedRest(x as int, y as int, yu as int);
    r := if x > 0 then yu else -yu;
  }

  /** `__mulu10`. */
  function MulU10(n: uint32): uint32
    requires n as int * 10 < 0x100000000
  {
    n * 8 + n * 2
  }

  /** The sums of `__divu10` come near to eight tenths, from below. */
  method EightTenths(n: uint32) returns (q: uint32)
    ensures 4 * n as int - 25 <= 5 * q as int <= 4 * n as int
  {
    q := n / 2 + n / 4;
    q := q + q / 16;
    q := q + q / 256;
    q := q + q / 65536;
  }

  /** `__divu10`: the remainder corrects what is missing. */
  method DivU10(n: uint32) returns (r: uint32)
    ensures r as int == n as int / 10
  {
    var q := EightTenths(n);
    q := q / 8;
    var rest := n - MulU10(q);
    assert rest <= 15;
    r := q + (rest + 6) / 16;
  }

  /** `__divu5`. */
  method DivU5(n: uint32) returns (r: uint32)
    ensures r as int == n as int / 5
  {
    var q := n / 8 + n / 16;
    q := q + q / 16;
    q := q + q / 256;
    q := q + q / 65536;
    var rest := n - q * 5;
    assert rest <= 25;
    r := q + 13 * rest / 64;
  }

  // ---- numbers as text -----------------------------------------------------------------

  function Digit(d: nat): char
    requires d < 16
  {
    "0123456789abcdef"[d]
  }

  /** The digits of `n`, the most significant first. */
  function Digits(n: nat, base: nat): (s: string)
    requires 2 <= base <= 16
    ensures |s| > 0
  {
    if n < base then [Digit(n)] else Digits(n / base, base) + [Digit(n % base)]
  }

  /** What a digit stands for; -1 for any other character. */
  function Worth(c: char): int
  {
    if '0' <= c <= '9' then c as int - '0' as int
    else if 'a' <= c <= 'f' then c as int - 'a' as int + 10
    else -1
  }

  /** The number that digits in the base stand for. */
  function Number(s: string, base: nat): int
  {
    if s == "" then 0 else Number(s[..|s| - 1], base) * base + Worth(s[|s| - 1])
  }

  lemma DigitWorth(d: nat)
    requires d < 16
    ensures Worth(Digit(d)) == d
  {
    assert d == 0 || d == 1 || d == 2 || d == 3 || d == 4 || d == 5 || d == 6 || d == 7 || d == 8 || d == 9 || d == 10
      || d == 11 || d == 12 || d == 13 || d == 14 || d == 15;
  }

  lemma NumberMore(t: string, r: nat, base: nat)
    requires r < base <= 16
    ensures Number(t + [Digit(r)], base) == Number(t, base) * base + r
  {
    DigitWorth(r);
    var s := t + [Digit(r)];
    assert s[..|s| - 1] == t;
  }

  /** The digits are digits of the base, they stand for the number, and none leads in vain. */
  lemma {:induction false} DigitsStand(n: nat, base: nat)
    requires base == 8 || base == 10 || base == 16
    ensures Number(Digits(n, base), base) == n
    ensures forall i :: 0 <= i < |Digits(n, base)| ==> 0 <= Worth(Digits(n, base)[i]) < base
    ensures n > 0 ==> Digits(n, base)[0] != '0'
  {
    if n < base {
      DigitWorth(n);
      NumberMore("", n, base);
      assert "" + [Digit(n)] == [Digit(n)];
    } else {
      var q, r := n / base, n % base;
      assert n == q * base + r && 1 <= q < n by { Parts(n, base); }
      DigitsStand(q, base);
      DigitWorth(r);
      NumberMore(Digits(q, base), r, base);
    }
  }

  lemma Parts(n: nat, base: nat)
    requires (base == 8 || base == 10 || base == 16) && n >= base
    ensures n == n / base * base + n % base && 1 <= n / base < n
  {
    if base == 8 {
      assert 1 <= n / 8 < n;
    } else if base == 10 {
      assert 1 <= n / 10 < n;
    } else {
      assert 1 <= n / 16 < n;
    }
  }

  function Pads(n: int, c: char): string
    decreases if n > 0 then n else 0
  {
    if n <= 0 then "" else Pads(n - 1, c) + [c]
  }

  lemma PrintedMore(n: nat, base: nat, q: nat, r: nat, width: int, c: char)
    requires 2 <= base <= 16 && base <= n && q == n / base && r == n % base
    ensures (Pads(width - 1 - |Digits(q, base)|, c) + Digits(q, base)) + [Digit(r)] ==
      Pads(width - |Digits(n, base)|, c) + Digits(n, base)
  {
    assert Digits(n, base) == Digits(q, base) + [Digit(r)];
  }

  /** The last digit and the rest, as `printnum` takes them apart. */
  method SplitDigit(num: uint32, base: uint32) returns (result: uint32, mod: uint32)
    requires base == 8 || base == 10 || base == 16
    ensures result as nat == num as nat / base as nat && mod as nat == num as nat % base as nat
    ensures mod < base && (num >= base ==> result < num) && (num < base ==> mod == num)
  {
    if base == 10 {
      result := DivU10(num);
      mod := num - MulU10(result);
    } else if base == 8 {
      mod, result := num % 8, num / 8;
    } else {
      mod, result := num % 16, num / 16;
    }
  }

  /** `printnum`; what it passes to `putch` is `out`. */
  method PrintNum(num: uint32, base: uint32, width: int, padc: char) returns (out: string)
    requires base == 8 || base == 10 || base == 16
    ensures out == Pads(width - |Digits(num as nat, base as nat)|, padc) + Digits(num as nat, base as nat)
    decreases num
  {
    var result, mod := SplitDigit(num, base);
    if num >= base {
      out := PrintNum(result, base, width - 1, padc);
      PrintedMore(num as nat, base as nat, result as nat, mod as nat, width, padc);
    } else {
      out := Padding(width, padc);
      assert Digits(num as nat, base as nat) == [Digit(num as nat)];
    }
    out := out + [Digit(mod as nat)];
  }

  /** The padding before the first digit. */
  method Padding(width: int, padc: char) returns (out: string)
    ensures out == Pads(width - 1, padc)
  {
    out := "";
    var w := width - 1;
    while w > 0
      invariant out == Pads(width - 1 - (if w > 0 then w else 0), padc) && (width <= 1 || w >= 0)
    {
      out := out + [padc];
      w := w - 1;
    }
  }

  /** The number a string of decimal digits stands for. */
  function Value(s: string): int
  {
    if s == "" then 0 else Value(s[..|s| - 1]) * 10 + (s[|s| - 1] as int - '0' as int)
  }

  const WORD := 0x100000000

  /** A signed 32-bit result. */
  function Wrap(x: int): int { (x + 0x80000000) % WORD - 0x80000000 }

  lemma WrapShift(x: int, k: int)
    ensures Wrap(x + k * WORD) == Wrap(x)
  {
  }

  lemma WrapStep(v: int, d: int)
    ensures Wrap(Wrap(v) * 8 + Wrap(v) * 2 + d) == Wrap(v * 10 + d)
  {
    var k := (v + 0x80000000) / WORD;
    assert Wrap(v) == v - k * WORD;
    WrapShift(v * 10 + d, -10 * k);
  }

  /** The loop of `myReadInteger`. */
  method ReadInteger(s: string) returns (ret: int)
    ensures ret == Wrap(Value(s))
  {
    ret := 0;
    for i := 0 to |s|
      invariant ret == Wrap(Value(s[..i]))
    {
      WrapStep(Value(s[..i]), s[i] as int - '0' as int);
      assert s[..i + 1][..i] == s[..i];
      ret := Wrap(ret * 8 + ret * 2 + (s[i] as int - '0' as int));
    }
    assert s[..|s|] == s;
  }

  lemma {:induction false} ValueOfDigits(n: nat)
    ensures Value(Digits(n, 10)) == n
  {
    if n >= 10 {
      ValueOfDigits(n / 10);
      var s := Digits(n, 10);
      assert s[..|s| - 1] == Digits(n / 10, 10);
    } else {
      assert Digits(n, 10)[..0] == "";
    }
  }

  /** Reading inverts printing, on every number that fits. */
  lemma PrintThenRead(n: nat)
    requires n < 0x80000000
    ensures Wrap(Value(Digits(n, 10))) == n
  {
    ValueOfDigits(n);
  }

  /** Printing a number and reading it back. */
  method PrintAndRead(n: uint32, width: int) returns (x: int)
    requires n < 0x80000000 && width <= 1
    ensures x == n as int
  {
    var s := PrintNum(n, 10, width, ' ');
    x := ReadInteger(s);
    PrintThenRead(n as nat);
    assert Pads(width - |Digits(n as nat, 10)|, ' ') + Digits(n as nat, 10) == Digits(n as nat, 10);
  }
}
