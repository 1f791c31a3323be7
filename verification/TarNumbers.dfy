/** Numbers as an archive writes them: zero-padded octal header fields, decimal record lengths, and
    the length of a pax record, which counts its own digits. */
module TarNumbers {
  import opened Wrappers
  import opened Utf8

  function Pow(base: nat, k: nat): (p: nat)
    ensures base > 0 ==> p > 0
  {
    if k == 0 then 1 else base * Pow(base, k - 1)
  }

  /** The two number systems of an archive: octal fields and decimal lengths. */
  predicate IsBase(base: nat) {
    base == 8 || base == 10
  }

  /** `v.toString(base)`. */
  function Digits(base: nat, v: nat): (d: seq<Byte>)
    requires IsBase(base)
    ensures |d| >= 1
    ensures forall i | 0 <= i < |d| :: 48 <= d[i] < 48 + base
  {
    if v < base then [48 + v] else Digits(base, v / base) + [48 + v % base]
  }

  predicate AreDigits(base: nat, d: seq<Byte>) {
    forall i | 0 <= i < |d| :: 48 <= d[i] < 48 + base
  }

  /** The number a digit string denotes. */
  function Value(base: nat, d: seq<Byte>): nat
    requires AreDigits(base, d)
  {
    if d == [] then 0 else base * Value(base, d[..|d| - 1]) + (d[|d| - 1] - 48)
  }

  lemma {:induction false} ValueOfDigits(base: nat, v: nat)
    requires IsBase(base)
    ensures Value(base, Digits(base, v)) == v
    decreases v
  {
    var d := Digits(base, v);
    if v >= base {
      ValueOfDigits(base, v / base);
      assert d[..|d| - 1] == Digits(base, v / base);
      assert v == base * (v / base) + v % base by {
        if base == 8 {} else {}
      }
    } else {
      assert d[..0] == [];
    }
  }

  function Zeros(n: nat): seq<Byte> {
    seq(n, i => 0)
  }

  /** `s.padStart(n, "0")`. */
  function PadStart(s: seq<Byte>, n: nat): seq<Byte> {
    if |s| >= n then s else seq(n - |s|, i => 48) + s
  }

  lemma {:induction false} ValuePadded(base: nat, k: nat, d: seq<Byte>)
    requires IsBase(base) && AreDigits(base, d)
    ensures Value(base, seq(k, i => 48) + d) == Value(base, d)
    decreases k + |d|
  {
    var zeros: seq<Byte> := seq(k, i => 48);
    if d != [] {
      assert (zeros + d)[..k + |d| - 1] == zeros + d[..|d| - 1];
      ValuePadded(base, k, d[..|d| - 1]);
    } else if k > 0 {
      var fewer: seq<Byte> := seq(k - 1, i => 48);
      assert (zeros + d)[..k - 1] == fewer + d;
      ValuePadded(base, k - 1, d);
    }
  }

  lemma {:induction false} DigitCount(base: nat, v: nat, k: nat)
    requires IsBase(base) && k >= 1
    ensures |Digits(base, v)| <= k <==> v < Pow(base, k)
    decreases k
  {
    if k == 1 {
      assert Pow(base, 1) == base * Pow(base, 0) == base;
    } else {
      var p := Pow(base, k - 1);
      assert Pow(base, k) == base * p;
      if v < base {
        Scaled(base, 0, v, p);
      } else {
        DigitCount(base, v / base, k - 1);
        Scaled(base, v / base, v % base, p);
      }
    }
  }

  lemma Scaled(base: nat, q: nat, r: nat, p: nat)
    requires IsBase(base) && r < base
    ensures q < p <==> base * q + r < base * p
  {
    if base == 8 {} else {}
  }

  // ---- Octal header fields ----

  /** The field `(v.toString(8).padStart(width - 1, "0") + "\0")`, cut at `width` bytes. */
  function OctalField(v: nat, width: nat): (field: seq<Byte>)
    requires width >= 1
    ensures |field| == width
  {
    (PadStart(Digits(8, v), width - 1) + [0])[..width]
  }

  /** The digits before the first NUL or space. */
  function Numeral(field: seq<Byte>): seq<Byte> {
    if field == [] || field[0] == 0 || field[0] == 32 then [] else [field[0]] + Numeral(field[1..])
  }

  /** A numeric field: octal digits and a terminator. */
  function ReadOctal(field: seq<Byte>): Option<nat> {
    var d := Numeral(field);
    if d != [] && |d| < |field| && AreDigits(8, d) then Some(Value(8, d)) else None
  }

  lemma {:induction false} NumeralStops(base: nat, d: seq<Byte>, tail: seq<Byte>)
    requires base <= 10 && AreDigits(base, d)
    requires tail != [] && (tail[0] == 0 || tail[0] == 32)
    ensures Numeral(d + tail) == d
  {
    if d == [] {
      assert d + tail == tail;
    } else {
      assert (d + tail)[1..] == d[1..] + tail;
      NumeralStops(base, d[1..], tail);
    }
  }

  /** Padded digits followed by a terminator read back as the number. */
  lemma ReadPadded(v: nat, width: nat, tail: seq<Byte>)
    requires width >= 1 && v < Pow(8, width)
    requires tail != [] && (tail[0] == 0 || tail[0] == 32)
    ensures |PadStart(Digits(8, v), width)| == width
    ensures ReadOctal(PadStart(Digits(8, v), width) + tail) == Some(v)
  {
    var d := Digits(8, v);
    DigitCount(8, v, width);
    var k := width - |d|;
    var padded: seq<Byte> := seq(k, i => 48) + d;
    assert PadStart(d, width) == padded;
    NumeralStops(8, padded, tail);
    ValuePadded(8, k, d);
    ValueOfDigits(8, v);
  }

  lemma {:induction false} NumeralWhole(d: seq<Byte>)
    requires AreDigits(8, d)
    ensures Numeral(d) == d
  {
    if d != [] {
      NumeralWhole(d[1..]);
    }
  }

  /** A value survives its field exactly when it leaves room for the terminator; otherwise the field
      is not a number at all. */
  lemma ReadOctalField(v: nat, width: nat)
    requires width >= 2
    ensures ReadOctal(OctalField(v, width)) == if v < Pow(8, width - 1) then Some(v) else None
  {
    var text := PadStart(Digits(8, v), width - 1) + [0];
    DigitCount(8, v, width - 1);
    if v < Pow(8, width - 1) {
      ReadPadded(v, width - 1, [0]);
      assert text[..width] == text;
    } else {
      assert OctalField(v, width) == Digits(8, v)[..width];
      NumeralWhole(OctalField(v, width));
    }
  }

  // ---- Pax record lengths ----

  function DecimalLength(n: nat): (d: nat)
    ensures d >= 1
  {
    |Digits(10, n)|
  }

  lemma {:induction false} TenPowersOutgrow(a: nat)
    requires a >= 1
    ensures 9 * Pow(10, a) >= a + 1
  {
    if a > 1 {
      TenPowersOutgrow(a - 1);
    }
  }

  /** Adding the digit count of n + 1 to n adds at most one digit. */
  lemma AtMostOneMoreDigit(n: nat)
    ensures var a := DecimalLength(n + 1);
            a <= DecimalLength(n + a) <= a + 1 && DecimalLength(n + a + 1) <= a + 1
  {
    hide Digits;
    var a := DecimalLength(n + 1);
    DigitCount(10, n + 1, a);
    TenPowersOutgrow(a);
    assert Pow(10, a + 1) == 10 * Pow(10, a);
    DigitCount(10, n + a, a + 1);
    DigitCount(10, n + a + 1, a + 1);
    if a > 1 {
      DigitCount(10, n + 1, a - 1);
      DigitCount(10, n + a, a - 1);
    }
  }

  /** The least length that counts a record of n bytes together with its own digits. */
  ghost predicate IsRecordLength(n: nat, length: nat) {
    && length == n + DecimalLength(length)
    && forall m: nat :: m == n + DecimalLength(m) ==> length <= m
  }

  function RecordLength(n: nat): nat {
    var once := n + DecimalLength(n + 1);
    if DecimalLength(once) == DecimalLength(n + 1) then once else once + 1
  }

  lemma DigitsMonotone(a: nat, b: nat)
    requires a <= b
    ensures DecimalLength(a) <= DecimalLength(b)
  {
    DigitCount(10, b, DecimalLength(b));
    DigitCount(10, a, DecimalLength(b));
  }

  /** The record length exists for every n, states its own size, and is the least that does. */
  lemma RecordLengthIsLeast(n: nat)
    ensures IsRecordLength(n, RecordLength(n))
    ensures n < RecordLength(n) <= n + DecimalLength(n + 1) + 1
  {
    var a := DecimalLength(n + 1);
    AtMostOneMoreDigit(n);
    if DecimalLength(n + a) != a {
      DigitsMonotone(n + a, n + a + 1);
    }
    forall m: nat | m == n + DecimalLength(m)
      ensures RecordLength(n) <= m
    {
      DigitsMonotone(n + 1, m);
      if DecimalLength(n + a) == a + 1 && m == n + a {
        assert false;
      }
    }
  }

  /** The source's loop: it settles on the least length after at most two corrections. */
  method SettleLength(n: nat) returns (length: nat, ghost rounds: nat)
    ensures length == RecordLength(n) && rounds <= 2
  {
    length := n + 1;
    rounds := 0;
    AtMostOneMoreDigit(n);
    ghost var a := DecimalLength(n + 1);
    DigitsMonotone(n + a, n + a + 1);
    while length != n + |Digits(10, length)|
      invariant || (length == n + 1 && rounds == 0)
                || (length == n + a && rounds <= 1)
                || (length == n + a + 1 && rounds <= 2 && DecimalLength(n + a) == a + 1)
      decreases n + a + 1 - length
    {
      length := n + |Digits(10, length)|;
      rounds := rounds + 1;
    }
  }
}
