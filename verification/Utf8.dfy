/** JavaScript strings as UTF-16 code units, their UTF-8 encoding and their sort order. */
module Utf8 {
  type Byte = b: int | 0 <= b < 256
  type CodeUnit = u: int | 0 <= u < 0x1_0000
  type JsString = seq<CodeUnit>

  predicate IsHigh(u: CodeUnit) { 0xD800 <= u < 0xDC00 }

  predicate IsLow(u: CodeUnit) { 0xDC00 <= u < 0xE000 }

  predicate IsAscii(s: JsString) {
    forall i | 0 <= i < |s| :: s[i] < 0x80
  }

  /** `Buffer.from(s)`: surrogate pairs take four bytes, a lone surrogate becomes U+FFFD. */
  function Encode(s: JsString): seq<Byte> {
    if s == [] then []
    else if IsHigh(s[0]) && |s| > 1 && IsLow(s[1]) then
      EncodePair(s[0], s[1]) + Encode(s[2..])
    else
      EncodeUnit(s[0]) + Encode(s[1..])
  }

  function CodePoint(high: CodeUnit, low: CodeUnit): (c: nat)
    requires IsHigh(high) && IsLow(low)
    ensures 0x1_0000 <= c < 0x11_0000
  {
    0x1_0000 + (high as int - 0xD800) * 0x400 + (low as int - 0xDC00)
  }

  function EncodePair(high: CodeUnit, low: CodeUnit): seq<Byte>
    requires IsHigh(high) && IsLow(low)
  {
    EncodeFour(CodePoint(high, low))
  }

  function EncodeFour(c: nat): (b: seq<Byte>)
    requires 0x1_0000 <= c < 0x11_0000
    ensures |b| == 4 && 0 !in b && b[0] >= 0xF0
  {
    [0xF0 + c / 0x4_0000, 0x80 + c / 0x1000 % 64, 0x80 + c / 64 % 64, 0x80 + c % 64]
  }

  function EncodeUnit(u: CodeUnit): seq<Byte> {
    if u < 0x80 then [u]
    else if u < 0x800 then [0xC0 + u / 64, 0x80 + u % 64]
    else if IsHigh(u) || IsLow(u) then [0xEF, 0xBF, 0xBD]
    else [0xE0 + u / 0x1000, 0x80 + u / 64 % 64, 0x80 + u % 64]
  }

  lemma {:induction false} EncodeAsciiPrefix(a: JsString, s: JsString)
    requires IsAscii(a)
    ensures Encode(a + s) == a + Encode(s)
  {
    if a == [] {
      assert a + s == s;
    } else {
      assert (a + s)[1..] == a[1..] + s;
      EncodeAsciiPrefix(a[1..], s);
    }
  }

  lemma {:induction false} EncodeAsciiEnd(s: JsString, u: CodeUnit)
    requires u < 0x80
    ensures Encode(s + [u]) == Encode(s) + [u]
    decreases |s|
  {
    assert EncodeUnit(u) == [u];
    hide EncodeUnit, EncodePair;
    if s == [] {
      assert s + [u] == [u] && [u][1..] == [];
    } else if IsHigh(s[0]) && |s| > 1 && IsLow(s[1]) {
      assert (s + [u])[2..] == s[2..] + [u];
      EncodeAsciiEnd(s[2..], u);
    } else {
      assert (s + [u])[1..] == s[1..] + [u];
      EncodeAsciiEnd(s[1..], u);
    }
  }

  /** A string without NUL has no zero byte in its encoding. */
  lemma {:induction false} EncodeNulFree(s: JsString)
    requires 0 !in s
    ensures 0 !in Encode(s)
    decreases |s|
  {
    if s != [] {
      if IsHigh(s[0]) && |s| > 1 && IsLow(s[1]) {
        EncodeNulFree(s[2..]);
      } else {
        assert s[0] in s;
        EncodeNulFree(s[1..]);
      }
    }
  }

  // ---- Decoding ----

  /** No surrogate stands alone. */
  predicate WellFormed(s: JsString) {
    if s == [] then true
    else if IsHigh(s[0]) then |s| > 1 && IsLow(s[1]) && WellFormed(s[2..])
    else !IsLow(s[0]) && WellFormed(s[1..])
  }

  function Unit(n: int): CodeUnit {
    if 0 <= n < 0x1_0000 then n else 0xFFFD
  }

  function DecodeTwo(b0: Byte, b1: Byte): CodeUnit {
    Unit((b0 as int - 0xC0) * 64 + b1 as int - 0x80)
  }

  function DecodeThree(b0: Byte, b1: Byte, b2: Byte): CodeUnit {
    Unit((b0 as int - 0xE0) * 0x1000 + (b1 as int - 0x80) * 64 + b2 as int - 0x80)
  }

  function Surrogates(c: int): JsString {
    [Unit(0xD800 + (c - 0x1_0000) / 0x400), Unit(0xDC00 + (c - 0x1_0000) % 0x400)]
  }

  function DecodeFour(b0: Byte, b1: Byte, b2: Byte, b3: Byte): int {
    (b0 as int - 0xF0) * 0x4_0000 + (b1 as int - 0x80) * 0x1000 + (b2 as int - 0x80) * 64 + b3 as int - 0x80
  }

  function Decode(b: seq<Byte>): JsString {
    if b == [] then []
    else if b[0] >= 0xF0 && |b| >= 4 then Surrogates(DecodeFour(b[0], b[1], b[2], b[3])) + Decode(b[4..])
    else if b[0] >= 0xE0 && |b| >= 3 then [DecodeThree(b[0], b[1], b[2])] + Decode(b[3..])
    else if b[0] >= 0xC0 && |b| >= 2 then [DecodeTwo(b[0], b[1])] + Decode(b[2..])
    else [b[0]] + Decode(b[1..])
  }

  lemma SixBitGroups(c: nat)
    ensures c / 0x4_0000 * 0x4_0000 + c / 0x1000 % 64 * 0x1000 + c / 64 % 64 * 64 + c % 64 == c
  {
    var a, b, d := c / 64, c / 0x1000, c / 0x4_0000;
    assert b == a / 64 && d == b / 64;
    assert c == 64 * a + c % 64 && a == 64 * b + a % 64 && b == 64 * d + b % 64;
  }

  lemma FourArithmetic(c: nat)
    requires 0x1_0000 <= c < 0x11_0000
    ensures var b := EncodeFour(c); DecodeFour(b[0], b[1], b[2], b[3]) == c
  {
    SixBitGroups(c);
  }

  lemma SurrogateArithmetic(high: CodeUnit, low: CodeUnit)
    requires IsHigh(high) && IsLow(low)
    ensures Surrogates(CodePoint(high, low)) == [high, low]
  {
  }

  lemma DecodePair(high: CodeUnit, low: CodeUnit, rest: seq<Byte>)
    requires IsHigh(high) && IsLow(low)
    ensures Decode(EncodePair(high, low) + rest) == [high, low] + Decode(rest)
  {
    FourArithmetic(CodePoint(high, low));
    SurrogateArithmetic(high, low);
    hide EncodeFour, DecodeFour, Surrogates, CodePoint;
    var b := EncodePair(high, low);
    assert (b + rest)[4..] == rest && (b + rest)[..4] == b;
  }

  lemma TwoArithmetic(u: CodeUnit)
    requires 0x80 <= u < 0x800
    ensures var b := EncodeUnit(u); |b| == 2 && 0xC0 <= b[0] < 0xE0 && DecodeTwo(b[0], b[1]) == u
  {
  }

  lemma ThreeArithmetic(u: CodeUnit)
    requires 0x800 <= u && !IsHigh(u) && !IsLow(u)
    ensures var b := EncodeUnit(u); |b| == 3 && 0xE0 <= b[0] < 0xF0 && DecodeThree(b[0], b[1], b[2]) == u
  {
    SixBitGroups(u);
  }

  lemma DecodeUnit(u: CodeUnit, rest: seq<Byte>)
    requires !IsHigh(u) && !IsLow(u)
    ensures Decode(EncodeUnit(u) + rest) == [u] + Decode(rest)
  {
    if u < 0x80 {
      assert EncodeUnit(u) == [u];
    } else if u < 0x800 {
      TwoArithmetic(u);
    } else {
      ThreeArithmetic(u);
    }
    hide EncodeUnit, DecodeTwo, DecodeThree;
    var b := EncodeUnit(u);
    assert (b + rest)[|b|..] == rest && (b + rest)[..|b|] == b;
  }

  /** Well-formed strings survive their encoding. */
  lemma {:induction false} DecodeEncoded(s: JsString)
    requires WellFormed(s)
    ensures Decode(Encode(s)) == s
    decreases |s|
  {
    if s != [] {
      if IsHigh(s[0]) {
        DecodePair(s[0], s[1], Encode(s[2..]));
        DecodeEncoded(s[2..]);
        assert s == [s[0], s[1]] + s[2..];
      } else {
        DecodeUnit(s[0], Encode(s[1..]));
        DecodeEncoded(s[1..]);
        assert s == [s[0]] + s[1..];
      }
    }
  }

  // ---- Sorting ----

  /** The default order of `Array.prototype.sort` on strings. */
  predicate LessEq(a: JsString, b: JsString) {
    if a == [] then true
    else if b == [] then false
    else a[0] < b[0] || (a[0] == b[0] && LessEq(a[1..], b[1..]))
  }

  /** The order is lexicographic in code units, shorter first. */
  lemma {:induction false} OrderIsLexicographic(a: JsString, b: JsString)
    ensures LessEq(a, b) <==> a <= b || exists k :: 0 <= k < |a| && k < |b| && a[..k] == b[..k] && a[k] < b[k]
  {
    if a != [] && b != [] && a[0] == b[0] {
      OrderIsLexicographic(a[1..], b[1..]);
      assert a == [a[0]] + a[1..] && b == [b[0]] + b[1..];
      if k :| 0 <= k < |a| - 1 && k < |b| - 1 && a[1..][..k] == b[1..][..k] && a[1..][k] < b[1..][k] {
        assert a[..k + 1] == [a[0]] + a[1..][..k] && b[..k + 1] == [b[0]] + b[1..][..k];
      }
      if k :| 0 <= k < |a| && k < |b| && a[..k] == b[..k] && a[k] < b[k] {
        assert a[1..][..k - 1] == a[..k][1..] && b[1..][..k - 1] == b[..k][1..];
      }
    } else if a != [] && b != [] {
      assert a[..0] == b[..0];
      if k :| 0 <= k < |a| && k < |b| && a[..k] == b[..k] && a[k] < b[k] {
        assert k > 0 ==> a[..k][0] == b[..k][0];
      }
    }
  }

  lemma {:induction false} LessEqTotal(a: JsString, b: JsString)
    ensures LessEq(a, b) || LessEq(b, a)
    ensures LessEq(a, b) && LessEq(b, a) ==> a == b
  {
    if a != [] && b != [] {
      LessEqTotal(a[1..], b[1..]);
      if a[0] == b[0] && a[1..] == b[1..] {
        assert a == [a[0]] + a[1..] && b == [b[0]] + b[1..];
      }
    }
  }

  lemma {:induction false} LessEqTransitive(a: JsString, b: JsString, c: JsString)
    requires LessEq(a, b) && LessEq(b, c)
    ensures LessEq(a, c)
  {
    if a != [] && a[0] == b[0] == c[0] {
      LessEqTransitive(a[1..], b[1..], c[1..]);
    }
  }

  ghost predicate IsSorted(s: seq<JsString>) {
    forall i, j | 0 <= i < j < |s| :: LessEq(s[i], s[j])
  }

  function Insert(x: JsString, s: seq<JsString>): seq<JsString> {
    if s == [] || LessEq(x, s[0]) then [x] + s else [s[0]] + Insert(x, s[1..])
  }

  function Sort(s: seq<JsString>): seq<JsString> {
    if s == [] then [] else Insert(s[0], Sort(s[1..]))
  }

  lemma {:induction false} InsertAdds(x: JsString, s: seq<JsString>)
    ensures multiset(Insert(x, s)) == multiset(s) + multiset{x}
  {
    if s != [] && !LessEq(x, s[0]) {
      InsertAdds(x, s[1..]);
      assert s == [s[0]] + s[1..];
    }
  }

  ghost predicate IsBelow(x: JsString, s: seq<JsString>) {
    forall i | 0 <= i < |s| :: LessEq(x, s[i])
  }

  lemma BelowByMultiset(x: JsString, s: seq<JsString>, t: seq<JsString>, y: JsString)
    requires IsBelow(x, s) && LessEq(x, y) && multiset(t) == multiset(s) + multiset{y}
    ensures IsBelow(x, t)
  {
    forall i | 0 <= i < |t|
      ensures LessEq(x, t[i])
    {
      assert t[i] in multiset(t);
      assert t[i] in multiset(s) || t[i] == y;
    }
  }

  lemma {:induction false} InsertKeepsSorted(x: JsString, s: seq<JsString>)
    requires IsSorted(s)
    ensures IsSorted(Insert(x, s))
  {
    if s == [] {
    } else if LessEq(x, s[0]) {
      forall j | 0 <= j < |s| ensures LessEq(x, s[j]) {
        if j > 0 { LessEqTransitive(x, s[0], s[j]); }
      }
    } else {
      InsertKeepsSorted(x, s[1..]);
      InsertAdds(x, s[1..]);
      LessEqTotal(x, s[0]);
      BelowByMultiset(s[0], s[1..], Insert(x, s[1..]), x);
    }
  }

  lemma {:induction false} SortSorts(s: seq<JsString>)
    ensures IsSorted(Sort(s)) && multiset(Sort(s)) == multiset(s)
  {
    if s != [] {
      SortSorts(s[1..]);
      InsertKeepsSorted(s[0], Sort(s[1..]));
      InsertAdds(s[0], Sort(s[1..]));
      assert s == [s[0]] + s[1..];
    }
  }

  lemma HeadIsLeast(a: seq<JsString>, x: JsString)
    requires IsSorted(a) && a != [] && x in multiset(a)
    ensures LessEq(a[0], x)
  {
    var j :| 0 <= j < |a| && a[j] == x;
    LessEqTotal(x, x);
  }

  lemma {:induction false} SortedIsUnique(a: seq<JsString>, b: seq<JsString>)
    requires IsSorted(a) && IsSorted(b) && multiset(a) == multiset(b)
    ensures a == b
  {
    assert |a| == |multiset(a)| == |multiset(b)| == |b|;
    if a != [] {
      assert a[0] in multiset(a) && b[0] in multiset(b);
      HeadIsLeast(a, b[0]);
      HeadIsLeast(b, a[0]);
      LessEqTotal(a[0], b[0]);
      DropHead(a);
      DropHead(b);
      SortedIsUnique(a[1..], b[1..]);
    }
  }

  lemma DropHead(a: seq<JsString>)
    requires a != []
    ensures a == [a[0]] + a[1..] && multiset(a[1..]) == multiset(a) - multiset{a[0]}
  {
    assert a == [a[0]] + a[1..];
  }

  /** The sorted order does not depend on the order in which the strings were listed. */
  lemma SortForgetsOrder(a: seq<JsString>, b: seq<JsString>)
    requires multiset(a) == multiset(b)
    ensures Sort(a) == Sort(b)
  {
    SortSorts(a);
    SortSorts(b);
    SortedIsUnique(Sort(a), Sort(b));
  }
}
