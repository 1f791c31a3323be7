/** The 512-byte ustar header block (IEEE Std 1003.1-2017, pax, "ustar Interchange Format"): the
    writer of scripts/runtime/packs.ts and a reader by absolute offsets. */
module TarHeader {
  import opened Wrappers
  import opened Utf8
  import opened TarNumbers

  const BLOCK := 512

  /** 8^7 and 8^11: what seven and eleven octal digits cannot hold. */
  const MODE_LIMIT := 0x20_0000
  const SIZE_LIMIT := 0x2_0000_0000

  const USTAR: seq<Byte> := [0x75, 0x73, 0x74, 0x61, 0x72, 0]
  const VERSION: seq<Byte> := [48, 48]
  const SPACES: seq<Byte> := [32, 32, 32, 32, 32, 32, 32, 32]

  function Sum(s: seq<Byte>): nat {
    if s == [] then 0 else Sum(s[..|s| - 1]) + s[|s| - 1]
  }

  /** `s` cut at `width` bytes. */
  function Cut(s: seq<Byte>, width: nat): seq<Byte> {
    if |s| > width then s[..width] else s
  }

  /** Text cut to `width` bytes and filled up with NULs. */
  function TextField(s: seq<Byte>, width: nat): (field: seq<Byte>)
    ensures |field| == width
  {
    if |s| >= width then s[..width] else s + Zeros(width - |s|)
  }

  function ChecksumField(sum: nat): (field: seq<Byte>)
    ensures |field| == 8
  {
    (PadStart(Digits(8, sum), 6) + [0, 32])[..8]
  }

  /** Name, mode, owner, group, size and time: bytes 0 to 148. */
  function Head(name: seq<Byte>, size: nat, mode: nat): (h: seq<Byte>)
    ensures |h| == 148
  {
    TextField(name, 100) + (OctalField(mode, 8) + (OctalField(0, 8) + (OctalField(0, 8) + (OctalField(size, 12) + OctalField(0, 12)))))
  }

  /** Type, link, magic and version: bytes 156 to 512. */
  function Tail(kind: Byte, link: seq<Byte>): (t: seq<Byte>)
    ensures |t| == 356
  {
    [kind] + (TextField(link, 100) + (USTAR + (VERSION + Zeros(247))))
  }

  function Header(name: seq<Byte>, size: nat, mode: nat, kind: Byte, link: seq<Byte>): (h: seq<Byte>)
    ensures |h| == BLOCK
  {
    var head, tail := Head(name, size, mode), Tail(kind, link);
    head + (ChecksumField(Sum(head + (SPACES + tail))) + tail)
  }

  // ---- The reader ----

  datatype Fields = Fields(name: seq<Byte>, mode: nat, size: nat, kind: Byte, link: seq<Byte>)

  function UpToNul(s: seq<Byte>): seq<Byte> {
    if s == [] || s[0] == 0 then [] else [s[0]] + UpToNul(s[1..])
  }

  /** A header is valid when its magic is right and its checksum, taken with the checksum field read
      as spaces, is the recorded one. */
  function ReadHeader(block: seq<Byte>): Option<Fields>
    requires |block| == BLOCK
  {
    var sum := ReadOctal(block[148..156]);
    var mode, size := ReadOctal(block[100..108]), ReadOctal(block[124..136]);
    if block[257..263] == USTAR && sum == Some(Sum(block[..148] + (SPACES + block[156..]))) && mode.Some? && size.Some? then
      Some(Fields(UpToNul(block[..100]), mode.value, size.value, block[156], UpToNul(block[157..257])))
    else
      None
  }

  lemma {:induction false} SumBound(s: seq<Byte>)
    ensures Sum(s) <= 255 * |s|
  {
    if s != [] {
      SumBound(s[..|s| - 1]);
    }
  }

  lemma {:induction false} UpToNulOfText(s: seq<Byte>, n: nat)
    requires 0 !in s
    ensures UpToNul(s + Zeros(n)) == s
  {
    if s == [] {
      assert n > 0 ==> (s + Zeros(n))[0] == 0;
    } else {
      assert (s + Zeros(n))[1..] == s[1..] + Zeros(n);
      assert s == [s[0]] + s[1..];
      UpToNulOfText(s[1..], n);
    }
  }

  /** A text without NUL survives its field up to the width, even when it fills it. */
  lemma ReadTextField(s: seq<Byte>, width: nat)
    requires 0 !in s
    ensures UpToNul(TextField(s, width)) == Cut(s, width)
  {
    var cut := Cut(s, width);
    UpToNulOfText(cut, width - |cut|);
    assert cut + Zeros(width - |cut|) == TextField(s, width);
  }

  lemma Drop(a: seq<Byte>, b: seq<Byte>)
    ensures (a + b)[|a|..] == b && (a + b)[..|a|] == a
  {
  }

  lemma DropTwice(s: seq<Byte>, i: nat, n: nat)
    requires i + n <= |s|
    ensures s[i..][n..] == s[i + n..] && s[i..][..n] == s[i..i + n]
  {
  }

  lemma HeadFields(name: seq<Byte>, size: nat, mode: nat)
    ensures var h := Head(name, size, mode);
            && h[..100] == TextField(name, 100) && h[100..108] == OctalField(mode, 8) && h[124..136] == OctalField(size, 12)
            && h[108..116] == OctalField(0, 8) && h[116..124] == OctalField(0, 8) && h[136..148] == OctalField(0, 12)
  {
    var r5 := OctalField(size, 12) + OctalField(0, 12);
    var r4 := OctalField(0, 8) + r5;
    var r3 := OctalField(0, 8) + r4;
    var r2 := OctalField(mode, 8) + r3;
    var h := TextField(name, 100) + r2;
    assert h == Head(name, size, mode);
    Drop(TextField(name, 100), r2);
    Drop(OctalField(mode, 8), r3);
    Drop(OctalField(0, 8), r4);
    Drop(OctalField(0, 8), r5);
    Drop(OctalField(size, 12), OctalField(0, 12));
    DropTwice(h, 100, 8);
    DropTwice(h, 108, 8);
    DropTwice(h, 116, 8);
    DropTwice(h, 124, 12);
    DropTwice(h, 136, 12);
  }

  lemma TailFields(kind: Byte, link: seq<Byte>)
    ensures var t := Tail(kind, link);
            && t[0] == kind && t[1..101] == TextField(link, 100) && t[101..107] == USTAR
            && t[107..109] == VERSION && t[109..356] == Zeros(247)
  {
    var r3 := VERSION + Zeros(247);
    var r2 := USTAR + r3;
    var r1 := TextField(link, 100) + r2;
    var t := [kind] + r1;
    assert t == Tail(kind, link);
    Drop([kind], r1);
    Drop(TextField(link, 100), r2);
    Drop(USTAR, r3);
    DropTwice(t, 1, 100);
    DropTwice(t, 101, 6);
    Drop(VERSION, Zeros(247));
    DropTwice(t, 107, 2);
    DropTwice(t, 109, 247);
  }

  lemma BlockParts(head: seq<Byte>, sum: seq<Byte>, tail: seq<Byte>)
    requires |head| == 148 && |sum| == 8 && |tail| == 356
    ensures var block := head + (sum + tail);
            && block[..148] == head && block[148..156] == sum && block[156..] == tail
            && (forall i, j | 0 <= i <= j <= 148 :: block[i..j] == head[i..j])
            && (forall i, j | 0 <= i <= j <= 356 :: block[156 + i..156 + j] == tail[i..j])
  {
  }

  /** Reading back a written header: every field survives, texts up to 100 bytes, and the checksum
      agrees with itself; a size that needs more than eleven octal digits makes it unreadable. */
  lemma ReadWrittenHeader(name: seq<Byte>, size: nat, mode: nat, kind: Byte, link: seq<Byte>)
    requires 0 !in name && 0 !in link
    requires mode < MODE_LIMIT
    ensures ReadHeader(Header(name, size, mode, kind, link))
         == if size < SIZE_LIMIT then Some(Fields(Cut(name, 100), mode, size, kind, Cut(link, 100))) else None
  {
    hide Head, Tail, OctalField, ChecksumField, TextField, ReadOctal, UpToNul, Sum, Pow;
    var head, tail := Head(name, size, mode), Tail(kind, link);
    var sum := Sum(head + (SPACES + tail));
    var block := Header(name, size, mode, kind, link);
    BlockParts(head, ChecksumField(sum), tail);
    HeadFields(name, size, mode);
    TailFields(kind, link);
    EightPowers();
    assert block[..100] == head[..100];
    assert block[157..257] == tail[1..101] && block[257..263] == tail[101..107] && block[156] == tail[0];
    ReadTextField(name, 100);
    ReadTextField(link, 100);
    ReadOctalField(mode, 8);
    ReadOctalField(size, 12);
    ReadChecksum(head + (SPACES + tail));
  }

  /** Archives are reproducible: owner, group and time read as zero, the version is "00", and what the
      format reserves is left empty. */
  lemma HeaderIsStable(name: seq<Byte>, size: nat, mode: nat, kind: Byte, link: seq<Byte>)
    ensures var block := Header(name, size, mode, kind, link);
            && ReadOctal(block[108..116]) == Some(0) && ReadOctal(block[116..124]) == Some(0) && ReadOctal(block[136..148]) == Some(0)
            && block[263..265] == [48, 48] && block[265..512] == Zeros(247)
  {
    hide Head, Tail, OctalField, ChecksumField, TextField, ReadOctal, Sum, Pow;
    var head, tail := Head(name, size, mode), Tail(kind, link);
    var block := Header(name, size, mode, kind, link);
    BlockParts(head, ChecksumField(Sum(head + (SPACES + tail))), tail);
    HeadFields(name, size, mode);
    TailFields(kind, link);
    EightPowers();
    assert block[263..265] == tail[107..109] && block[265..512] == tail[109..356];
    ReadOctalField(0, 8);
    ReadOctalField(0, 12);
  }

  lemma ReadChecksum(s: seq<Byte>)
    requires |s| == BLOCK
    ensures ReadOctal(ChecksumField(Sum(s))) == Some(Sum(s))
  {
    SumBound(s);
    EightPowers();
    ReadPadded(Sum(s), 6, [0, 32]);
    var text := PadStart(Digits(8, Sum(s)), 6) + [0, 32];
    assert text[..8] == text;
  }

  lemma EightPowers()
    ensures Pow(8, 6) == 0x4_0000 && Pow(8, 7) == MODE_LIMIT && Pow(8, 11) == SIZE_LIMIT
  {
    assert Pow(8, 3) == 512 by { assert Pow(8, 1) == 8; assert Pow(8, 2) == 64; }
    assert Pow(8, 6) == 0x4_0000 by { assert Pow(8, 4) == 4096; assert Pow(8, 5) == 32768; }
    assert Pow(8, 9) == 0x800_0000 by { assert Pow(8, 7) == 0x20_0000; assert Pow(8, 8) == 0x100_0000; }
    assert Pow(8, 10) == 0x4000_0000;
  }

  /** A header is never mistaken for the end of the archive. */
  lemma HeaderIsNotZero(name: seq<Byte>, size: nat, mode: nat, kind: Byte, link: seq<Byte>)
    ensures Header(name, size, mode, kind, link) != Zeros(BLOCK)
  {
    var head, tail := Head(name, size, mode), Tail(kind, link);
    BlockParts(head, ChecksumField(Sum(head + (SPACES + tail))), tail);
    TailFields(kind, link);
    var block := Header(name, size, mode, kind, link);
    assert block[257..263] == tail[101..107];
    assert block[257] == block[257..263][0] == 0x75;
    assert Zeros(BLOCK)[257] == 0;
  }

  // ---- Writing into the buffer ----

  /** `bytes` written over `s` from `offset` on. */
  function Splice(s: seq<Byte>, offset: nat, bytes: seq<Byte>): seq<Byte>
    requires offset + |bytes| <= |s|
  {
    s[..offset] + bytes + s[offset + |bytes|..]
  }

  method WriteAt(buffer: array<Byte>, offset: nat, bytes: seq<Byte>)
    requires offset + |bytes| <= buffer.Length
    modifies buffer
    ensures buffer[..] == Splice(old(buffer[..]), offset, bytes)
  {
    for i := 0 to |bytes|
      invariant forall k | 0 <= k < buffer.Length ::
                  buffer[k] == if offset <= k < offset + i then bytes[k - offset] else old(buffer[k])
    {
      buffer[offset + i] := bytes[i];
    }
  }

  /** Writing in order into a zeroed buffer appends. */
  lemma SpliceAppends(done: seq<Byte>, bytes: seq<Byte>, left: nat, width: nat)
    requires |bytes| <= width <= left
    ensures Splice(done + Zeros(left), |done|, bytes) == (done + TextField(bytes, width)) + Zeros(left - width)
  {
  }

  lemma SpliceFull(done: seq<Byte>, bytes: seq<Byte>, left: nat)
    requires |bytes| <= left
    ensures Splice(done + Zeros(left), |done|, bytes) == (done + bytes) + Zeros(left - |bytes|)
  {
  }

  lemma Nested(a: seq<Byte>, b: seq<Byte>, c: seq<Byte>, d: seq<Byte>, e: seq<Byte>, f: seq<Byte>, g: seq<Byte>)
    ensures (((((a + b) + c) + d) + e) + f) + g == a + (b + (c + (d + (e + (f + g)))))
  {
    assert (e + f) + g == e + (f + g);
    assert (((((a + b) + c) + d) + e) + f) + g == ((((a + b) + c) + d) + e) + (f + g);
    assert ((((a + b) + c) + d) + e) + (f + g) == (((a + b) + c) + d) + (e + (f + g));
    assert (((a + b) + c) + d) + (e + (f + g)) == ((a + b) + c) + (d + (e + (f + g)));
    assert ((a + b) + c) + (d + (e + (f + g))) == (a + b) + (c + (d + (e + (f + g))));
  }

  method SumOf(buffer: array<Byte>) returns (sum: nat)
    ensures sum == Sum(buffer[..])
  {
    sum := 0;
    for i := 0 to buffer.Length
      invariant sum == Sum(buffer[..i])
    {
      assert buffer[..i + 1][..i] == buffer[..i];
      sum := sum + buffer[i];
    }
    assert buffer[..buffer.Length] == buffer[..];
  }

  /** `tarHeader`: fields are written at fixed offsets, then summed, then the sum is written. */
  method WriteHeader(name: seq<Byte>, size: nat, mode: nat, kind: Byte, link: seq<Byte>) returns (header: array<Byte>)
    ensures fresh(header) && header[..] == Header(name, size, mode, kind, link)
  {
    hide Head, Tail, ChecksumField;
    header := new Byte[BLOCK](i => 0);
    assert header[..] == Zeros(512);
    FillHead(header, name, size, mode);
    ghost var head, tail := Head(name, size, mode), Tail(kind, link);
    FillTail(header, head, kind, link);
    var sum := SumOf(header);
    BlockParts(head, SPACES, tail);
    WriteAt(header, 148, ChecksumField(sum));
  }

  /** Name, mode, owner, group, size and time. */
  method FillHead(header: array<Byte>, name: seq<Byte>, size: nat, mode: nat)
    requires header[..] == Zeros(512)
    modifies header
    ensures header[..] == Head(name, size, mode) + Zeros(364)
  {
    hide OctalField;
    ghost var field := TextField(Cut(name, 100), 100);
    var octalMode, zero, octalSize, time := OctalField(mode, 8), OctalField(0, 8), OctalField(size, 12), OctalField(0, 12);
    assert [] + Zeros(512) == Zeros(512);
    WriteAt(header, 0, Cut(name, 100));
    SpliceAppends([], Cut(name, 100), 512, 100);
    assert [] + field == field;
    WriteAt(header, 100, octalMode);
    SpliceFull(field, octalMode, 412);
    WriteAt(header, 108, zero);
    SpliceFull(field + octalMode, zero, 404);
    WriteAt(header, 116, zero);
    SpliceFull((field + octalMode) + zero, zero, 396);
    WriteAt(header, 124, octalSize);
    SpliceFull(((field + octalMode) + zero) + zero, octalSize, 388);
    WriteAt(header, 136, time);
    SpliceFull((((field + octalMode) + zero) + zero) + octalSize, time, 376);
    Nested(field, octalMode, zero, zero, octalSize, time, []);
    assert ((((field + octalMode) + zero) + zero) + octalSize) + time + [] == ((((field + octalMode) + zero) + zero) + octalSize) + time;
    assert time + [] == time && field == TextField(name, 100);
  }

  /** The fields of `tarHeader` from the spaces of the checksum field on. */
  method FillTail(header: array<Byte>, ghost head: seq<Byte>, kind: Byte, link: seq<Byte>)
    requires |head| == 148 && header[..] == head + Zeros(364)
    modifies header
    ensures header[..] == head + (SPACES + Tail(kind, link))
  {
    ghost var field := TextField(Cut(link, 100), 100);
    WriteAt(header, 148, SPACES);
    SpliceFull(head, SPACES, 364);
    WriteAt(header, 156, [kind]);
    SpliceFull(head + SPACES, [kind], 356);
    ghost var d := (head + SPACES) + [kind];
    WriteAt(header, 157, Cut(link, 100));
    SpliceAppends(d, Cut(link, 100), 355, 100);
    WriteAt(header, 257, USTAR);
    SpliceFull(d + field, USTAR, 255);
    WriteAt(header, 263, VERSION);
    SpliceFull((d + field) + USTAR, VERSION, 249);
    Nested(head, SPACES, [kind], field, USTAR, VERSION, Zeros(247));
    assert field == TextField(link, 100);
  }
}
