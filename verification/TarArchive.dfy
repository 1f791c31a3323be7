/** `archiveTree` of scripts/runtime/packs.ts: pax extended headers (IEEE Std 1003.1-2017, pax,
    "pax Interchange Format"), sorted recursive traversal, 512-byte padding, and a specification
    reader that undoes the archive. */
module TarArchive {
  import opened Wrappers
  import opened Utf8
  import opened TarNumbers
  import opened TarHeader

  // ---- Entries ----

  const FILE: Byte := 48
  const SYMLINK: Byte := 50
  const DIRECTORY: Byte := 53
  const PAX: Byte := 120

  const MODE_755 := 493
  const MODE_644 := 420

  /** What the traversal knows of an entry before writing it. `data` is what the stream delivers,
      `size` what the file system reports. */
  datatype Entry = Entry(name: JsString, kind: Byte, mode: nat, link: JsString, size: nat, data: seq<Byte>)

  /** What a reader recovers. */
  datatype Recovered = Recovered(name: seq<Byte>, kind: Byte, mode: nat, link: seq<Byte>, data: seq<Byte>)

  function Visible(e: Entry): Recovered {
    Recovered(Encode(e.name), e.kind, e.mode, Encode(e.link), e.data)
  }

  // ---- Pax records ----

  const PATH: seq<Byte> := [112, 97, 116, 104]
  const LINKPATH: seq<Byte> := [108, 105, 110, 107, 112, 97, 116, 104]
  const NEWLINE: Byte := 10
  const EQUALS: Byte := 61
  const SPACE: Byte := 32

  /** The part of a record after its length. */
  function RecordBody(key: seq<Byte>, value: seq<Byte>): seq<Byte> {
    [SPACE] + (key + ([EQUALS] + (value + [NEWLINE])))
  }

  function PaxRecord(key: seq<Byte>, value: seq<Byte>): seq<Byte> {
    Digits(10, RecordLength(|RecordBody(key, value)|)) + RecordBody(key, value)
  }

  datatype Overrides = Overrides(path: Option<seq<Byte>>, linkpath: Option<seq<Byte>>)

  const NO_OVERRIDES := Overrides(None, None)

  function Override(o: Overrides, key: seq<Byte>, value: seq<Byte>): Overrides {
    if key == PATH then o.(path := Some(value))
    else if key == LINKPATH then o.(linkpath := Some(value))
    else o
  }

  function UpTo(s: seq<Byte>, stop: Byte): (p: seq<Byte>)
    ensures |p| <= |s| && s[..|p|] == p
  {
    if s == [] || s[0] == stop then [] else [s[0]] + UpTo(s[1..], stop)
  }

  /** Reads records of the form `length SPACE key EQUALS value NEWLINE`, where the length counts the
      whole record. */
  function ReadPax(data: seq<Byte>, o: Overrides): Option<Overrides>
    decreases |data|
  {
    if data == [] then Some(o)
    else
      var digits := UpTo(data, SPACE);
      if digits == [] || !AreDigits(10, digits) then None
      else
        var length := Value(10, digits);
        if length > |data| || length < |digits| + 2 || data[length - 1] != NEWLINE then None
        else
          var body := data[|digits| + 1..length - 1];
          var key := UpTo(body, EQUALS);
          if |key| == |body| then None
          else ReadPax(data[length..], Override(o, key, body[|key| + 1..]))
  }

  lemma {:induction false} UpToStops(a: seq<Byte>, stop: Byte, b: seq<Byte>)
    requires stop !in a
    ensures UpTo(a + ([stop] + b), stop) == a
  {
    if a == [] {
      assert a + ([stop] + b) == [stop] + b;
    } else {
      assert (a + ([stop] + b))[1..] == a[1..] + ([stop] + b);
      assert a == [a[0]] + a[1..];
      UpToStops(a[1..], stop, b);
    }
  }

  lemma ReadRecord(digits: seq<Byte>, inner: seq<Byte>, rest: seq<Byte>, o: Overrides)
    requires digits != [] && AreDigits(10, digits) && Value(10, digits) == |digits| + |inner| + 2
    ensures ReadPax((digits + ([SPACE] + (inner + [NEWLINE]))) + rest, o)
         == var key := UpTo(inner, EQUALS);
            if |key| == |inner| then None else ReadPax(rest, Override(o, key, inner[|key| + 1..]))
  {
    hide UpTo, Value, Override;
    var record := digits + ([SPACE] + (inner + [NEWLINE]));
    var data := record + rest;
    assert data == digits + ([SPACE] + ((inner + [NEWLINE]) + rest));
    UpToStops(digits, SPACE, (inner + [NEWLINE]) + rest);
    assert data[|record|..] == rest;
    assert data[|digits| + 1..|record| - 1] == inner;
    assert data[|record| - 1] == NEWLINE;
  }

  /** A written record is read as its key and value, whatever bytes the value holds. */
  lemma ReadWrittenRecord(key: seq<Byte>, value: seq<Byte>, rest: seq<Byte>, o: Overrides)
    requires EQUALS !in key
    ensures ReadPax(PaxRecord(key, value) + rest, o) == ReadPax(rest, Override(o, key, value))
  {
    hide ReadPax, Override, RecordLength;
    var inner := key + ([EQUALS] + value);
    var body := RecordBody(key, value);
    assert body == [SPACE] + (inner + [NEWLINE]);
    RecordLengthIsLeast(|body|);
    ValueOfDigits(10, RecordLength(|body|));
    UpToStops(key, EQUALS, value);
    assert inner[|key| + 1..] == value;
    ReadRecord(Digits(10, RecordLength(|body|)), inner, rest, o);
  }

  /** The length a record states is its own. */
  lemma RecordStatesItsLength(key: seq<Byte>, value: seq<Byte>)
    ensures var record := PaxRecord(key, value);
            var digits := Digits(10, |record|);
            digits <= record && Value(10, digits) == |record|
  {
    var body := RecordBody(key, value);
    RecordLengthIsLeast(|body|);
    ValueOfDigits(10, RecordLength(|body|));
  }

  // ---- One entry ----

  function Padding(n: nat): nat {
    (512 - n % 512) % 512
  }

  function PaxData(name: seq<Byte>, link: seq<Byte>): seq<Byte> {
    (if |name| > 100 then PaxRecord(PATH, name) else []) + (if |link| > 100 then PaxRecord(LINKPATH, link) else [])
  }

  const PAX_HEADERS: seq<Byte> := [80, 97, 120, 72, 101, 97, 100, 101, 114, 115, 47]
  const ENTRY_PREFIX: seq<Byte> := [101, 110, 116, 114, 121]

  /** Data filled up to a whole number of blocks. */
  function Padded(data: seq<Byte>, size: nat): seq<Byte> {
    data + Zeros(Padding(size))
  }

  function PaxBlocks(serial: nat, pax: seq<Byte>): seq<Byte> {
    if pax == [] then []
    else Header(PAX_HEADERS + Digits(10, serial), |pax|, MODE_644, PAX, []) + Padded(pax, |pax|)
  }

  /** What fits the name field: the name itself or a placeholder. */
  function ShortName(serial: nat, name: seq<Byte>): seq<Byte> {
    if |name| > 100 then ENTRY_PREFIX + Digits(10, serial) else name
  }

  function ShortLink(link: seq<Byte>): seq<Byte> {
    if |link| > 100 then [] else link
  }

  /** The header that names an entry, with its data. */
  function Member(serial: nat, e: Entry): seq<Byte> {
    Header(ShortName(serial, Encode(e.name)), e.size, e.mode, e.kind, ShortLink(Encode(e.link)))
    + (if e.kind == FILE then Padded(e.data, e.size) else [])
  }

  function EntryBlocks(serial: nat, e: Entry): seq<Byte> {
    var name, link := Encode(e.name), Encode(e.link);
    PaxBlocks(serial, PaxData(name, link)) + Member(serial, e)
  }

  /** All entries, numbered from `serial`. */
  function Emit(serial: nat, entries: seq<Entry>): seq<Byte>
    decreases |entries|
  {
    if entries == [] then []
    else EntryBlocks(serial, entries[0]) + Emit(serial + 1, entries[1..])
  }

  // ---- The specification reader ----

  function Overridden(r: Recovered, o: Overrides): Recovered {
    r.(name := if o.path.Some? then o.path.value else r.name,
       link := if o.linkpath.Some? then o.linkpath.value else r.link)
  }

  predicate IsEnd(bytes: seq<Byte>) {
    |bytes| >= 1024 && bytes[..1024] == Zeros(1024)
  }

  function ReadArchive(bytes: seq<Byte>, o: Overrides): Option<seq<Recovered>>
    decreases |bytes|
  {
    if IsEnd(bytes) then Some([])
    else if |bytes| < BLOCK then None
    else
      match ReadHeader(bytes[..BLOCK])
      case None => None
      case Some(h) =>
        var body := bytes[BLOCK..];
        var span := h.size + Padding(h.size);
        if span > |body| then None
        else if h.kind == PAX then
          match ReadPax(body[..h.size], NO_OVERRIDES)
          case None => None
          case Some(next) => ReadArchive(body[span..], next)
        else
          match ReadArchive(body[span..], NO_OVERRIDES)
          case None => None
          case Some(rest) =>
            Some([Overridden(Recovered(h.name, h.kind, h.mode, h.link, body[..h.size]), o)] + rest)
  }

  // ---- Round trip of one entry ----

  /** What the format can carry: NUL-free names, the stat size matching the stream, and sizes that
      fit eleven octal digits. */
  ghost predicate Archivable(e: Entry) {
    && 0 !in e.name && 0 !in e.link
    && (e.kind == FILE || e.kind == SYMLINK || e.kind == DIRECTORY)
    && |e.data| == e.size < SIZE_LIMIT
    && (e.kind != FILE ==> e.size == 0)
    && (e.mode == MODE_755 || e.mode == MODE_644)
    && |PaxData(Encode(e.name), Encode(e.link))| < SIZE_LIMIT
  }

  lemma RecordIsNotEmpty(key: seq<Byte>, value: seq<Byte>)
    ensures PaxRecord(key, value) != []
  {
  }

  lemma ReadNothing(o: Overrides)
    ensures ReadPax([], o) == Some(o)
  {
  }

  lemma ReadPaxData(name: seq<Byte>, link: seq<Byte>)
    ensures ReadPax(PaxData(name, link), NO_OVERRIDES) == Some(OverridesFor(name, link))
    ensures PaxData(name, link) == [] <==> |name| <= 100 && |link| <= 100
  {
    hide PaxRecord, ReadPax;
    var first := if |name| > 100 then Override(NO_OVERRIDES, PATH, name) else NO_OVERRIDES;
    var second := if |link| > 100 then PaxRecord(LINKPATH, link) else [];
    ReadWrittenRecord(PATH, name, second, NO_OVERRIDES);
    ReadWrittenRecord(LINKPATH, link, [], first);
    RecordIsNotEmpty(PATH, name);
    RecordIsNotEmpty(LINKPATH, link);
    ReadNothing(Override(first, LINKPATH, link));
    ReadNothing(first);
    assert second + [] == second;
    assert [] + second == second;
  }

  lemma PaddingCompletes(n: nat)
    ensures (n + Padding(n)) % 512 == 0
  {
  }

  /** A header followed by its data and padding is consumed as one member. */
  lemma ReadMember(name: seq<Byte>, mode: nat, kind: Byte, link: seq<Byte>, data: seq<Byte>, rest: seq<Byte>, o: Overrides)
    requires 0 !in name && 0 !in link
    requires |data| < SIZE_LIMIT && (mode == MODE_755 || mode == MODE_644)
    ensures var bytes := Header(name, |data|, mode, kind, link) + (Padded(data, |data|) + rest);
            && (kind == PAX && ReadPax(data, NO_OVERRIDES).Some? ==>
                  ReadArchive(bytes, o) == ReadArchive(rest, ReadPax(data, NO_OVERRIDES).value))
            && (kind != PAX && ReadArchive(rest, NO_OVERRIDES).Some? ==>
                  ReadArchive(bytes, o) == Some([Overridden(Recovered(Cut(name, 100), kind, mode, Cut(link, 100), data), o)] + ReadArchive(rest, NO_OVERRIDES).value))
  {
    hide Header, ReadHeader, ReadPax, Cut, Overridden;
    var header := Header(name, |data|, mode, kind, link);
    var padded := Padded(data, |data|);
    var bytes := header + (padded + rest);
    ReadWrittenHeader(name, |data|, mode, kind, link);
    HeaderIsNotZero(name, |data|, mode, kind, link);
    assert bytes[..BLOCK] == header && bytes[BLOCK..] == padded + rest;
    assert !IsEnd(bytes) by {
      assert |bytes| >= 1024 ==> bytes[..1024][..BLOCK] == header;
      assert Zeros(1024)[..BLOCK] == Zeros(BLOCK);
    }
    assert (padded + rest)[..|data|] == data;
    assert (padded + rest)[|padded|..] == rest;
  }

  lemma SerialNamesNulFree(serial: nat, name: seq<Byte>, link: seq<Byte>)
    requires 0 !in name && 0 !in link
    ensures 0 !in ShortName(serial, name) && 0 !in ShortLink(link)
    ensures 0 !in PAX_HEADERS + Digits(10, serial)
  {
  }

  /** The overrides that the pax records of an entry announce. */
  function OverridesFor(name: seq<Byte>, link: seq<Byte>): Overrides {
    Overrides(if |name| > 100 then Some(name) else None, if |link| > 100 then Some(link) else None)
  }

  /** What the header cannot hold, the pax records restore. */
  lemma OverridesRestore(serial: nat, e: Entry)
    ensures var name, link := Encode(e.name), Encode(e.link);
            Overridden(Recovered(Cut(ShortName(serial, name), 100), e.kind, e.mode, Cut(ShortLink(link), 100), e.data),
                       OverridesFor(name, link))
            == Visible(e)
  {
  }

  lemma ReadNamedMember(serial: nat, e: Entry, rest: seq<Byte>)
    requires Archivable(e)
    requires ReadArchive(rest, NO_OVERRIDES).Some?
    ensures ReadArchive(Member(serial, e) + rest, OverridesFor(Encode(e.name), Encode(e.link)))
         == Some([Visible(e)] + ReadArchive(rest, NO_OVERRIDES).value)
  {
    hide Header, ReadArchive, PaxData, Digits, ShortName, ShortLink, Overridden, OverridesFor, Encode;
    var name, link := Encode(e.name), Encode(e.link);
    EncodeNulFree(e.name);
    EncodeNulFree(e.link);
    SerialNamesNulFree(serial, name, link);
    OverridesRestore(serial, e);
    var header := Header(ShortName(serial, name), e.size, e.mode, e.kind, ShortLink(link));
    var padded := Padded(e.data, e.size);
    assert (if e.kind == FILE then padded else []) == padded;
    assert Member(serial, e) + rest == header + (padded + rest);
    ReadMember(ShortName(serial, name), e.mode, e.kind, ShortLink(link), e.data, rest, OverridesFor(name, link));
  }

  lemma ReadEntry(serial: nat, e: Entry, rest: seq<Byte>)
    requires Archivable(e)
    requires ReadArchive(rest, NO_OVERRIDES).Some?
    ensures ReadArchive(EntryBlocks(serial, e) + rest, NO_OVERRIDES)
         == Some([Visible(e)] + ReadArchive(rest, NO_OVERRIDES).value)
  {
    hide Header, ReadArchive, ReadPax, PaxRecord, PaxData, Digits, Member, Encode, Visible;
    var pax := PaxData(Encode(e.name), Encode(e.link));
    ReadPaxData(Encode(e.name), Encode(e.link));
    ReadNamedMember(serial, e, rest);
    SerialNamesNulFree(serial, [], []);
    if pax == [] {
      assert EntryBlocks(serial, e) + rest == Member(serial, e) + rest;
    } else {
      var header := Header(PAX_HEADERS + Digits(10, serial), |pax|, MODE_644, PAX, []);
      ReadMember(PAX_HEADERS + Digits(10, serial), MODE_644, PAX, [], pax, Member(serial, e) + rest, NO_OVERRIDES);
      assert EntryBlocks(serial, e) + rest == header + (Padded(pax, |pax|) + (Member(serial, e) + rest));
    }
  }

  lemma ReadEnd()
    ensures ReadArchive(Zeros(1024), NO_OVERRIDES) == Some([])
  {
    assert Zeros(1024)[..1024] == Zeros(1024);
  }

  function VisibleAll(entries: seq<Entry>): seq<Recovered> {
    if entries == [] then [] else [Visible(entries[0])] + VisibleAll(entries[1..])
  }

  /** The archive of any list of entries is read back as exactly those entries. */
  lemma {:induction false} ReadEmitted(serial: nat, entries: seq<Entry>)
    requires forall e | e in entries :: Archivable(e)
    ensures ReadArchive(Emit(serial, entries) + Zeros(1024), NO_OVERRIDES) == Some(VisibleAll(entries))
    decreases |entries|
  {
    hide EntryBlocks, ReadArchive, Archivable, Visible;
    if entries == [] {
      assert [] + Zeros(1024) == Zeros(1024);
      ReadEnd();
    } else {
      var rest := Emit(serial + 1, entries[1..]) + Zeros(1024);
      ReadEmitted(serial + 1, entries[1..]);
      ReadEntry(serial, entries[0], rest);
      assert Emit(serial, entries) + Zeros(1024) == EntryBlocks(serial, entries[0]) + rest;
    }
  }

  lemma EntryInBlocks(serial: nat, e: Entry)
    requires |e.data| == e.size
    ensures |EntryBlocks(serial, e)| % 512 == 0
  {
    hide Header, PaxData, Digits, Encode, Padding, ShortName, ShortLink;
    var pax := PaxData(Encode(e.name), Encode(e.link));
    PaddingCompletes(e.size);
    PaddingCompletes(|pax|);
    assert |PaxBlocks(serial, pax)| % 512 == 0;
    assert |Member(serial, e)| % 512 == 0;
  }

  /** Every archive is a whole number of blocks. */
  lemma {:induction false} EmitInBlocks(serial: nat, entries: seq<Entry>)
    requires forall e | e in entries :: |e.data| == e.size
    ensures |Emit(serial, entries)| % 512 == 0
    decreases |entries|
  {
    hide EntryBlocks;
    if entries != [] {
      EntryInBlocks(serial, entries[0]);
      EmitInBlocks(serial + 1, entries[1..]);
    }
  }
}
