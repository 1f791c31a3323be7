/** The traversal of scripts/runtime/packs.ts that turns a file tree into an archive. */
module ArchiveTree {
  import opened Wrappers
  import opened Utf8
  import opened TarNumbers
  import opened TarHeader
  import opened TarArchive

  /** What `lstat`, `readdir`, `readlink` and the file stream report. `executable` is whether any
      execute bit is set; `Special` is every other file type. */
  datatype Node =
    | File(size: nat, executable: bool, data: seq<Byte>)
    | Directory(children: map<JsString, Node>)
    | Symlink(target: JsString, executable: bool)
    | Special

  const SLASH: CodeUnit := 47
  const BACKSLASH: CodeUnit := 92

  function Slashed(s: JsString): (t: JsString)
    ensures |t| == |s| && forall i | 0 <= i < |s| :: t[i] == if s[i] == BACKSLASH then SLASH else s[i]
  {
    seq(|s|, i requires 0 <= i < |s| => if s[i] == BACKSLASH then SLASH else s[i])
  }

  function EntryOf(relative: JsString, node: Node): Entry
    requires !node.Special?
  {
    var name := Slashed(relative);
    match node
    case File(size, executable, data) =>
      Entry(name, FILE, if executable then MODE_755 else MODE_644, [], size, data)
    case Directory(_) =>
      Entry(name + [SLASH], DIRECTORY, MODE_755, [], 0, [])
    case Symlink(target, executable) =>
      Entry(name, SYMLINK, if executable then MODE_755 else MODE_644, target, 0, [])
  }

  function ChildPath(top: bool, relative: JsString, name: JsString): JsString {
    if top then name else relative + [SLASH] + name
  }

  // ---- The specification: a sorted pre-order list ----

  /** Some listing of a set of names. */
  ghost function Listing(names: set<JsString>): (s: seq<JsString>)
    ensures multiset(s) == multiset(names)
  {
    if names == {} then []
    else
      var name :| name in names;
      var rest := Listing(names - {name});
      assert names == (names - {name}) + {name};
      [name] + rest
  }

  /** The entries of a tree; None when it holds an unsupported file type. */
  ghost function Flatten(relative: JsString, node: Node): Option<seq<Entry>>
    decreases node, 1, 0
  {
    if node.Special? then None
    else if node.Directory? then
      match FlattenNames(false, relative, node, Sort(Listing(node.children.Keys)))
      case None => None
      case Some(rest) => Some([EntryOf(relative, node)] + rest)
    else Some([EntryOf(relative, node)])
  }

  /** The entries of the named children, in the given order; None when one is missing or unsupported. */
  ghost function FlattenNames(top: bool, relative: JsString, node: Node, names: seq<JsString>): Option<seq<Entry>>
    requires node.Directory?
    decreases node, 0, |names|
  {
    if names == [] then Some([])
    else if names[0] !in node.children then None
    else
      match Flatten(ChildPath(top, relative, names[0]), node.children[names[0]])
      case None => None
      case Some(first) =>
        match FlattenNames(top, relative, node, names[1..])
        case None => None
        case Some(rest) => Some(first + rest)
  }

  ghost function Entries(root: map<JsString, Node>, paths: seq<JsString>): Option<seq<Entry>> {
    FlattenNames(true, [], Directory(root), Sort(paths))
  }

  ghost function Archive(root: map<JsString, Node>, paths: seq<JsString>): Option<seq<Byte>> {
    var entries := Entries(root, paths);
    if entries.None? then None else Some(Emit(0, entries.value) + Zeros(1024))
  }

  // ---- The writer ----

  lemma {:induction false} EmitAppend(serial: nat, a: seq<Entry>, b: seq<Entry>)
    ensures Emit(serial, a + b) == Emit(serial, a) + Emit(serial + |a|, b)
    decreases |a|
  {
    hide EntryBlocks;
    if a == [] {
      assert a + b == b;
    } else {
      assert (a + b)[1..] == a[1..] + b;
      EmitAppend(serial + 1, a[1..], b);
    }
  }

  lemma Regroup(a: JsString, b: JsString, c: JsString, d: JsString, e: JsString)
    ensures a + (b + (c + (d + e))) == (a + (b + (c + d))) + e
  {
    assert c + (d + e) == (c + d) + e;
    assert b + ((c + d) + e) == (b + (c + d)) + e;
    assert a + ((b + (c + d)) + e) == (a + (b + (c + d))) + e;
  }

  lemma RecordText(key: seq<Byte>, value: JsString, prefix: seq<Byte>)
    requires IsAscii(key) && IsAscii(prefix)
    ensures Encode(prefix + ([SPACE] + (key + ([EQUALS] + (value + [NEWLINE])))))
         == prefix + RecordBody(key, Encode(value))
  {
    var head: JsString := prefix + ([SPACE] + (key + [EQUALS]));
    assert IsAscii(head);
    hide Encode, IsAscii;
    Regroup(prefix, [SPACE], key, [EQUALS], value + [NEWLINE]);
    EncodeAsciiPrefix(head, value + [NEWLINE]);
    EncodeAsciiEnd(value, NEWLINE);
    Regroup(prefix, [SPACE], key, [EQUALS], Encode(value) + [NEWLINE]);
  }

  /** One pass of the loop over the `path` and `linkpath` values. */
  method PaxFor(key: seq<Byte>, value: JsString) returns (record: seq<Byte>)
    requires IsAscii(key)
    ensures record == if |Encode(value)| > 100 then PaxRecord(key, Encode(value)) else []
  {
    if |Encode(value)| <= 100 {
      return [];
    }
    var text: JsString := [SPACE] + (key + ([EQUALS] + (value + [NEWLINE])));
    RecordText(key, value, []);
    assert [] + text == text && [] + RecordBody(key, Encode(value)) == RecordBody(key, Encode(value));
    var length, rounds := SettleLength(|Encode(text)|);
    RecordText(key, value, Digits(10, length));
    record := Encode(Digits(10, length) + text);
  }

  class Archiver {
    var serial: nat
    var output: seq<Byte>

    constructor ()
      ensures serial == 0 && output == []
    {
      serial, output := 0, [];
    }

    method WritePax(pax: seq<Byte>)
      modifies this`output
      ensures output == old(output) + PaxBlocks(serial, pax)
    {
      hide Header;
      if pax != [] {
        var header := WriteHeader(PAX_HEADERS + Digits(10, serial), |pax|, MODE_644, PAX, []);
        output := output + header[..];
        output := output + pax;
        output := output + Zeros(Padding(|pax|));
      }
    }

    method WriteMember(e: Entry)
      modifies this
      ensures serial == old(serial) + 1
      ensures output == old(output) + Member(old(serial), e)
    {
      hide Header, Encode, Digits;
      var name, link := Encode(e.name), Encode(e.link);
      var header := WriteHeader(ShortName(serial, name), e.size, e.mode, e.kind, ShortLink(link));
      output := output + header[..];
      serial := serial + 1;
      if e.kind == FILE {
        output := output + e.data;
        output := output + Zeros(Padding(e.size));
      }
    }

    /** Emits everything of one entry except what lies below it. */
    method Write(e: Entry)
      modifies this
      ensures serial == old(serial) + 1
      ensures output == old(output) + Emit(old(serial), [e])
    {
      hide PaxBlocks, Member, PaxRecord, Encode;
      var path := PaxFor(PATH, e.name);
      var linkpath := PaxFor(LINKPATH, e.link);
      WritePax(path + linkpath);
      WriteMember(e);
      assert [e][1..] == [];
    }

    /** The recursive generator `entries`. */
    method Visit(relative: JsString, node: Node) returns (ok: bool)
      modifies this
      ensures ok <==> Flatten(relative, node).Some?
      ensures ok ==> serial == old(serial) + |Flatten(relative, node).value|
      ensures ok ==> output == old(output) + Emit(old(serial), Flatten(relative, node).value)
      decreases node, 1, 0
    {
      hide Emit, EntryOf, Sort, FlattenNames;
      if node.Special? {
        return false;
      }
      Write(EntryOf(relative, node));
      ok := true;
      if node.Directory? {
        var names := ReadDir(node.children);
        SortForgetsOrder(names, Listing(node.children.Keys));
        ok := VisitNames(false, relative, node, Sort(names));
        if ok {
          EmitMore(old(output), old(serial), [EntryOf(relative, node)], FlattenNames(false, relative, node, Sort(names)).value);
        }
      }
    }

    method VisitNames(top: bool, relative: JsString, node: Node, names: seq<JsString>) returns (ok: bool)
      requires node.Directory?
      modifies this
      ensures ok <==> FlattenNames(top, relative, node, names).Some?
      ensures ok ==> serial == old(serial) + |FlattenNames(top, relative, node, names).value|
      ensures ok ==> output == old(output) + Emit(old(serial), FlattenNames(top, relative, node, names).value)
      decreases node, 0, |names|
    {
      hide Flatten, ChildPath, Emit;
      if names == [] {
        EmitNothing(serial);
        return true;
      }
      if names[0] !in node.children {
        return false;
      }
      var child := node.children[names[0]];
      var path := ChildPath(top, relative, names[0]);
      ok := Visit(path, child);
      if ok {
        ok := VisitNames(top, relative, node, names[1..]);
        if ok {
          EmitMore(old(output), old(serial), Flatten(path, child).value, FlattenNames(top, relative, node, names[1..]).value);
        }
      }
    }
  }

  lemma EmitNothing(serial: nat)
    ensures Emit(serial, []) == []
  {
  }

  lemma EmitMore(before: seq<Byte>, serial: nat, a: seq<Entry>, b: seq<Entry>)
    ensures (before + Emit(serial, a)) + Emit(serial + |a|, b) == before + Emit(serial, a + b)
  {
    hide Emit;
    EmitAppend(serial, a, b);
  }

  /** `readdir`: the children in an order the file system chooses. */
  method ReadDir(children: map<JsString, Node>) returns (names: seq<JsString>)
    ensures multiset(names) == multiset(children.Keys)
  {
    names := [];
    var left := children.Keys;
    while left != {}
      invariant left <= children.Keys
      invariant multiset(names) == multiset(children.Keys - left)
      decreases left
    {
      var name :| name in left;
      assert children.Keys - (left - {name}) == (children.Keys - left) + {name};
      names := names + [name];
      left := left - {name};
    }
    assert children.Keys - {} == children.Keys;
  }

  /** `archiveTree` up to compression: whatever order directories are listed in, the bytes are those
      of the specification. */
  method WriteArchive(root: map<JsString, Node>, paths: seq<JsString>) returns (result: Option<seq<Byte>>)
    ensures result == Archive(root, paths)
  {
    hide EntryBlocks;
    var archiver := new Archiver();
    var ok := archiver.VisitNames(true, [], Directory(root), Sort(paths));
    if !ok {
      return None;
    }
    assert archiver.output == Emit(0, Entries(root, paths).value);
    result := Some(archiver.output + Zeros(1024));
  }

  // ---- The archive and its reader undo each other ----

  /** NUL-free names, stat sizes that match the streams, and sizes eleven octal digits can hold. */
  ghost predicate Clean(relative: JsString, node: Node)
    decreases node
  {
    && 0 !in relative
    && (match node
        case File(size, _, data) => |data| == size < SIZE_LIMIT
        case Symlink(target, _) => 0 !in target
        case Directory(children) =>
          forall name | name in children :: Clean(ChildPath(false, relative, name), children[name])
        case Special => true)
    && (!node.Special? ==>
          |PaxData(Encode(EntryOf(relative, node).name), Encode(EntryOf(relative, node).link))| < SIZE_LIMIT)
  }

  lemma CleanEntry(relative: JsString, node: Node)
    requires Clean(relative, node) && !node.Special?
    ensures Archivable(EntryOf(relative, node))
  {
    hide PaxData, Encode;
    assert forall u | u in Slashed(relative) :: u in relative || u == SLASH;
  }

  lemma {:induction false} CleanTree(relative: JsString, node: Node)
    requires Clean(relative, node) && Flatten(relative, node).Some?
    ensures forall e | e in Flatten(relative, node).value :: Archivable(e)
    decreases node, 1, 0
  {
    hide Archivable;
    CleanEntry(relative, node);
    if node.Directory? {
      var names := Sort(Listing(node.children.Keys));
      SortSorts(Listing(node.children.Keys));
      forall name | name in names
        ensures name in node.children
      {
        assert name in multiset(names);
      }
      CleanNames(false, relative, node, names);
    }
  }

  ghost predicate CleanChildren(top: bool, relative: JsString, node: Node)
    requires node.Directory?
  {
    forall name | name in node.children :: Clean(ChildPath(top, relative, name), node.children[name])
  }

  lemma {:induction false} CleanNames(top: bool, relative: JsString, node: Node, names: seq<JsString>)
    requires node.Directory? && CleanChildren(top, relative, node)
    ensures FlattenNames(top, relative, node, names).Some? ==>
              forall e | e in FlattenNames(top, relative, node, names).value :: Archivable(e)
    decreases node, 0, |names|
  {
    hide Archivable, Clean;
    if names != [] && FlattenNames(top, relative, node, names).Some? {
      CleanTree(ChildPath(top, relative, names[0]), node.children[names[0]]);
      CleanNames(top, relative, node, names[1..]);
    }
  }

  lemma CleanEntries(root: map<JsString, Node>, paths: seq<JsString>)
    requires forall name | name in root :: Clean(name, root[name])
    requires Entries(root, paths).Some?
    ensures forall e | e in Entries(root, paths).value :: Archivable(e)
  {
    hide Clean, Archivable, Sort;
    CleanNames(true, [], Directory(root), Sort(paths));
  }

  lemma ArchivableSizes(entries: seq<Entry>)
    requires forall e | e in entries :: Archivable(e)
    ensures forall e | e in entries :: |e.data| == e.size
  {
  }

  /** For every clean tree, reading the archive recovers exactly the sorted pre-order list of names,
      types, modes, link targets and contents, and the archive is a whole number of blocks. */
  lemma ArchiveRoundTrip(root: map<JsString, Node>, paths: seq<JsString>)
    requires forall name | name in root :: Clean(name, root[name])
    requires Entries(root, paths).Some?
    ensures ReadArchive(Archive(root, paths).value, NO_OVERRIDES) == Some(VisibleAll(Entries(root, paths).value))
    ensures |Archive(root, paths).value| % 512 == 0
  {
    hide Clean, Archivable, ReadArchive, Emit, Entries;
    var entries := Entries(root, paths).value;
    CleanEntries(root, paths);
    ArchivableSizes(entries);
    ReadEmitted(0, entries);
    EmitInBlocks(0, entries);
  }

  /** The recovered bytes of a well-formed name or target decode to it. */
  lemma RecoveredNamesDecode(e: Entry)
    requires WellFormed(e.name) && WellFormed(e.link)
    ensures Decode(Visible(e).name) == e.name && Decode(Visible(e).link) == e.link
  {
    DecodeEncoded(e.name);
    DecodeEncoded(e.link);
  }

  /** Archives are reproducible: the order in which the paths are given does not matter. */
  lemma ArchiveForgetsPathOrder(root: map<JsString, Node>, paths: seq<JsString>, others: seq<JsString>)
    requires multiset(paths) == multiset(others)
    ensures Archive(root, paths) == Archive(root, others)
  {
    SortForgetsOrder(paths, others);
  }
}
