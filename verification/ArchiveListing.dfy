/** What the archive of scripts/runtime/packs.ts lists, told by looking paths up in the file tree: an
    entry for every path that leads to a node, under the joined path, with the node's own attributes,
    parents first and siblings sorted. */
module ArchiveListing {
  import opened Wrappers
  import opened Utf8
  import opened TarHeader
  import opened TarArchive
  import opened ArchiveTree

  /** The components of a path: a given path, then names of nested entries. */
  type Components = seq<JsString>

  /** The node that nested directories lead to. */
  function Below(node: Node, names: Components): Option<Node>
    decreases |names|
  {
    if names == [] then Some(node)
    else if node.Directory? && names[0] in node.children then Below(node.children[names[0]], names[1..])
    else None
  }

  function NodeAt(root: map<JsString, Node>, path: Components): Option<Node> {
    if path != [] && path[0] in root then Below(root[path[0]], path[1..]) else None
  }

  /** The components with slashes between them. */
  function Joined(path: Components): JsString {
    if path == [] then []
    else if |path| == 1 then path[0]
    else Joined(path[..|path| - 1]) + [47] + path[|path| - 1]
  }

  /** The entry is that of the node: type flags '0', '2' and '5', modes 0755 and 0644, no data for
      anything but a file, a link target for a symbolic link alone. */
  ghost predicate Describes(e: Entry, path: Components, node: Node) {
    var name := Joined(path);
    && |e.name| == |name| + (if node.Directory? then 1 else 0)
    && (forall i | 0 <= i < |name| :: e.name[i] == if name[i] == 92 then 47 else name[i])
    && match node
       case File(size, executable, data) =>
         e.kind == 48 && e.mode == (if executable then 493 else 420) && e.link == [] && e.size == size && e.data == data
       case Directory(_) =>
         e.name[|name|] == 47 && e.kind == 53 && e.mode == 493 && e.link == [] && e.size == 0 && e.data == []
       case Symlink(target, executable) =>
         e.kind == 50 && e.mode == (if executable then 493 else 420) && e.link == target && e.size == 0 && e.data == []
       case Special => false
  }

  lemma EntryDescribes(path: Components, node: Node)
    requires !node.Special?
    ensures Describes(EntryOf(Joined(path), node), path, node)
  {
  }

  /** Before: an ancestor, or a smaller name where the paths part. */
  ghost predicate Before(a: Components, b: Components) {
    || a < b
    || exists k :: 0 <= k < |a| && k < |b| && a[..k] == b[..k] && a[k] != b[k] && LessEq(a[k], b[k])
  }

  ghost predicate Ascending(paths: seq<Components>) {
    forall i, j | 0 <= i < j < |paths| :: Before(paths[i], paths[j])
  }

  // ---- The paths below a node ----

  ghost function Paths(path: Components, node: Node): seq<Components>
    decreases node, 1, 0
  {
    if node.Directory? then [path] + PathsOf(path, node, Sort(Listing(node.children.Keys))) else [path]
  }

  ghost function PathsOf(path: Components, node: Node, names: seq<JsString>): seq<Components>
    requires node.Directory?
    decreases node, 0, |names|
  {
    if names == [] || names[0] !in node.children then []
    else Paths(path + [names[0]], node.children[names[0]]) + PathsOf(path, node, names[1..])
  }

  /** Entry by entry, the listing describes the nodes at these paths below `node`. */
  ghost predicate Matches(entries: seq<Entry>, paths: seq<Components>, path: Components, node: Node) {
    && |entries| == |paths|
    && forall i | 0 <= i < |paths| ::
         && path <= paths[i] && Below(node, paths[i][|path|..]).Some?
         && Describes(entries[i], paths[i], Below(node, paths[i][|path|..]).value)
  }

  lemma MatchesConcat(a: seq<Entry>, b: seq<Entry>, p: seq<Components>, q: seq<Components>, path: Components, node: Node)
    requires Matches(a, p, path, node) && Matches(b, q, path, node)
    ensures Matches(a + b, p + q, path, node)
  {
  }

  /** What matches a child matches its directory. */
  lemma MatchesUp(entries: seq<Entry>, paths: seq<Components>, path: Components, node: Node, name: JsString)
    requires node.Directory? && name in node.children
    requires Matches(entries, paths, path + [name], node.children[name])
    ensures Matches(entries, paths, path, node)
  {
    forall i | 0 <= i < |paths|
      ensures path <= paths[i] && Below(node, paths[i][|path|..]) == Below(node.children[name], paths[i][|path| + 1..])
    {
      assert path + [name] <= paths[i];
      assert paths[i][|path|] == name;
      assert paths[i][|path|..][1..] == paths[i][|path| + 1..];
    }
  }

  lemma {:induction false} FlattenMatches(path: Components, node: Node)
    requires path != [] && Flatten(Joined(path), node).Some?
    ensures Matches(Flatten(Joined(path), node).value, Paths(path, node), path, node)
    decreases node, 1, 0
  {
    hide Describes, Joined;
    EntryDescribes(path, node);
    assert path[|path|..] == [];
    assert Matches([EntryOf(Joined(path), node)], [path], path, node);
    if node.Directory? {
      var names := Sort(Listing(node.children.Keys));
      NamesMatch(path, node, names);
      MatchesConcat([EntryOf(Joined(path), node)], FlattenNames(false, Joined(path), node, names).value, [path], PathsOf(path, node, names), path, node);
    }
  }

  lemma {:induction false} NamesMatch(path: Components, node: Node, names: seq<JsString>)
    requires path != [] && node.Directory? && FlattenNames(false, Joined(path), node, names).Some?
    ensures Matches(FlattenNames(false, Joined(path), node, names).value, PathsOf(path, node, names), path, node)
    decreases node, 0, |names|
  {
    hide Describes;
    if names != [] {
      var name := names[0];
      JoinedChild(path, name);
      hide Joined, Flatten;
      FlattenMatches(path + [name], node.children[name]);
      MatchesUp(Flatten(Joined(path + [name]), node.children[name]).value, Paths(path + [name], node.children[name]), path, node, name);
      NamesMatch(path, node, names[1..]);
      MatchesConcat(Flatten(Joined(path + [name]), node.children[name]).value, FlattenNames(false, Joined(path), node, names[1..]).value,
                    Paths(path + [name], node.children[name]), PathsOf(path, node, names[1..]), path, node);
    }
  }

  lemma JoinedChild(path: Components, name: JsString)
    requires path != []
    ensures ChildPath(false, Joined(path), name) == Joined(path + [name])
  {
    assert (path + [name])[..|path|] == path;
  }

  // ---- Exactly the paths that lead to a node ----

  lemma SortedNames(names: set<JsString>)
    ensures var sorted := Sort(Listing(names));
            && (forall name :: name in sorted <==> name in names)
            && IsSorted(sorted) && forall i, j | 0 <= i < j < |sorted| :: sorted[i] != sorted[j]
  {
    var sorted := Sort(Listing(names));
    SortSorts(Listing(names));
    forall name
      ensures name in sorted <==> name in names
    {
      assert name in sorted <==> name in multiset(sorted);
    }
    forall i, j | 0 <= i < j < |sorted|
      ensures sorted[i] != sorted[j]
    {
      assert sorted == sorted[..j] + sorted[j..];
      assert sorted[i] in sorted[..j] && sorted[j] in sorted[j..];
      assert multiset(sorted)[sorted[i]] == multiset(sorted[..j])[sorted[i]] + multiset(sorted[j..])[sorted[i]];
    }
  }

  ghost predicate LeadsTo(path: Components, node: Node, q: Components) {
    path <= q && Below(node, q[|path|..]).Some?
  }

  lemma LeadsThrough(path: Components, node: Node, q: Components)
    ensures LeadsTo(path, node, q)
       <==> q == path || (node.Directory? && path < q && q[|path|] in node.children
                          && LeadsTo(path + [q[|path|]], node.children[q[|path|]], q))
  {
    if path < q {
      assert q[|path|..][1..] == q[|path| + 1..] && q[|path|..][0] == q[|path|];
      assert path + [q[|path|]] <= q;
    }
    assert path <= q && |q| == |path| ==> q == path;
  }

  lemma {:induction false} PathsExact(path: Components, node: Node, q: Components)
    ensures q in Paths(path, node) <==> LeadsTo(path, node, q)
    decreases node, 1, 0
  {
    LeadsThrough(path, node, q);
    hide LeadsTo;
    if node.Directory? {
      var names := Sort(Listing(node.children.Keys));
      SortedNames(node.children.Keys);
      PathsOfExact(path, node, names, q);
    }
  }

  lemma {:induction false} PathsOfExact(path: Components, node: Node, names: seq<JsString>, q: Components)
    requires node.Directory? && forall name | name in names :: name in node.children
    ensures q in PathsOf(path, node, names)
       <==> path < q && q[|path|] in names && LeadsTo(path + [q[|path|]], node.children[q[|path|]], q)
    decreases node, 0, |names|
  {
    if names != [] {
      var name := names[0];
      assert names == [name] + names[1..];
      PathsExact(path + [name], node.children[name], q);
      PathsOfExact(path, node, names[1..], q);
      if LeadsTo(path + [name], node.children[name], q) {
        assert q[|path|] == (path + [name])[|path|];
      }
    }
  }

  // ---- In order ----

  lemma AscendingConcat(a: seq<Components>, b: seq<Components>)
    requires Ascending(a) && Ascending(b) && forall p, q | p in a && q in b :: Before(p, q)
    ensures Ascending(a + b)
  {
  }

  lemma {:induction false} PathsAscend(path: Components, node: Node)
    ensures Ascending(Paths(path, node))
    decreases node, 1, 0
  {
    if node.Directory? {
      var names := Sort(Listing(node.children.Keys));
      SortedNames(node.children.Keys);
      PathsOfAscend(path, node, names);
      forall q | q in PathsOf(path, node, names)
        ensures Before(path, q)
      {
        PathsOfExact(path, node, names, q);
      }
      hide Paths, PathsOf, Before;
      AscendingConcat([path], PathsOf(path, node, names));
    }
  }

  lemma {:induction false} PathsOfAscend(path: Components, node: Node, names: seq<JsString>)
    requires node.Directory? && forall name | name in names :: name in node.children
    requires IsSorted(names) && forall i, j | 0 <= i < j < |names| :: names[i] != names[j]
    ensures Ascending(PathsOf(path, node, names))
    decreases node, 0, |names|
  {
    if names != [] {
      var first, rest := Paths(path + [names[0]], node.children[names[0]]), PathsOf(path, node, names[1..]);
      PathsAscend(path + [names[0]], node.children[names[0]]);
      PathsOfAscend(path, node, names[1..]);
      forall p, q | p in first && q in rest
        ensures Before(p, q)
      {
        PathsExact(path + [names[0]], node.children[names[0]], p);
        PathsOfExact(path, node, names[1..], q);
        var j :| 0 <= j < |names[1..]| && names[1..][j] == q[|path|];
        assert names[j + 1] == q[|path|] && p[|path|] == (path + [names[0]])[|path|] == names[0];
        assert p[..|path|] == path == q[..|path|];
      }
      hide Before, Paths;
      AscendingConcat(first, rest);
    }
  }

  // ---- The whole archive ----

  ghost function TopPaths(root: map<JsString, Node>, names: seq<JsString>): seq<Components> {
    if names == [] || names[0] !in root then [] else Paths([names[0]], root[names[0]]) + TopPaths(root, names[1..])
  }

  /** Entry by entry, the listing describes the nodes at these paths of the tree. */
  ghost predicate Lists(root: map<JsString, Node>, entries: seq<Entry>, paths: seq<Components>) {
    && |entries| == |paths|
    && forall i | 0 <= i < |paths| :: NodeAt(root, paths[i]).Some? && Describes(entries[i], paths[i], NodeAt(root, paths[i]).value)
  }

  lemma TopMatches(root: map<JsString, Node>, name: JsString, entries: seq<Entry>, paths: seq<Components>)
    requires name in root && Matches(entries, paths, [name], root[name])
    ensures Lists(root, entries, paths)
  {
    forall i | 0 <= i < |paths|
      ensures NodeAt(root, paths[i]) == Below(root[name], paths[i][1..])
    {
      assert [name] <= paths[i];
      assert paths[i][0] == name;
    }
  }

  lemma {:induction false} TopLists(root: map<JsString, Node>, names: seq<JsString>)
    requires FlattenNames(true, [], Directory(root), names).Some?
    ensures Lists(root, FlattenNames(true, [], Directory(root), names).value, TopPaths(root, names))
    ensures forall name | name in names :: name in root
    decreases |names|
  {
    if names != [] {
      var name := names[0];
      assert names == [name] + names[1..] && Joined([name]) == name;
      hide Describes;
      FlattenMatches([name], root[name]);
      TopMatches(root, name, Flatten(name, root[name]).value, Paths([name], root[name]));
      hide NodeAt, Paths, Flatten;
      TopLists(root, names[1..]);
    }
  }

  /** How often a path is listed. */
  function Times(root: map<JsString, Node>, names: seq<JsString>, q: Components): nat {
    if NodeAt(root, q).Some? then multiset(names)[q[0]] else 0
  }

  lemma BeforeIsStrict(a: Components)
    ensures !Before(a, a)
  {
  }

  lemma AtMostOnce(paths: seq<Components>, q: Components)
    requires Ascending(paths)
    ensures multiset(paths)[q] == if q in paths then 1 else 0
  {
    if q in paths {
      var i :| 0 <= i < |paths| && paths[i] == q;
      assert paths == paths[..i] + [q] + paths[i + 1..];
      BeforeIsStrict(q);
      assert q !in paths[..i] && q !in paths[i + 1..];
    }
  }

  lemma {:induction false} TopTimes(root: map<JsString, Node>, names: seq<JsString>, q: Components)
    requires forall name | name in names :: name in root
    ensures multiset(TopPaths(root, names))[q] == Times(root, names, q)
    decreases |names|
  {
    if names != [] {
      var name := names[0];
      assert names == [name] + names[1..];
      PathsAscend([name], root[name]);
      AtMostOnce(Paths([name], root[name]), q);
      PathsExact([name], root[name], q);
      assert LeadsTo([name], root[name], q) <==> NodeAt(root, q).Some? && q[0] == name by {
        if q != [] && q[0] == name {
          assert [name] <= q;
        }
      }
      TopTimes(root, names[1..], q);
    }
  }

  ghost predicate FirstsSorted(paths: seq<Components>) {
    forall i, j | 0 <= i < j < |paths| && paths[i] != [] && paths[j] != [] :: LessEq(paths[i][0], paths[j][0])
  }

  lemma {:induction false} TopAscend(root: map<JsString, Node>, names: seq<JsString>)
    requires IsSorted(names) && forall name | name in names :: name in root
    ensures FirstsSorted(TopPaths(root, names)) && forall q | q in TopPaths(root, names) :: q != [] && q[0] in names
    ensures (forall i, j | 0 <= i < j < |names| :: names[i] != names[j]) ==> Ascending(TopPaths(root, names))
    decreases |names|
  {
    if names != [] {
      var name, rest := names[0], TopPaths(root, names[1..]);
      var first := Paths([name], root[name]);
      assert names == [name] + names[1..];
      TopAscend(root, names[1..]);
      PathsAscend([name], root[name]);
      forall p | p in first
        ensures p != [] && p[0] == name
      {
        PathsExact([name], root[name], p);
        assert [name] <= p;
      }
      LessEqTotal(name, name);
      forall q | q in rest
        ensures q[0] in names && LessEq(name, q[0])
      {
        var j :| 0 <= j < |names[1..]| && names[1..][j] == q[0];
        assert names[j + 1] == q[0];
      }
      if forall i, j | 0 <= i < j < |names| :: names[i] != names[j] {
        forall p, q | p in first && q in rest
          ensures Before(p, q)
        {
          var j :| 0 <= j < |names[1..]| && names[1..][j] == q[0];
          assert names[j + 1] == q[0] && p[0] != q[0] && p[..0] == q[..0];
        }
        AscendingConcat(first, rest);
      }
    }
  }

  // ---- Failure ----

  ghost predicate HoldsSpecial(node: Node) {
    exists names :: Below(node, names) == Some(Special)
  }

  lemma SpecialBelow(node: Node)
    ensures HoldsSpecial(node) <==>
              node.Special? || (node.Directory? && exists name :: name in node.children && HoldsSpecial(node.children[name]))
  {
    assert Below(node, []) == Some(node);
    if HoldsSpecial(node) && !node.Special? {
      var path :| Below(node, path) == Some(Special);
      assert HoldsSpecial(node.children[path[0]]) by { assert Below(node.children[path[0]], path[1..]) == Some(Special); }
    }
    if node.Directory? {
      if name :| name in node.children && HoldsSpecial(node.children[name]) {
        var path :| Below(node.children[name], path) == Some(Special);
        assert ([name] + path)[1..] == path && Below(node, [name] + path) == Some(Special);
      }
    }
  }

  lemma {:induction false} FlattenFails(relative: JsString, node: Node)
    ensures Flatten(relative, node).None? <==> HoldsSpecial(node)
    decreases node, 1, 0
  {
    SpecialBelow(node);
    hide HoldsSpecial, EntryOf, Sort;
    if node.Directory? {
      SortedNames(node.children.Keys);
      NamesFail(false, relative, node, Sort(Listing(node.children.Keys)));
    }
  }

  lemma {:induction false} NamesFail(top: bool, relative: JsString, node: Node, names: seq<JsString>)
    requires node.Directory?
    ensures FlattenNames(top, relative, node, names).None?
       <==> exists name :: name in names && (name in node.children ==> HoldsSpecial(node.children[name]))
    decreases node, 0, |names|
  {
    if names != [] {
      var name := names[0];
      assert names == [name] + names[1..];
      hide HoldsSpecial, ChildPath;
      if name in node.children {
        FlattenFails(ChildPath(top, relative, name), node.children[name]);
        NamesFail(top, relative, node, names[1..]);
      }
    }
  }

  // ---- The recovered list ----

  /** What a reader recovers is what the node at the path is. */
  ghost predicate Shows(r: Recovered, path: Components, node: Node) {
    exists e :: Describes(e, path, node) && r == Recovered(Encode(e.name), e.kind, e.mode, Encode(e.link), e.data)
  }

  lemma {:induction false} VisibleAt(entries: seq<Entry>, i: nat)
    requires i < |entries|
    ensures |VisibleAll(entries)| == |entries| && VisibleAll(entries)[i] == Visible(entries[i])
  {
    if |entries| > 1 {
      VisibleAt(entries[1..], if i == 0 then 0 else i - 1);
    } else {
      assert entries[1..] == [];
    }
  }

  /** Archiving fails exactly when a given path is missing or an unsupported file lies at or below one. */
  lemma ArchiveFails(root: map<JsString, Node>, paths: seq<JsString>)
    ensures Archive(root, paths).None? <==> exists name :: name in paths && (name in root ==> HoldsSpecial(root[name]))
  {
    SortSorts(paths);
    NamesFail(true, [], Directory(root), Sort(paths));
    forall name
      ensures name in Sort(paths) <==> name in paths
    {
      assert name in Sort(paths) <==> name in multiset(Sort(paths));
    }
  }

  lemma VisibleShows(root: map<JsString, Node>, entries: seq<Entry>, listed: seq<Components>)
    requires Lists(root, entries, listed)
    ensures |VisibleAll(entries)| == |listed|
    ensures forall i | 0 <= i < |listed| ::
              NodeAt(root, listed[i]).Some? && Shows(VisibleAll(entries)[i], listed[i], NodeAt(root, listed[i]).value)
  {
    if entries == [] {
      assert VisibleAll(entries) == [];
    }
    hide Describes, NodeAt, VisibleAll;
    forall i | 0 <= i < |listed|
      ensures |VisibleAll(entries)| == |listed|
      ensures NodeAt(root, listed[i]).Some? && Shows(VisibleAll(entries)[i], listed[i], NodeAt(root, listed[i]).value)
    {
      VisibleAt(entries, i);
    }
  }

  /** The listing of a tree in the order of `Sort(paths)`. */
  lemma ListingIsExact(root: map<JsString, Node>, paths: seq<JsString>)
    requires Entries(root, paths).Some?
    ensures var listed := TopPaths(root, Sort(paths));
            && Lists(root, Entries(root, paths).value, listed)
            && (forall q: Components :: multiset(listed)[q] == Times(root, paths, q))
            && FirstsSorted(listed)
            && ((forall i, j | 0 <= i < j < |paths| :: paths[i] != paths[j]) ==> Ascending(listed))
  {
    var names := Sort(paths);
    SortSorts(paths);
    TopLists(root, names);
    hide Lists, FlattenNames, TopPaths, NodeAt, Sort, FirstsSorted, Ascending;
    TopAscend(root, names);
    forall q: Components
      ensures multiset(TopPaths(root, names))[q] == Times(root, paths, q)
    {
      TopTimes(root, names, q);
    }
    if forall i, j | 0 <= i < j < |paths| :: paths[i] != paths[j] {
      DistinctSorted(paths);
    }
  }

  /** Reading the archive of a clean tree recovers one entry for every path that starts at a given path
      and leads through nested directories to a node, as often as the path is given, and nothing else;
      each shows its node; given paths come sorted and, if given once each, all in order. */
  lemma ArchiveShowsTree(root: map<JsString, Node>, paths: seq<JsString>) returns (listed: seq<Components>, recovered: seq<Recovered>)
    requires forall name | name in root :: Clean(name, root[name])
    requires Archive(root, paths).Some?
    ensures ReadArchive(Archive(root, paths).value, NO_OVERRIDES) == Some(recovered)
    ensures |recovered| == |listed|
    ensures forall i | 0 <= i < |listed| :: NodeAt(root, listed[i]).Some? && Shows(recovered[i], listed[i], NodeAt(root, listed[i]).value)
    ensures forall q: Components :: multiset(listed)[q] == Times(root, paths, q)
    ensures FirstsSorted(listed)
    ensures (forall i, j | 0 <= i < j < |paths| :: paths[i] != paths[j]) ==> Ascending(listed)
  {
    listed, recovered := TopPaths(root, Sort(paths)), VisibleAll(Entries(root, paths).value);
    assert Entries(root, paths).Some?;
    hide *;
    ListingIsExact(root, paths);
    VisibleShows(root, Entries(root, paths).value, listed);
    ArchiveRoundTrip(root, paths);
  }

  lemma DistinctSorted(paths: seq<JsString>)
    requires forall i, j | 0 <= i < j < |paths| :: paths[i] != paths[j]
    ensures forall i, j | 0 <= i < j < |Sort(paths)| :: Sort(paths)[i] != Sort(paths)[j]
  {
    var sorted := Sort(paths);
    SortSorts(paths);
    forall i, j | 0 <= i < j < |sorted|
      ensures sorted[i] != sorted[j]
    {
      if sorted[i] == sorted[j] {
        TwiceInMultiset(sorted, i, j);
        TwiceInSequence(paths, sorted[i]);
      }
    }
  }

  lemma TwiceInMultiset(s: seq<JsString>, i: nat, j: nat)
    requires i < j < |s| && s[i] == s[j]
    ensures multiset(s)[s[i]] >= 2
  {
    assert s == s[..j] + s[j..];
    assert s[i] in s[..j] && s[j] in s[j..];
  }

  lemma {:induction false} TwiceInSequence(s: seq<JsString>, x: JsString)
    requires multiset(s)[x] >= 2
    ensures exists i, j :: 0 <= i < j < |s| && s[i] == x && s[j] == x
  {
    var i :| 0 <= i < |s| && s[i] == x;
    assert s == s[..i] + [x] + s[i + 1..];
    if x in s[..i] {
      var k :| 0 <= k < i && s[..i][k] == x;
      assert s[k] == x;
    } else {
      assert x in s[i + 1..];
      var k :| 0 <= k < |s| - i - 1 && s[i + 1..][k] == x;
      assert s[i + 1 + k] == x;
    }
  }
}
