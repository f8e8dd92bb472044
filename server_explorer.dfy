/**
 * The tree-node builder of src/explorer/ServerExplorer.ts: a path prefix and
 * a flat listing become explorer display nodes. Under a `<controller>/weapons`
 * prefix, names with a '/' are folded into one synthesized folder node per
 * distinct first segment.
 */
module ServerExplorer {
  import opened Wrappers
  import opened JsString
  import opened Effects
  import opened ExplorerTypes

  /** The prefix with exactly one '/' appended when it is non-empty and lacks one. */
  function NormalizePrefix(prefix: string): (p: string)
    ensures p == "" <==> prefix == ""
    ensures p != "" ==> EndsWith(p, "/")
    ensures StartsWith(p, prefix) && |p| <= |prefix| + 1
    ensures EndsWith(prefix, "/") ==> p == prefix
  {
    if prefix != "" && !EndsWith(prefix, "/") then prefix + "/" else prefix
  }

  /**
   * For a request path `/x`, `x` non-empty and without a trailing '/', a
   * child's URI path is the request path, a '/', and the child's name.
   */
  lemma ChildOfRequestPath(path: string, name: string)
    requires 2 <= |path| && path[0] == '/' && path[|path| - 1] != '/'
    ensures "/" + (NormalizePrefix(Slice(path, 1)) + name) == path + "/" + name
  {
    var x := path[1..];
    assert Slice(path, 1) == x;
    assert x[|x| - 1] != '/';
    assert NormalizePrefix(x) == x + "/";
    assert path == "/" + x;
  }

  /** A bare name is read as the entry `{resource: name}`. */
  function ToEntry(item: Item): ExplorerEntry {
    match item
    case Name(n) => ExplorerEntry(n, None, None, None)
    case Entry(e) => e
  }

  /** The second '/'-separated segment of the prefix is "weapons". */
  predicate IsWeaponsPrefix(p: string) {
    var parts := Split(p, '/');
    |parts| > 1 && parts[1] == "weapons"
  }

  /** The entry's name has more than one '/'-separated piece. */
  predicate InFolder(e: ExplorerEntry) {
    |Split(e.resource, '/')| > 1
  }

  function FolderSegment(e: ExplorerEntry): string {
    Split(e.resource, '/')[0]
  }

  /** The node of an entry that is listed directly. */
  function LeafNode(kind: ResourceType, p: string, e: ExplorerEntry): GTreeNode {
    GTreeNode(GrcUri(p + e.resource), e.kind.GetOr(kind), None, e.labelText, e.isDirectory.GetOr(kind == Folder))
  }

  /** The folder node synthesized for the first weapon segment `segment`. */
  function FolderNode(p: string, segment: string): GTreeNode {
    GTreeNode(GrcUri(p + segment + "/"), WeaponsFolder, None, Some(segment), true)
  }

  /** The folder names (segment plus '/') of the first `n` entries that have one. */
  function Seen(list: seq<Item>, n: nat): set<string>
    requires n <= |list|
  {
    if n == 0 then {}
    else
      var e := ToEntry(list[n - 1]);
      Seen(list, n - 1) + (if InFolder(e) then {FolderSegment(e) + "/"} else {})
  }

  /** What entry `j` adds to the output. */
  function Emit(kind: ResourceType, p: string, w: bool, list: seq<Item>, j: nat): seq<GTreeNode>
    requires j < |list|
  {
    var e := ToEntry(list[j]);
    if w && InFolder(e) then
      if FolderSegment(e) + "/" in Seen(list, j) then [] else [FolderNode(p, FolderSegment(e))]
    else [LeafNode(kind, p, e)]
  }

  /** The nodes built from the first `n` entries under the normalised prefix `p`. */
  function Menu(kind: ResourceType, p: string, w: bool, list: seq<Item>, n: nat): seq<GTreeNode>
    requires n <= |list|
  {
    if n == 0 then [] else Menu(kind, p, w, list, n - 1) + Emit(kind, p, w, list, n - 1)
  }

  /** The result of `createContextMenu(kind, prefix, list)`. */
  function ContextMenu(kind: ResourceType, prefix: string, list: seq<Item>): seq<GTreeNode> {
    Menu(kind, NormalizePrefix(prefix), IsWeaponsPrefix(NormalizePrefix(prefix)), list, |list|)
  }

  /** `createContextMenu`: one pass over the listing with a set of folder names already emitted. */
  method CreateContextMenu(kind: ResourceType, prefix: string, list: seq<Item>) returns (nodes: seq<GTreeNode>)
    ensures nodes == ContextMenu(kind, prefix, list)
  {
    nodes := [];
    var nodeSet: set<string> := {};
    var p := prefix;
    if p != "" && !EndsWith(p, "/") {
      p := p + "/";
    }
    for i := 0 to |list|
      invariant p == NormalizePrefix(prefix)
      invariant nodes == Menu(kind, p, IsWeaponsPrefix(p), list, i)
      invariant IsWeaponsPrefix(p) ==> nodeSet == Seen(list, i)
    {
      var obj := ToEntry(list[i]);
      var parts := Split(p, '/');
      if |parts| > 1 && parts[1] == "weapons" && |Split(obj.resource, '/')| > 1 {
        var folderName := Split(obj.resource, '/')[0] + "/";
        assert folderName == FolderSegment(obj) + "/";
        if folderName !in nodeSet {
          assert SliceRange(folderName, 0, -1) == FolderSegment(obj);
          assert p + folderName == p + FolderSegment(obj) + "/";
          nodes := nodes + [GTreeNode(GrcUri(p + folderName), WeaponsFolder, None, Some(SliceRange(folderName, 0, -1)), true)];
          nodeSet := nodeSet + {folderName};
        }
      } else {
        nodes := nodes + [GTreeNode(GrcUri(p + obj.resource), obj.kind.GetOr(kind), None, obj.labelText, obj.isDirectory.GetOr(kind == Folder))];
      }
    }
  }

  // ---- The output in terms of the input ----

  /** No entry is folded: no weapons prefix, or no entry name with a '/'. */
  predicate NoneFolded(p: string, list: seq<Item>) {
    !IsWeaponsPrefix(p) || NoSlashEntries(list)
  }

  /** No entry name holds a '/'. */
  predicate NoSlashEntries(list: seq<Item>) {
    forall j :: 0 <= j < |list| ==> '/' !in ToEntry(list[j]).resource
  }

  /**
   * Without folding, the output has one node per entry, in input order; each
   * node's URI is `grc:///` + prefix + name, the entry's own kind, label and
   * directory flag win over the defaults (the builder's kind; directory iff
   * that kind is Folder), and the folder subtype is absent.
   */
  lemma {:induction false} MenuLeaves(kind: ResourceType, p: string, w: bool, list: seq<Item>, n: nat)
    requires n <= |list| && (!w || NoSlashEntries(list))
    ensures |Menu(kind, p, w, list, n)| == n
    ensures forall k :: 0 <= k < n ==>
      var e := ToEntry(list[k]);
      var node := Menu(kind, p, w, list, n)[k];
      && node.resource == GrcUri(p + e.resource)
      && node.kind == e.kind.GetOr(kind)
      && node.labelText == e.labelText
      && node.isDirectory == e.isDirectory.GetOr(kind == Folder)
      && node.folderType == None
    decreases n
  {
    if n > 0 {
      MenuLeaves(kind, p, w, list, n - 1);
      var e := ToEntry(list[n - 1]);
      if w {
        SplitMany(e.resource, '/');
      }
    }
  }

  /** `ContextMenu` in the same terms, for the prefix as the caller passes it. */
  lemma ContextMenuLeaves(kind: ResourceType, prefix: string, list: seq<Item>)
    requires NoneFolded(NormalizePrefix(prefix), list)
    ensures var r := ContextMenu(kind, prefix, list);
      && |r| == |list|
      && forall k :: 0 <= k < |list| ==>
        r[k] == LeafNode(kind, NormalizePrefix(prefix), ToEntry(list[k]))
  {
    var p := NormalizePrefix(prefix);
    MenuLeaves(kind, p, IsWeaponsPrefix(p), list, |list|);
  }

  /** A prefix of `b` stays a prefix of `b + e`. */
  lemma PrefixExtends<T>(a: seq<T>, b: seq<T>, e: seq<T>)
    requires |a| <= |b| && b[..|a|] == a
    ensures |a| <= |b + e| && (b + e)[..|a|] == a
  {
    assert (b + e)[..|a|] == b[..|a|];
  }

  /** The nodes of the first `m` entries are a prefix of those of the first `n`. */
  lemma {:induction false} MenuPrefix(kind: ResourceType, p: string, w: bool, list: seq<Item>, m: nat, n: nat)
    requires m <= n <= |list|
    ensures |Menu(kind, p, w, list, m)| <= |Menu(kind, p, w, list, n)|
    ensures Menu(kind, p, w, list, n)[..|Menu(kind, p, w, list, m)|] == Menu(kind, p, w, list, m)
    decreases n
  {
    var a := Menu(kind, p, w, list, m);
    if m < n {
      MenuPrefix(kind, p, w, list, m, n - 1);
      assert Menu(kind, p, w, list, n) == Menu(kind, p, w, list, n - 1) + Emit(kind, p, w, list, n - 1);
      PrefixExtends(a, Menu(kind, p, w, list, n - 1), Emit(kind, p, w, list, n - 1));
    } else {
      assert a[..|a|] == a;
    }
  }

  /** A folder name is in `Seen` exactly when some earlier entry has that folder. */
  lemma {:induction false} SeenMeaning(list: seq<Item>, n: nat, f: string)
    requires n <= |list|
    ensures f in Seen(list, n) <==>
      exists j :: 0 <= j < n && InFolder(ToEntry(list[j])) && FolderSegment(ToEntry(list[j])) + "/" == f
    decreases n
  {
    if n > 0 {
      SeenMeaning(list, n - 1, f);
    }
  }

  /** A leaf of an unfolded entry never coincides with a synthesized folder node. */
  lemma LeafIsNotFolder(kind: ResourceType, p: string, e: ExplorerEntry, segment: string)
    requires '/' !in e.resource
    ensures LeafNode(kind, p, e) != FolderNode(p, segment)
  {
    var a := "/" + p + e.resource;
    var b := "/" + p + segment + "/";
    assert a[|p| + 1..] == e.resource;
    assert b[|p| + 1..] == segment + "/";
    assert '/' in b[|p| + 1..];
    assert LeafNode(kind, p, e).resource.path == a && FolderNode(p, segment).resource.path == b;
  }

  lemma FolderNodeInjective(p: string, s: string, t: string)
    requires FolderNode(p, s) == FolderNode(p, t)
    ensures s == t
  {
    assert FolderNode(p, s).labelText == Some(s);
  }

  lemma AppendedSlashInjective(s: string, t: string)
    requires s + "/" == t + "/"
    ensures s == t
  {
    assert (s + "/")[..|s|] == s;
    assert (t + "/")[..|t|] == t;
  }

  /** Under a weapons prefix, the folder node for `s` is present iff `s/` was seen. */
  lemma {:induction false} MenuFolders(kind: ResourceType, p: string, w: bool, list: seq<Item>, n: nat, s: string)
    requires n <= |list| && w
    ensures FolderNode(p, s) in Menu(kind, p, w, list, n) <==> s + "/" in Seen(list, n)
    decreases n
  {
    if n > 0 {
      MenuFolders(kind, p, w, list, n - 1, s);
      var e := ToEntry(list[n - 1]);
      var em := Emit(kind, p, w, list, n - 1);
      assert Menu(kind, p, w, list, n) == Menu(kind, p, w, list, n - 1) + em;
      if InFolder(e) {
        if FolderNode(p, s) in em {
          FolderNodeInjective(p, s, FolderSegment(e));
        }
        if FolderSegment(e) + "/" == s + "/" {
          AppendedSlashInjective(FolderSegment(e), s);
        }
      } else {
        SplitMany(e.resource, '/');
        LeafIsNotFolder(kind, p, e, s);
      }
    }
  }

  /**
   * Under a weapons prefix, the output holds a folder node labelled `s` iff
   * some entry's name has the first segment `s` followed by a '/'.
   */
  lemma WeaponsFolderPresent(kind: ResourceType, prefix: string, list: seq<Item>, s: string)
    requires IsWeaponsPrefix(NormalizePrefix(prefix))
    ensures FolderNode(NormalizePrefix(prefix), s) in ContextMenu(kind, prefix, list) <==>
      exists j :: 0 <= j < |list| && InFolder(ToEntry(list[j])) && FolderSegment(ToEntry(list[j])) == s
  {
    var p := NormalizePrefix(prefix);
    MenuFolders(kind, p, true, list, |list|, s);
    SeenMeaning(list, |list|, s + "/");
    forall j | 0 <= j < |list| && InFolder(ToEntry(list[j])) && FolderSegment(ToEntry(list[j])) + "/" == s + "/"
      ensures FolderSegment(ToEntry(list[j])) == s
    {
      AppendedSlashInjective(FolderSegment(ToEntry(list[j])), s);
    }
  }

  /**
   * Under a weapons prefix, each entry adds at most one node, and a folder
   * node it adds is not among the earlier nodes.
   */
  lemma EmitFolderFresh(kind: ResourceType, p: string, w: bool, list: seq<Item>, j: nat, s: string)
    requires j < |list| && w
    ensures |Emit(kind, p, w, list, j)| <= 1
    ensures FolderNode(p, s) in Emit(kind, p, w, list, j) ==> FolderNode(p, s) !in Menu(kind, p, w, list, j)
  {
    var e := ToEntry(list[j]);
    MenuFolders(kind, p, w, list, j, s);
    if InFolder(e) {
      if FolderNode(p, s) in Emit(kind, p, w, list, j) {
        FolderNodeInjective(p, s, FolderSegment(e));
      }
    } else {
      SplitMany(e.resource, '/');
      LeafIsNotFolder(kind, p, e, s);
    }
  }

  /** `x` occurs at most once in `a`. */
  predicate AtMostOnce<T(==)>(a: seq<T>, x: T) {
    forall i, j :: 0 <= i < j < |a| && a[i] == x ==> a[j] != x
  }

  /** Appending at most one element that is new keeps an element occurring at most once. */
  lemma AtMostOnceAppend<T>(a: seq<T>, b: seq<T>, x: T)
    requires AtMostOnce(a, x) && |b| <= 1 && (x in b ==> x !in a)
    ensures AtMostOnce(a + b, x)
  {
    forall i, j | 0 <= i < j < |a + b| && (a + b)[i] == x
      ensures (a + b)[j] != x
    {
      if j >= |a| {
        assert (a + b)[j] == b[j - |a|] && b[j - |a|] in b;
        assert (a + b)[i] == a[i] && a[i] in a;
      }
    }
  }

  /** An element occurring at most once has multiplicity at most one. */
  lemma {:induction false} AtMostOnceCount<T>(a: seq<T>, x: T)
    requires AtMostOnce(a, x)
    ensures multiset(a)[x] <= 1
  {
    if |a| > 0 {
      var init := a[..|a| - 1];
      var last := a[|a| - 1];
      assert a == init + [last];
      assert AtMostOnce(init, x);
      AtMostOnceCount(init, x);
      assert multiset(a) == multiset(init) + multiset([last]);
      if last == x {
        assert x !in init;
      }
    }
  }

  /** Under a weapons prefix, no folder node occurs twice. */
  lemma {:induction false} MenuFolderOnce(kind: ResourceType, p: string, w: bool, list: seq<Item>, n: nat, s: string)
    requires n <= |list| && w
    ensures AtMostOnce(Menu(kind, p, w, list, n), FolderNode(p, s))
    decreases n
  {
    if n > 0 {
      MenuFolderOnce(kind, p, w, list, n - 1, s);
      EmitFolderFresh(kind, p, w, list, n - 1, s);
      AtMostOnceAppend(Menu(kind, p, w, list, n - 1), Emit(kind, p, w, list, n - 1), FolderNode(p, s));
    }
  }

  lemma WeaponsFolderOnce(kind: ResourceType, prefix: string, list: seq<Item>, s: string)
    requires IsWeaponsPrefix(NormalizePrefix(prefix))
    ensures multiset(ContextMenu(kind, prefix, list))[FolderNode(NormalizePrefix(prefix), s)] <= 1
  {
    MenuFolderOnce(kind, NormalizePrefix(prefix), true, list, |list|, s);
    AtMostOnceCount(ContextMenu(kind, prefix, list), FolderNode(NormalizePrefix(prefix), s));
  }

  /** `node` is what entry `j` contributes: its folder node if it is folded, else its leaf. */
  predicate Origin(kind: ResourceType, p: string, list: seq<Item>, j: nat, node: GTreeNode)
    requires j < |list|
  {
    if InFolder(ToEntry(list[j]))
    then node == FolderNode(p, FolderSegment(ToEntry(list[j])))
    else node == LeafNode(kind, p, ToEntry(list[j]))
  }

  /** `node` is contributed by one of the first `n` entries. */
  predicate HasOrigin(kind: ResourceType, p: string, list: seq<Item>, n: nat, node: GTreeNode)
    requires n <= |list|
  {
    exists j: nat :: j < n && Origin(kind, p, list, j, node)
  }

  /**
   * Under a weapons prefix, every node is the leaf of an entry without a '/'
   * or the folder node of the first segment of an entry with one.
   */
  lemma {:induction false} MenuOrigins(kind: ResourceType, p: string, w: bool, list: seq<Item>, n: nat)
    requires n <= |list| && w
    ensures forall k :: 0 <= k < |Menu(kind, p, w, list, n)| ==>
      HasOrigin(kind, p, list, n, Menu(kind, p, w, list, n)[k])
    decreases n
  {
    if n > 0 {
      MenuOrigins(kind, p, w, list, n - 1);
      var before := Menu(kind, p, w, list, n - 1);
      var r := Menu(kind, p, w, list, n);
      assert r == before + Emit(kind, p, w, list, n - 1);
      forall k | 0 <= k < |r|
        ensures HasOrigin(kind, p, list, n, r[k])
      {
        if k < |before| {
          assert r[k] == before[k];
          assert HasOrigin(kind, p, list, n - 1, before[k]);
          var j: nat :| j < n - 1 && Origin(kind, p, list, j, before[k]);
          assert Origin(kind, p, list, j, r[k]);
        } else {
          var j := n - 1;
          assert r[k] == Emit(kind, p, w, list, j)[0];
          if !InFolder(ToEntry(list[j])) {
            SplitMany(ToEntry(list[j]).resource, '/');
          }
          assert Origin(kind, p, list, j, r[k]);
        }
      }
    }
  }

  /**
   * Under a weapons prefix, the folder node of a segment sits right after the
   * nodes of the entries before the first entry with that segment.
   */
  lemma WeaponsFolderPosition(kind: ResourceType, prefix: string, list: seq<Item>, j: nat)
    requires j < |list|
    requires IsWeaponsPrefix(NormalizePrefix(prefix)) && InFolder(ToEntry(list[j]))
    requires forall i :: 0 <= i < j && InFolder(ToEntry(list[i])) ==>
      FolderSegment(ToEntry(list[i])) != FolderSegment(ToEntry(list[j]))
    ensures var p := NormalizePrefix(prefix);
      var r := ContextMenu(kind, prefix, list);
      var before := Menu(kind, p, true, list, j);
      && |before| < |r|
      && r[..|before|] == before
      && r[|before|] == FolderNode(p, FolderSegment(ToEntry(list[j])))
  {
    var p := NormalizePrefix(prefix);
    var x := FolderNode(p, FolderSegment(ToEntry(list[j])));
    FirstSegmentUnseen(list, j);
    assert Menu(kind, p, true, list, j + 1) == Menu(kind, p, true, list, j) + [x];
    MenuPrefix(kind, p, true, list, j + 1, |list|);
    PrefixSplit(ContextMenu(kind, prefix, list), Menu(kind, p, true, list, j), x);
  }

  /** A segment no earlier entry has is not yet in `Seen`. */
  lemma FirstSegmentUnseen(list: seq<Item>, j: nat)
    requires j < |list|
    requires forall i :: 0 <= i < j && InFolder(ToEntry(list[i])) ==>
      FolderSegment(ToEntry(list[i])) != FolderSegment(ToEntry(list[j]))
    ensures FolderSegment(ToEntry(list[j])) + "/" !in Seen(list, j)
  {
    var f := FolderSegment(ToEntry(list[j]));
    SeenMeaning(list, j, f + "/");
    if f + "/" in Seen(list, j) {
      var i :| 0 <= i < j && InFolder(ToEntry(list[i])) && FolderSegment(ToEntry(list[i])) + "/" == f + "/";
      AppendedSlashInjective(FolderSegment(ToEntry(list[i])), f);
      assert false;
    }
  }

  /** A sequence that starts with `before + [x]` starts with `before` and has `x` next. */
  lemma PrefixSplit<T>(r: seq<T>, before: seq<T>, x: T)
    requires |before + [x]| <= |r| && r[..|before + [x]|] == before + [x]
    ensures |before| < |r| && r[..|before|] == before && r[|before|] == x
  {
    assert r[..|before|] == (before + [x])[..|before|];
    assert r[|before|] == (before + [x])[|before|];
  }

  /** A bare name builds the same nodes as the entry `{resource: name}`. */
  lemma {:induction false} NamesAreEntries(kind: ResourceType, p: string, w: bool, list: seq<Item>, entries: seq<Item>, n: nat)
    requires |list| == |entries| && n <= |list|
    requires forall j :: 0 <= j < |list| ==>
      entries[j] == (if list[j].Name? then Entry(ExplorerEntry(list[j].name, None, None, None)) else list[j])
    ensures Menu(kind, p, w, list, n) == Menu(kind, p, w, entries, n)
    ensures Seen(list, n) == Seen(entries, n)
    decreases n
  {
    if n > 0 {
      NamesAreEntries(kind, p, w, list, entries, n - 1);
      assert ToEntry(list[n - 1]) == ToEntry(entries[n - 1]);
    }
  }
}
