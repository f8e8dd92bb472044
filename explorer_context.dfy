/**
 * src/explorer/ServerExplorerContext.ts: the older explorer provider. It
 * lists the NPC server's live NPC, class and weapon names and falls back to
 * a node's static children everywhere else.
 */
module ExplorerContext {
  import opened Wrappers
  import opened JsString
  import opened Effects
  import opened ExplorerView

  /** `getUrlSchemeForResource`: the path segment of a live list; None where it throws. */
  function UrlScheme(kind: ViewResourceType): (r: Option<string>)
    ensures r.Some? <==> kind in {ViewNpcs, ViewScripts, ViewWeapons}
    ensures kind == ViewNpcs ==> r == Some("NPCS")
    ensures kind == ViewScripts ==> r == Some("Scripts")
    ensures kind == ViewWeapons ==> r == Some("Weapons")
  {
    match kind
    case ViewNpcs => Some("NPCS")
    case ViewScripts => Some("Scripts")
    case ViewWeapons => Some("Weapons")
    case _ => None
  }

  /** The node of the live-list entry `item` under the segment `scheme`. */
  function ListNode(kind: ViewResourceType, scheme: string, item: string): (n: ViewNode)
    ensures n.resource.scheme == UriScheme && n.resource.query == ""
    ensures n.resource.path == "/npcserver/" + scheme + "/" + item
    ensures n.kind == kind && !n.isDirectory && n.children.None? && n.labelText.None?
  {
    ViewNode(GrcUri("npcserver/" + scheme + "/" + item), kind, None, None, false, None)
  }

  /**
   * The local `createContextMenu`: one non-directory node per item, in
   * order, at `grc:///npcserver/<segment>/<item>`. The segment is computed
   * per item, so a kind without one fails exactly when there is an item.
   */
  method CreateContextMenu(kind: ViewResourceType, list: seq<string>) returns (r: Result<seq<ViewNode>, string>)
    ensures r.Failure? <==> UrlScheme(kind).None? && |list| > 0
    ensures r.Success? ==> |r.value| == |list|
    ensures r.Success? ==> forall k :: 0 <= k < |list| ==> r.value[k] == ListNode(kind, UrlScheme(kind).value, list[k])
  {
    var res: seq<ViewNode> := [];
    for i := 0 to |list|
      invariant |res| == i
      invariant i > 0 ==> UrlScheme(kind).Some?
      invariant forall k :: 0 <= k < i ==> res[k] == ListNode(kind, UrlScheme(kind).value, list[k])
    {
      var scheme := UrlScheme(kind);
      if scheme.None? {
        return Failure("Invalid url scheme");
      }
      res := res + [ViewNode(GrcUri("npcserver/" + scheme.value + "/" + list[i]), kind, None, None, false, None)];
    }
    return Success(res);
  }

  /** What the session's NPC-server handle holds: NPC names, class names, weapon names. */
  datatype NpcLists = NpcLists(npcs: Option<seq<string>>, classes: Option<seq<string>>, weapons: Option<seq<string>>)

  /** The nodes of a live list of names of kind `kind`. */
  function LiveNodes(kind: ViewResourceType, names: seq<string>): (r: seq<ViewNode>)
    requires UrlScheme(kind).Some?
    ensures |r| == |names|
    ensures forall k :: 0 <= k < |names| ==> r[k] == ListNode(kind, UrlScheme(kind).value, names[k])
  {
    seq(|names|, k requires 0 <= k < |names| => ListNode(kind, UrlScheme(kind).value, names[k]))
  }

  /** The names a live list shows: none without the handle or without the list. */
  function Names(nc: Option<NpcLists>, kind: ViewResourceType): seq<string> {
    match nc
    case None => []
    case Some(l) =>
      (match kind
       case ViewNpcs => l.npcs
       case ViewScripts => l.classes
       case _ => l.weapons).GetOr([])
  }

  /** The live list of one kind: one node per name, or nothing when the session has none. */
  method LiveList(kind: ViewResourceType, nc: Option<NpcLists>) returns (nodes: seq<ViewNode>)
    requires UrlScheme(kind).Some?
    ensures nodes == LiveNodes(kind, Names(nc, kind))
  {
    var r := CreateContextMenu(kind, Names(nc, kind));
    nodes := r.value;
  }

  /** `getNpcList`: the NPC names, or nothing when the session has no NPC list. */
  method GetNpcList(nc: Option<NpcLists>) returns (nodes: seq<ViewNode>)
    ensures nodes == LiveNodes(ViewNpcs, Names(nc, ViewNpcs))
  {
    nodes := LiveList(ViewNpcs, nc);
  }

  /** `getScriptList`: the class names, or nothing. */
  method GetScriptList(nc: Option<NpcLists>) returns (nodes: seq<ViewNode>)
    ensures nodes == LiveNodes(ViewScripts, Names(nc, ViewScripts))
  {
    nodes := LiveList(ViewScripts, nc);
  }

  /** `getWeaponList`: the weapon names, or nothing. */
  method GetWeaponList(nc: Option<NpcLists>) returns (nodes: seq<ViewNode>)
    ensures nodes == LiveNodes(ViewWeapons, Names(nc, ViewWeapons))
  {
    nodes := LiveList(ViewWeapons, nc);
  }

  /** The non-empty pieces of a path, in order: `split('/').filter(v => v)`. */
  function NonEmpty(pieces: seq<string>): (r: seq<string>)
    ensures |r| <= |pieces|
    ensures "" !in r
    ensures forall x :: x in r ==> x in pieces
  {
    if |pieces| == 0 then []
    else (if |pieces[0]| == 0 then [] else [pieces[0]]) + NonEmpty(pieces[1..])
  }

  /** The route segments of a path: none is empty and none holds a '/'. */
  function Segments(path: string): (r: seq<string>)
    ensures forall k :: 0 <= k < |r| ==> r[k] != "" && '/' !in r[k]
  {
    var pieces := Split(path, '/');
    SplitPiecesFree(path, '/');
    assert forall x :: x in pieces ==> '/' !in x;
    NonEmpty(pieces)
  }

  lemma {:induction false} NonEmptyAppend(a: seq<string>, b: seq<string>)
    ensures NonEmpty(a + b) == NonEmpty(a) + NonEmpty(b)
  {
    if |a| == 0 {
      assert a + b == b;
    } else {
      NonEmptyAppend(a[1..], b);
      var h := if |a[0]| == 0 then [] else [a[0]];
      assert (a + b)[0] == a[0] && (a + b)[1..] == a[1..] + b;
      assert NonEmpty(a + b) == h + NonEmpty(a[1..] + b);
      AppendAssoc(h, NonEmpty(a[1..]), NonEmpty(b));
    }
  }

  /** A doubled '/' is read as a single one: empty segments are dropped before dispatch. */
  lemma DoubledSlashIgnored(a: string, b: string)
    ensures Segments(a + "//" + b) == Segments(a + "/" + b)
  {
    SplitAppend(a, '/', "/" + b);
    assert a + "//" + b == a + ['/'] + ("/" + b);
    SplitAppend([], '/', b);
    assert "/" + b == [] + ['/'] + b;
    SplitAppend(a, '/', b);
    assert a + "/" + b == a + ['/'] + b;
    NonEmptyAppend(Split(a, '/'), Split("/" + b, '/'));
    NonEmptyAppend(Split([], '/'), Split(b, '/'));
    NonEmptyAppend(Split(a, '/'), Split(b, '/'));
  }

  /** The live list a node's path asks for: `npcserver/` then a list segment, matched case-sensitively. */
  function LiveKind(path: string): (r: Option<ViewResourceType>)
    ensures r.Some? ==> UrlScheme(r.value).Some?
  {
    var d := Segments(path);
    if |d| > 1 && d[0] == "npcserver" then
      if d[1] == "NPCS" then Some(ViewNpcs)
      else if d[1] == "Scripts" then Some(ViewScripts)
      else if d[1] == "Weapons" then Some(ViewWeapons)
      else None
    else None
  }

  /**
   * `getChildren(node)`: the live list when the node's path asks for one;
   * otherwise, for gserver paths and every other path, the node's own
   * static children or nothing.
   */
  method GetChildren(node: ViewNode, nc: Option<NpcLists>) returns (r: seq<ViewNode>)
    ensures LiveKind(node.resource.path).Some? ==>
      r == LiveNodes(LiveKind(node.resource.path).value, Names(nc, LiveKind(node.resource.path).value))
    ensures LiveKind(node.resource.path).None? ==> r == node.children.GetOr([])
  {
    var dirList := Segments(node.resource.path);
    if |dirList| > 0 && dirList[0] == "npcserver" {
      if |dirList| > 1 && |dirList[1]| > 0 {
        if dirList[1] == "NPCS" {
          r := GetNpcList(nc);
          return;
        } else if dirList[1] == "Scripts" {
          r := GetScriptList(nc);
          return;
        } else if dirList[1] == "Weapons" {
          r := GetWeaponList(nc);
          return;
        }
      }
    }
    r := match node.children case Some(c) => c case None => [];
  }

  /** The segments of `/npcserver/<segment>`. */
  lemma ListPathSegments(segment: string)
    requires segment != "" && '/' !in segment
    ensures Segments("/" + ("npcserver" + "/" + segment)) == ["npcserver", segment]
  {
    var tail := "npcserver" + "/" + segment;
    SplitCons("npcserver", '/', segment);
    assert "npcserver" + "/" + segment == "npcserver" + ['/'] + segment;
    SplitCons([], '/', tail);
    assert "/" + tail == [] + ['/'] + tail;
    assert Split(segment, '/') == [segment] by {
      SplitMany(segment, '/');
      SplitHead(segment, '/');
    }
    assert Split("/" + tail, '/') == ["", "npcserver", segment];
    assert NonEmpty(["", "npcserver", segment])[..] == NonEmpty([""]) + NonEmpty(["npcserver", segment]) by {
      NonEmptyAppend([""], ["npcserver", segment]);
      assert [""] + ["npcserver", segment] == ["", "npcserver", segment];
    }
    NonEmptyAppend(["npcserver"], [segment]);
    assert ["npcserver"] + [segment] == ["npcserver", segment];
  }

  /** The default NPC-Server children open the live lists, whatever their static children. */
  lemma DefaultListsAreLive()
    ensures var kids := DefaultRootNodes()[1].children.value;
      && LiveKind(kids[0].resource.path) == Some(ViewNpcs)
      && LiveKind(kids[1].resource.path) == Some(ViewScripts)
      && LiveKind(kids[2].resource.path) == Some(ViewWeapons)
  {
    var kids := DefaultRootNodes()[1].children.value;
    assert kids[0].resource.path == "/" + ("npcserver" + "/" + "NPCS");
    assert kids[1].resource.path == "/" + ("npcserver" + "/" + "Scripts");
    assert kids[2].resource.path == "/" + ("npcserver" + "/" + "Weapons");
    ListPathSegments("NPCS");
    ListPathSegments("Scripts");
    ListPathSegments("Weapons");
  }

  // ---- requestContent ----

  /** The text after `controller/` has a non-empty first segment followed by '/'. */
  predicate SegmentThenSlash(rest: string) {
    1 <= IndexOf(rest, '/')
  }

  /** The pattern `(npcserver|gserver)/([^/]+)/(.*)` matches at the start of `s`. */
  predicate MatchesHere(s: string) {
    (StartsWith(s, "npcserver/") && SegmentThenSlash(s[10..]))
    || (StartsWith(s, "gserver/") && SegmentThenSlash(s[8..]))
  }

  /** The unanchored pattern matches somewhere in the path. */
  predicate ControllerPattern(path: string) {
    exists i :: 0 <= i <= |path| && MatchesHere(path[i..])
  }

  /**
   * `requestContent`: a `grc` resource whose path contains
   * `controller/segment/` opens in a non-preview editor; anything else is
   * ignored.
   */
  function RequestContent(resource: Uri): (r: Option<Action>)
    ensures r.Some? <==> resource.scheme == UriScheme && ControllerPattern(resource.path)
    ensures r.Some? ==> r.value == ShowTextDocument(resource, false)
  {
    if resource.scheme == UriScheme && ControllerPattern(resource.path) then Some(ShowTextDocument(resource, false))
    else None
  }

  /** A non-empty segment without '/' after `npcserver/` matches the pattern there. */
  lemma SegmentMatches(scheme: string, item: string)
    requires scheme != "" && '/' !in scheme
    ensures MatchesHere("npcserver/" + scheme + "/" + item)
  {
    var ctl := "npcserver/";
    var rest := scheme + "/" + item;
    assert ctl + scheme + "/" + item == ctl + rest;
    assert (ctl + rest)[..10] == ctl;
    assert (ctl + rest)[10..] == rest;
    assert rest == scheme + ['/'] + item;
    IndexOfAfter(scheme, '/', item);
  }

  /** Every list entry's own URI passes the validation, so selecting it opens it. */
  lemma ListNodeOpens(kind: ViewResourceType, item: string)
    requires UrlScheme(kind).Some?
    ensures RequestContent(ListNode(kind, UrlScheme(kind).value, item).resource).Some?
  {
    var rest := "npcserver/" + UrlScheme(kind).value + "/" + item;
    var path := ListNode(kind, UrlScheme(kind).value, item).resource.path;
    SegmentMatches(UrlScheme(kind).value, item);
    assert path == "/" + rest;
    assert path[1..] == rest;
    assert MatchesHere(path[1..]);
  }
}
