/** src/explorer/routes/IndexRoute.ts: the two controller folders at the explorer's root. */
module IndexRoute {
  import opened Wrappers
  import opened JsString
  import opened Effects
  import opened ExplorerTypes
  import opened ServerExplorer

  /** The listing `getChildren` hands to the tree-node builder. */
  const Listing: seq<Item> := [Entry(Labelled("gserver", "GServer")), Entry(Labelled("npcserver", "NPC-Server"))]

  /** No name of the listing has a '/', so nothing is folded. */
  lemma ListingNoneFolded(p: string)
    ensures NoneFolded(p, Listing)
  {
    assert ToEntry(Listing[0]).resource == "gserver";
    assert ToEntry(Listing[1]).resource == "npcserver";
  }

  /** `getChildren` for a request whose URI path is `path`. */
  function GetChildren(path: string): (r: seq<GTreeNode>)
    ensures var p := NormalizePrefix(Slice(path, 1));
      r == [GTreeNode(GrcUri(p + "gserver"), Folder, None, Some("GServer"), true),
            GTreeNode(GrcUri(p + "npcserver"), Folder, None, Some("NPC-Server"), true)]
  {
    ListingNoneFolded(NormalizePrefix(Slice(path, 1)));
    ContextMenuLeaves(Folder, Slice(path, 1), Listing);
    ContextMenu(Folder, Slice(path, 1), Listing)
  }

  /** At the root path the children are `grc:///gserver` and `grc:///npcserver`. */
  lemma RootChildren()
    ensures GetChildren("/")[0].resource == Uri("grc", "/gserver", "")
    ensures GetChildren("/")[1].resource == Uri("grc", "/npcserver", "")
  {
    assert Slice("/", 1) == "";
  }
}
