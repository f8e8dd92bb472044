/** src/explorer/routes/NPCServerRoute.ts: the folders below the NPC server's controller. */
module NPCServerRoute {
  import opened Wrappers
  import opened JsString
  import opened Effects
  import opened ExplorerTypes
  import opened ServerExplorer

  /** The listing `getChildren` hands to the tree-node builder. */
  const Listing: seq<Item> := [
    Entry(ExplorerEntry("npcs", Some(NpcsFolder), Some("NPCs"), Some(true))),
    Entry(Labelled("scripts", "Scripts")), Entry(Labelled("weapons", "Weapons"))]

  /** No name of the listing has a '/', so nothing is folded. */
  lemma ListingNoneFolded(p: string)
    ensures NoneFolded(p, Listing)
  {
    assert ToEntry(Listing[0]).resource == "npcs";
    assert ToEntry(Listing[1]).resource == "scripts";
    assert ToEntry(Listing[2]).resource == "weapons";
  }

  /**
   * `getChildren`: `npcs`, `scripts` and `weapons`, in that order. The `npcs`
   * entry brings its own kind `NpcsFolder` and directory flag; the other two
   * take the folder defaults.
   */
  function GetChildren(path: string): (r: seq<GTreeNode>)
    ensures var p := NormalizePrefix(Slice(path, 1));
      r == [GTreeNode(GrcUri(p + "npcs"), NpcsFolder, None, Some("NPCs"), true),
            GTreeNode(GrcUri(p + "scripts"), Folder, None, Some("Scripts"), true),
            GTreeNode(GrcUri(p + "weapons"), Folder, None, Some("Weapons"), true)]
  {
    ListingNoneFolded(NormalizePrefix(Slice(path, 1)));
    ContextMenuLeaves(Folder, Slice(path, 1), Listing);
    ContextMenu(Folder, Slice(path, 1), Listing)
  }
}
