/** src/explorer/routes/GServerRoute.ts: the folders below a game server's controller. */
module GServerRoute {
  import opened Wrappers
  import opened JsString
  import opened Effects
  import opened ExplorerTypes
  import opened ServerExplorer

  /** The listing `getChildren` hands to the tree-node builder. */
  const Listing: seq<Item> := [
    Entry(Labelled("config", "Config")), Entry(Labelled("players", "Players")),
    Entry(Labelled("filebrowser", "Filebrowser"))]

  /** No name of the listing has a '/', so nothing is folded. */
  lemma ListingNoneFolded(p: string)
    ensures NoneFolded(p, Listing)
  {
    assert ToEntry(Listing[0]).resource == "config";
    assert ToEntry(Listing[1]).resource == "players";
    assert ToEntry(Listing[2]).resource == "filebrowser";
  }

  /**
   * `getChildren`: `config`, `players` and `filebrowser`, in that order, as
   * folder directories at the request path (without its leading '/') plus
   * one '/' plus the child's name.
   */
  function GetChildren(path: string): (r: seq<GTreeNode>)
    ensures var p := NormalizePrefix(Slice(path, 1));
      r == [GTreeNode(GrcUri(p + "config"), Folder, None, Some("Config"), true),
            GTreeNode(GrcUri(p + "players"), Folder, None, Some("Players"), true),
            GTreeNode(GrcUri(p + "filebrowser"), Folder, None, Some("Filebrowser"), true)]
  {
    ListingNoneFolded(NormalizePrefix(Slice(path, 1)));
    ContextMenuLeaves(Folder, Slice(path, 1), Listing);
    ContextMenu(Folder, Slice(path, 1), Listing)
  }

  /**
   * For a request path `/x` with `x` non-empty and not ending in '/', each
   * child's URI path is the request path, a '/', and the child's name.
   */
  lemma ChildPaths(path: string)
    requires 2 <= |path| && path[0] == '/' && path[|path| - 1] != '/'
    ensures var r := GetChildren(path);
      && r[0].resource.path == path + "/" + "config"
      && r[1].resource.path == path + "/" + "players"
      && r[2].resource.path == path + "/" + "filebrowser"
  {
    var r := GetChildren(path);
    var p := NormalizePrefix(Slice(path, 1));
    assert r[0].resource.path == "/" + (p + "config");
    assert r[1].resource.path == "/" + (p + "players");
    assert r[2].resource.path == "/" + (p + "filebrowser");
    ChildOfRequestPath(path, "config");
    ChildOfRequestPath(path, "players");
    ChildOfRequestPath(path, "filebrowser");
  }
}
