/**
 * src/explorer/routes/ConfigIndexRoute.ts: the older configuration route,
 * which always lists three files and requests their content through a
 * promise starter.
 */
module ConfigIndexRoute {
  import opened Wrappers
  import opened JsString
  import opened Effects
  import opened ExplorerTypes
  import opened ServerExplorer
  import ConfigRoute

  /** The listing `getChildren` hands to the tree-node builder. */
  const Listing: seq<Item> := [
    Entry(Labelled("folderconfig", "Folder Configuration")),
    Entry(Labelled("serverflags", "Server Flags")),
    Entry(Labelled("serveroptions", "Server Options"))]

  /** No name of the listing has a '/', so nothing is folded. */
  lemma ListingNoneFolded(p: string)
    ensures NoneFolded(p, Listing)
  {
    assert ToEntry(Listing[0]).resource == "folderconfig";
    assert ToEntry(Listing[1]).resource == "serverflags";
    assert ToEntry(Listing[2]).resource == "serveroptions";
  }

  /** `getFileStat`: a file of size 0, read-only exactly when the path ends in `folderconfig`. */
  function GetFileStat(path: string): (s: FileStat)
    ensures s.kind == FileKindFile && s.size == 0
    ensures s.permissions == Some(Readonly) <==> EndsWith(path, ConfigRoute.FolderConfig)
    ensures s.permissions == None <==> !EndsWith(path, ConfigRoute.FolderConfig)
  {
    FileStat(FileKindFile, 0, if EndsWith(path, ConfigRoute.FolderConfig) then Some(Readonly) else None)
  }

  /** `getChildren`: the same three plain files whether or not a session exists. */
  function GetChildren(path: string): (r: seq<GTreeNode>)
    ensures var p := NormalizePrefix(Slice(path, 1));
      r == [ConfigRoute.ConfigNode(p, "folderconfig", "Folder Configuration"),
            ConfigRoute.ConfigNode(p, "serverflags", "Server Flags"),
            ConfigRoute.ConfigNode(p, "serveroptions", "Server Options")]
  {
    ListingNoneFolded(NormalizePrefix(Slice(path, 1)));
    ContextMenuLeaves(File, Slice(path, 1), Listing);
    ContextMenu(File, Slice(path, 1), Listing)
  }

  /** `getRequest`: the `open` query shows the file in a non-preview editor. */
  function GetRequest(uri: Uri): (r: Option<Action>)
    ensures r.Some? <==> uri.query == "open"
    ensures r.Some? ==> r.value == ShowTextDocument(uri, false)
  {
    OpenOnQuery(uri, false)
  }

  /**
   * The starter returned by `getRequestContent`, run for the route parameter
   * `name` on the resource `uri`: a known name issues its request (none
   * without a session) and returns true; any other name rejects with a
   * function that throws FileNotFound for the resource, and returns false.
   */
  function GetRequestContent(name: string, session: Option<Session>, uri: Uri): (r: ContentStart)
    ensures r.Requested? <==> name in {"folderconfig", "serverflags", "serveroptions"}
    ensures r.Rejected? ==> r.error == FileNotFound(Some(uri))
    ensures r.Requested? ==> (r.request.Some? <==> session.Some?)
    ensures r.Requested? && session.Some? ==>
      r.request.value == ConfigRoute.GetRequest(name, session).value
  {
    match name
    case "folderconfig" => Requested(if session.Some? then Some(RequestFolderConfig) else None)
    case "serverflags" => Requested(if session.Some? then Some(RequestServerFlags) else None)
    case "serveroptions" => Requested(if session.Some? then Some(RequestServerOptions) else None)
    case _ => Rejected(FileNotFound(Some(uri)))
  }

  /** The file list of this route is the session-less head of the newer route's. */
  lemma ListingAgreesWithConfigRoute(path: string, session: Option<Session>)
    requires session.Some?
    ensures forall k :: 0 <= k < 3 ==>
      GetChildren(path)[k] == ConfigRoute.ConfigNode(NormalizePrefix(Slice(path, 1)),
        ConfigRoute.ConfigFiles(session)[k].0, ConfigRoute.ConfigFiles(session)[k].1)
  {
  }
}
