/**
 * src/explorer/routes/ConfigRoute.ts: the server configuration files below
 * `gserver/config`, read and written through the remote-control session.
 */
module ConfigRoute {
  import opened Wrappers
  import opened JsString
  import opened Effects
  import opened ExplorerTypes
  import opened ServerExplorer

  const FolderConfig: string := "folderconfig"
  const ServerFlags: string := "serverflags"
  const ServerOptions: string := "serveroptions"
  const NpcLevelList: string := "npclevellist"

  /** `getFileStat`: a file of size 0, read-only exactly when the path ends in `folderconfig`. */
  function GetFileStat(path: string): (s: FileStat)
    ensures s.kind == FileKindFile && s.size == 0
    ensures s.permissions == Some(Readonly) <==> EndsWith(path, FolderConfig)
    ensures s.permissions == None <==> !EndsWith(path, FolderConfig)
  {
    FileStat(FileKindFile, 0, if EndsWith(path, FolderConfig) then Some(Readonly) else None)
  }

  /** The file node of a configuration file at prefix `p`. */
  function ConfigNode(p: string, name: string, text: string): GTreeNode {
    GTreeNode(GrcUri(p + name), File, None, Some(text), false)
  }

  /**
   * The configuration files a session offers, as (name, label) pairs in
   * listing order: the NPC level list only with the NPC-server handle.
   */
  function ConfigFiles(session: Option<Session>): (files: seq<(string, string)>)
    ensures session.None? ==> files == []
    ensures session.Some? ==> |files| == if session.value.npcControl then 4 else 3
    ensures session.Some? ==>
      && files[0] == (FolderConfig, "Folder Configuration")
      && files[1] == (ServerFlags, "Server Flags")
      && files[2] == (ServerOptions, "Server Options")
    ensures session.Some? && session.value.npcControl ==> files[3] == (NpcLevelList, "NPC LevelList")
  {
    if session.None? then []
    else
      [(FolderConfig, "Folder Configuration"), (ServerFlags, "Server Flags"), (ServerOptions, "Server Options")]
      + (if session.value.npcControl then [(NpcLevelList, "NPC LevelList")] else [])
  }

  /**
   * `getChildren`: one plain file node per configuration file the session
   * offers, in order, labelled and placed below the request path.
   */
  method GetChildren(path: string, session: Option<Session>) returns (nodes: seq<GTreeNode>)
    ensures |nodes| == |ConfigFiles(session)|
    ensures forall k :: 0 <= k < |nodes| ==>
      nodes[k] == ConfigNode(NormalizePrefix(Slice(path, 1)), ConfigFiles(session)[k].0, ConfigFiles(session)[k].1)
  {
    var items: seq<Item> := [];
    if session.Some? {
      items := items + [Entry(Labelled(FolderConfig, "Folder Configuration"))];
      items := items + [Entry(Labelled(ServerFlags, "Server Flags"))];
      items := items + [Entry(Labelled(ServerOptions, "Server Options"))];
      if session.value.npcControl {
        items := items + [Entry(Labelled(NpcLevelList, "NPC LevelList"))];
      }
    }
    ListingMatchesFiles(session, items);
    nodes := CreateContextMenu(File, Slice(path, 1), items);
    var p := NormalizePrefix(Slice(path, 1));
    ContextMenuLeaves(File, Slice(path, 1), items);
    forall k | 0 <= k < |nodes|
      ensures nodes[k] == ConfigNode(p, ConfigFiles(session)[k].0, ConfigFiles(session)[k].1)
    {
      assert nodes[k] == LeafNode(File, p, ToEntry(items[k]));
    }
  }

  /** The pushed entries are the labelled configuration files, none with a '/'. */
  lemma ListingMatchesFiles(session: Option<Session>, items: seq<Item>)
    requires session.None? ==> items == []
    requires session.Some? && !session.value.npcControl ==>
      items == [Entry(Labelled(FolderConfig, "Folder Configuration")), Entry(Labelled(ServerFlags, "Server Flags")),
                Entry(Labelled(ServerOptions, "Server Options"))]
    requires session.Some? && session.value.npcControl ==>
      items == [Entry(Labelled(FolderConfig, "Folder Configuration")), Entry(Labelled(ServerFlags, "Server Flags")),
                Entry(Labelled(ServerOptions, "Server Options")), Entry(Labelled(NpcLevelList, "NPC LevelList"))]
    ensures |items| == |ConfigFiles(session)|
    ensures forall k :: 0 <= k < |items| ==>
      items[k] == Entry(Labelled(ConfigFiles(session)[k].0, ConfigFiles(session)[k].1))
    ensures forall j :: 0 <= j < |items| ==> '/' !in ToEntry(items[j]).resource
  {
    var f := ConfigFiles(session);
    assert '/' !in FolderConfig && '/' !in ServerFlags && '/' !in ServerOptions && '/' !in NpcLevelList;
    forall j | 0 <= j < |items|
      ensures items[j] == Entry(Labelled(f[j].0, f[j].1)) && '/' !in ToEntry(items[j]).resource
    {
      if j == 0 {
        assert items[j] == Entry(Labelled(FolderConfig, "Folder Configuration"));
      } else if j == 1 {
        assert items[j] == Entry(Labelled(ServerFlags, "Server Flags"));
      } else if j == 2 {
        assert items[j] == Entry(Labelled(ServerOptions, "Server Options"));
      } else {
        assert items[j] == Entry(Labelled(NpcLevelList, "NPC LevelList"));
      }
    }
  }

  /** `headRequest`: the `open` query shows the file in a non-preview editor. */
  function HeadRequest(uri: Uri): (r: Option<Action>)
    ensures r.Some? <==> uri.query == "open"
    ensures r.Some? ==> r.value == ShowTextDocument(uri, false)
  {
    OpenOnQuery(uri, false)
  }

  /**
   * `getRequest` for the route parameter `name`: the session accessor that
   * reads that file, or nothing for an unknown name or a missing session.
   */
  function GetRequest(name: string, session: Option<Session>): (r: Option<Action>)
    ensures r.Some? ==> session.Some?
    ensures session.Some? && name == FolderConfig ==> r == Some(RequestFolderConfig)
    ensures session.Some? && name == ServerFlags ==> r == Some(RequestServerFlags)
    ensures session.Some? && name == ServerOptions ==> r == Some(RequestServerOptions)
    ensures name == NpcLevelList ==>
      (r == if session.Some? && session.value.npcControl then Some(RequestLevelList) else None)
    ensures name !in {FolderConfig, ServerFlags, ServerOptions, NpcLevelList} ==> r == None
  {
    if session.None? then None
    else if name == FolderConfig then Some(RequestFolderConfig)
    else if name == ServerFlags then Some(RequestServerFlags)
    else if name == ServerOptions then Some(RequestServerOptions)
    else if name == NpcLevelList then (if session.value.npcControl then Some(RequestLevelList) else None)
    else None
  }

  /**
   * `putRequest` for the route parameter `name` and the written text: the
   * session setter of that file, or nothing for an unknown name or a
   * missing session.
   */
  function PutRequest(name: string, session: Option<Session>, content: string): (r: Option<Action>)
    ensures r.Some? ==> session.Some?
    ensures session.Some? && name == FolderConfig ==> r == Some(SetFolderConfig(content))
    ensures session.Some? && name == ServerFlags ==> r == Some(SetServerFlags(content))
    ensures session.Some? && name == ServerOptions ==> r == Some(SetServerOptions(content))
    ensures name == NpcLevelList ==>
      (r == if session.Some? && session.value.npcControl then Some(UpdateLevelList(content)) else None)
    ensures name !in {FolderConfig, ServerFlags, ServerOptions, NpcLevelList} ==> r == None
  {
    if session.None? then None
    else if name == FolderConfig then Some(SetFolderConfig(content))
    else if name == ServerFlags then Some(SetServerFlags(content))
    else if name == ServerOptions then Some(SetServerOptions(content))
    else if name == NpcLevelList then (if session.value.npcControl then Some(UpdateLevelList(content)) else None)
    else None
  }

  /** Every file that can be read can be written, and the other way round. */
  lemma ReadableIffWritable(name: string, session: Option<Session>, content: string)
    ensures GetRequest(name, session).Some? <==> PutRequest(name, session, content).Some?
  {
  }

  /** Every listed file is readable: the listing and the read dispatch agree. */
  lemma ListedFilesReadable(path: string, session: Option<Session>, name: string)
    requires session.Some?
    requires name == FolderConfig || name == ServerFlags || name == ServerOptions
      || (name == NpcLevelList && session.value.npcControl)
    ensures GetRequest(name, session).Some?
  {
  }
}
