/** The explorer's node and entry records. */
module ExplorerTypes {
  import opened Wrappers
  import opened Effects

  /**
   * The kinds of explorer resources. `WeaponsFolder` is the kind given to
   * the folder nodes synthesized for nested weapon names.
   */
  datatype ResourceType = File | Folder | NpcsFolder | Npcs | Scripts | Weapons | WeaponsFolder

  datatype FolderType = FileBrowser | NpcList | WeaponList | ScriptList

  /** A display node of the explorer tree. */
  datatype GTreeNode = GTreeNode(
    resource: Uri,
    kind: ResourceType,
    folderType: Option<FolderType>,
    labelText: Option<string>,
    isDirectory: bool)

  /** A listing entry; absent fields are None. */
  datatype ExplorerEntry = ExplorerEntry(
    resource: string,
    kind: Option<ResourceType>,
    labelText: Option<string>,
    isDirectory: Option<bool>)

  /** An element of a listing: a bare name or an entry record. */
  datatype Item = Name(name: string) | Entry(entry: ExplorerEntry)

  /**
   * What a route sees of the remote-control session: whether it exposes the
   * NPC-server handle under the name `nc` and under the name `NpcControl`
   * (the routes use both). The file browser is always present.
   */
  datatype Session = Session(nc: bool, npcControl: bool)

  /**
   * The outcome of a content-request starter `(resolve, reject) => boolean`:
   * it issued at most one session request and returned true, or it returned
   * false after passing `reject` a function that throws `error` when it is
   * called. Calling that function is up to whoever runs the starter. No
   * starter calls `resolve` itself.
   */
  datatype ContentStart = Requested(request: Option<Action>) | Rejected(error: FsError)

  /** The `"open"` query handler shared by the routes: show the resource in an editor. */
  function OpenOnQuery(uri: Uri, preview: bool): (r: Option<Action>)
    ensures r.Some? <==> uri.query == "open"
    ensures r.Some? ==> r.value == ShowTextDocument(uri, preview)
  {
    if uri.query == "open" then Some(ShowTextDocument(uri, preview)) else None
  }

  /** An entry with only a resource name and label. */
  function Labelled(resource: string, text: string): ExplorerEntry {
    ExplorerEntry(resource, None, Some(text), None)
  }
}
