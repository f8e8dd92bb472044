/**
 * src/explorer/ServerExplorerView.ts: the older explorer's own node type,
 * the mapping of nodes to tree items, the context-menu commands and the
 * default root nodes.
 */
module ExplorerView {
  import opened Wrappers
  import opened Effects
  import ExplorerTypes

  /** This file's own resource kinds (it has no NPC-folder or weapons-folder kind). */
  datatype ViewResourceType = ViewFile | ViewFolder | ViewNpcs | ViewScripts | ViewWeapons

  /** A node of the older tree; `children` is None where the field is left undefined. */
  datatype ViewNode = ViewNode(
    resource: Uri,
    kind: ViewResourceType,
    folderType: Option<ExplorerTypes.FolderType>,
    labelText: Option<string>,
    isDirectory: bool,
    children: Option<seq<ViewNode>>)

  /** `getResourceContextValue`: the lower-case name of the kind, never empty. */
  function ContextValue(v: ViewResourceType): (r: string)
    ensures r != []
    ensures forall i :: 0 <= i < |r| ==> 'a' <= r[i] <= 'z'
  {
    match v
    case ViewFile => "file"
    case ViewFolder => "folder"
    case ViewNpcs => "npcs"
    case ViewScripts => "scripts"
    case ViewWeapons => "weapons"
  }

  /** Distinct kinds get distinct context values, so menus can tell every kind apart. */
  lemma ContextValueInjective(v: ViewResourceType, w: ViewResourceType)
    requires ContextValue(v) == ContextValue(w)
    ensures v == w
  {
    assert ContextValue(v)[0] == ContextValue(w)[0];
    if ContextValue(v)[0] == 'f' {
      assert ContextValue(v)[1] == ContextValue(w)[1];
    }
  }

  /**
   * `makeNode("grc:///" + rest, ...)`: a file that is not a directory and
   * has no children unless told otherwise; the label is left undefined.
   */
  function MakeNode(rest: string, kind: ViewResourceType := ViewFile, isDirectory: bool := false,
                    children: seq<ViewNode> := [], folderType: Option<ExplorerTypes.FolderType> := None): (n: ViewNode)
    ensures n.resource == GrcUri(rest) && n.labelText == None
    ensures n.kind == kind && n.isDirectory == isDirectory
    ensures n.children == Some(children) && n.folderType == folderType
  {
    ViewNode(GrcUri(rest), kind, folderType, None, isDirectory, Some(children))
  }

  /** `makeNode` with only a resource: the defaults. */
  lemma MakeNodeDefaults(rest: string)
    ensures MakeNode(rest) == ViewNode(GrcUri(rest), ViewFile, None, None, false, Some([]))
  {
  }

  /** The command a tree item runs when selected. */
  datatype Command = Command(command: string, arguments: seq<Uri>, title: string)

  /** `vscode.TreeItem` without its icon paths; `collapsed` stands for the Collapsed state. */
  datatype TreeItem = TreeItem(
    resourceUri: Uri,
    labelText: Option<string>,
    collapsed: bool,
    command: Option<Command>,
    contextValue: string)

  /**
   * `getTreeItem`: a directory is collapsible and runs no command; any
   * other node opens its own resource when selected.
   */
  function GetTreeItem(element: ViewNode): (t: TreeItem)
    ensures t.resourceUri == element.resource && t.labelText == element.labelText
    ensures t.collapsed <==> element.isDirectory
    ensures t.command.Some? <==> !element.isDirectory
    ensures t.command.Some? ==> t.command.value == Command("serverExplorerView.openResource", [element.resource], "Open Resource")
    ensures t.contextValue == ContextValue(element.kind)
  {
    TreeItem(element.resource, element.labelText, element.isDirectory,
      if element.isDirectory then None
      else Some(Command("serverExplorerView.openResource", [element.resource], "Open Resource")),
      ContextValue(element.kind))
  }

  /**
   * The tree data provider's `getChildren`: the roots without an element,
   * otherwise what the explorer provider answers for it (`fromProvider`).
   */
  function TreeChildren(element: Option<ViewNode>, roots: seq<ViewNode>, fromProvider: seq<ViewNode>): (r: seq<ViewNode>)
    ensures element.None? ==> r == roots
    ensures element.Some? ==> r == fromProvider
  {
    if element.None? then roots else fromProvider
  }

  /** The context-menu commands of the tree. */
  datatype MenuCommand = EditFlags | EditScript | DeleteEntry

  /** The query each context-menu command puts on the node's URI. */
  function CommandQuery(c: MenuCommand): (q: string)
    ensures q in {"editflags", "editscript", "delete"}
  {
    match c
    case EditFlags => "editflags"
    case EditScript => "editscript"
    case DeleteEntry => "delete"
  }

  /** The URI a context-menu command hands to the provider: the node's, with only the query replaced. */
  function CommandTarget(node: ViewNode, c: MenuCommand): (u: Uri)
    ensures u.scheme == node.resource.scheme && u.path == node.resource.path
    ensures u.query == CommandQuery(c)
  {
    node.resource.(query := CommandQuery(c))
  }

  /** Each command sets a different query. */
  lemma CommandQueriesDistinct(c: MenuCommand, d: MenuCommand)
    requires c != d
    ensures CommandQuery(c) != CommandQuery(d)
  {
    assert CommandQuery(c)[4] != CommandQuery(d)[4] || CommandQuery(c)[0] != CommandQuery(d)[0];
  }

  /** `getNode`: the active editor's document as a non-directory file node, only for `grc` URIs. */
  function GetNode(activeEditor: Option<Uri>): (r: Option<ViewNode>)
    ensures r.Some? <==> activeEditor.Some? && activeEditor.value.scheme == UriScheme
    ensures r.Some? ==> r.value == ViewNode(activeEditor.value, ViewFile, None, None, false, None)
  {
    match activeEditor
    case Some(u) => if u.scheme == UriScheme then Some(ViewNode(u, ViewFile, None, None, false, None)) else None
    case None => None
  }

  /** `getDefaultRootNodes`: two folders of three folders each. */
  function DefaultRootNodes(): (r: seq<ViewNode>)
    ensures |r| == 2
    ensures forall i :: 0 <= i < |r| ==>
      && r[i].kind == ViewFolder && r[i].isDirectory && r[i].folderType.None?
      && r[i].children.Some? && |r[i].children.value| == 3
  {
    [ ViewNode(GrcUri("gserver"), ViewFolder, None, Some("GServer"), true, Some([
        MakeNode("gserver/Config", ViewFolder, true, [
          MakeNode("gserver/config/Server Flags", ViewFile),
          MakeNode("gserver/config/Server Options", ViewFile)]),
        MakeNode("gserver/Players", ViewFolder, true),
        MakeNode("gserver/Filebrowser", ViewFolder, true, [], Some(ExplorerTypes.FileBrowser))])),
      ViewNode(GrcUri("npcserver"), ViewFolder, None, Some("NPC-Server"), true, Some([
        MakeNode("npcserver/NPCS", ViewFolder, true, [], Some(ExplorerTypes.NpcList)),
        MakeNode("npcserver/Scripts", ViewFolder, true, [], Some(ExplorerTypes.ScriptList)),
        MakeNode("npcserver/Weapons", ViewFolder, true, [], Some(ExplorerTypes.WeaponList))])) ]
  }

  /**
   * The roots are GServer and NPC-Server, two labelled folders. GServer holds
   * Config (with the server flags and options files), Players and the file
   * browser; NPC-Server holds the NPC, script and weapon lists, each tagged
   * with its list type. Every folder in the tree is a directory.
   */
  lemma DefaultRoots()
    ensures var r := DefaultRootNodes();
      && |r| == 2
      && r[0].labelText == Some("GServer") && r[1].labelText == Some("NPC-Server")
      && r[0].resource == GrcUri("gserver") && r[1].resource == GrcUri("npcserver")
      && r[0].isDirectory && r[1].isDirectory
      && |r[0].children.value| == 3 && |r[1].children.value| == 3
      && r[0].children.value[0].children == Some([MakeNode("gserver/config/Server Flags"), MakeNode("gserver/config/Server Options")])
      && r[0].children.value[2].folderType == Some(ExplorerTypes.FileBrowser)
      && r[1].children.value[0].folderType == Some(ExplorerTypes.NpcList)
      && r[1].children.value[1].folderType == Some(ExplorerTypes.ScriptList)
      && r[1].children.value[2].folderType == Some(ExplorerTypes.WeaponList)
      && r[0].children.value[0].resource == GrcUri("gserver/Config")
      && r[0].children.value[1].resource == GrcUri("gserver/Players")
      && r[0].children.value[2].resource == GrcUri("gserver/Filebrowser")
      && r[1].children.value[0].resource == GrcUri("npcserver/NPCS")
      && r[1].children.value[1].resource == GrcUri("npcserver/Scripts")
      && r[1].children.value[2].resource == GrcUri("npcserver/Weapons")
      && r[0].children.value[0].folderType.None? && r[0].children.value[1].folderType.None?
      && r[0].children.value[1].children == Some([]) && r[0].children.value[2].children == Some([])
      && r[1].children.value[0].children == Some([]) && r[1].children.value[1].children == Some([])
      && r[1].children.value[2].children == Some([])
      && (forall i, j :: 0 <= i < 2 && 0 <= j < 3 ==> r[i].children.value[j].labelText.None?)
      && forall i, j :: 0 <= i < 2 && 0 <= j < 3 ==>
           r[i].children.value[j].isDirectory && r[i].children.value[j].kind == ViewFolder
  {
  }
}
