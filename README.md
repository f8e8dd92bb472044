# grc-vscode-ext, modelled in Dafny

A model of the decision logic in the GRC remote-control extension for
VS Code, with proofs about it. The extension connects to a Graal game server
over the remote-control (RC) protocol. It shows the server's contents as an
explorer tree and as a virtual file system under the `grc` URI scheme. It
also runs a pseudo-terminal for RC chat and lists servers by category.

The model covers these parts:

- the tree-node builder `createContextMenu`, including weapon-folder
  synthesis under a `…/weapons/` prefix (`server_explorer.dfy`);
- the route handlers: Index, GServer, NPCServer, Config, ConfigIndex,
  Script and FileBrowser (`*_route.dfy`);
- the weapon-script header parser `splitWeaponScript` (`utils.dfy`);
- the file-system bridge guards (`file_system.dfy`);
- the older explorer dispatch and the tree view mapping
  (`explorer_context.dfy`, `explorer_view.dfy`);
- the terminal line editor, its colouring helper, and the two owners of
  the buffered write queue (`terminal_view.dfy`, `terminal.dfy`,
  `terminal_context.dfy`);
- the session slot, the configuration merge and the chat formatting
  (`vscode_context.dfy`);
- the server-list bucketing and connect confirmation (`server_list.dfy`).

Shared modules:

- `JsString` gives the ECMAScript meaning of the string operations the code
  uses: `indexOf`, `substring` with its clamping and swapping, negative
  `slice` indices, `trim` over the ECMAScript white-space set, `split` and
  `join` on a one-character separator, `toLowerCase`, `toString` and
  `padStart`.
- `Effects` holds the URI record, the records the system exchanges with the
  remote session, and the `Action` datatype. Every call into the session,
  the editor or the terminal is an `Action` value. Pure handlers return
  actions. Stateful classes append them to an `effects` log.
- `ExplorerTypes` mirrors src/explorer/types.ts.
- `Wrappers` holds `Option` and `Result`.

How the source is represented:

- **URIs are a record, not a string.** A `vscode.Uri` is a record
  `Uri(scheme, path, query)`. `vscode.Uri.parse("grc:///" + rest)`, for a
  `rest` without `?` or `#`, is `GrcUri(rest)`, whose path is
  `"/" + rest`.
- **Code that mutates state is imperative Dafny.**
  - `RCTerminalView`, `RCTerminal`, `RCTerminalContext` and
    `VSCodeContext` are classes with the source's fields.
  - The loops of `createContextMenu` (both versions), the file-browser
    listing, `getServerList`, `colorText` and `writeBufferArray` are
    methods with loops. Each is proved equal to a
    reference function, and the properties are lemmas about that
    function.
- **The terminal's pty callbacks are methods.**
  - `RCTerminal.OpenView` is the pty `open` callback: it draws the input
    line, calls `onTerminalOpened`, and only then marks the view opened.
    Its contract proves that the flush inside the callback puts every
    buffered message back, unchanged and in order, until the next write.
  - `KeyPress` is `handleInput` followed by `onTerminalInput`.
- **The text the view emits is a sequence.** It is the view's `written`
  field, one element per `writeEmitter.fire`.
- **`ResourceType.weaponsfolder`** is used at src/explorer/ServerExplorer.ts:27
  but is not declared in src/explorer/types.ts:18-25. The model adds it as
  the seventh kind, `WeaponsFolder`.
- **Session capabilities are booleans.** The routes test the NPC-server
  handle under two names: `nc` in ScriptRoute.ts and `NpcControl` in
  ConfigRoute.ts and VSCodeContext.ts. `Session(nc, npcControl)` keeps them
  as two independent booleans. An optional method called with `?.()` is
  taken to be present whenever its object is.

## Model

| member | source | states |
|---|---|---|
| Utils.WithTrailingNewline | src/utils.ts:17-19 | the result ends with a newline; it is the input when the input already ends with one, and the input plus one newline otherwise |
| Utils.BodyStart | src/utils.ts:8-14 | the body starts within the script, right after the first newline or after the newline that follows it; at 0 when there is no newline |
| Utils.SplitWeaponScript | src/utils.ts:1-22 | the script part always ends with a newline and the image name has no white space at either end |
| Utils.NoHeader | src/utils.ts:2-4 | input without the `//#IMAGE:` header gives an empty image and the input, with a newline added when it lacks one |
| Utils.NewlineAfterHeader | src/utils.ts:4-6 | in a headed script the first newline is at or after offset 9, so the image slice is well formed |
| Utils.HeaderImage | src/utils.ts:4-6 | with the header and a newline, the image is the trimmed text from offset 9 to the first newline |
| Utils.HeaderBody | src/utils.ts:8-14 | exactly one blank line after the header line is dropped; the script is the rest after the header line and that optional blank line |
| Utils.HeaderWithoutNewline | src/utils.ts:5-14 | a headed script with no newline yields the 9-character header itself as the image (`substring(9, -1)`) and the whole input as the script |
| Utils.SplitRoundTrip | src/utils.ts:6-14 | splitting header + img + blank line + s gives back (trim(img), s) when img has no newline and s ends with one |
| ServerExplorer.NormalizePrefix | src/explorer/ServerExplorer.ts:12-14 | an empty prefix stays empty; any other prefix ends with `/`, gains at most one character, and is unchanged when it already ends with `/` |
| ServerExplorer.ChildOfRequestPath | src/explorer/ServerExplorer.ts:12-14 | for a request path `/a/b` the child URI path is the request path, `/`, then the name |
| ServerExplorer.CreateContextMenu | src/explorer/ServerExplorer.ts:8-45 | the loop with its seen-set computes exactly the reference function `ContextMenu`, and every property below holds for its output |
| ServerExplorer.MenuLeaves | src/explorer/ServerExplorer.ts:16-18 | without folding, there is one node per item in input order; each has URI `grc:///` + prefix + resource, and its type, label and directory flag come from the entry where it sets them, folder defaults otherwise |
| ServerExplorer.ContextMenuLeaves | src/explorer/ServerExplorer.ts:36-41 | when no entry is folded the result has the input's length and order, each node the leaf built from its entry |
| ServerExplorer.MenuPrefix | src/explorer/ServerExplorer.ts:16-42 | the output for the first m items is a prefix of the output for the first n items (m ≤ n): the loop only appends |
| ServerExplorer.SeenMeaning | src/explorer/ServerExplorer.ts:24-31 | a folder name is in the seen-set after n items exactly when one of those items lies in that folder |
| ServerExplorer.LeafIsNotFolder | src/explorer/ServerExplorer.ts:25-41 | a leaf without `/` in its resource never equals a synthesized folder node |
| ServerExplorer.FolderNodeInjective | src/explorer/ServerExplorer.ts:25-30 | distinct first segments give distinct folder nodes |
| ServerExplorer.MenuFolders | src/explorer/ServerExplorer.ts:21-33 | while folding weapons, a folder node for s is in the output exactly when s + `/` is in the seen-set |
| ServerExplorer.WeaponsFolderPresent | src/explorer/ServerExplorer.ts:21-33 | under a weapons prefix a folder node for s appears exactly when some entry's first segment is s |
| ServerExplorer.EmitFolderFresh | src/explorer/ServerExplorer.ts:24-32 | one item emits at most one node, and a folder node it emits is not already in the output |
| ServerExplorer.MenuFolderOnce | src/explorer/ServerExplorer.ts:24-32 | while folding weapons, each folder node occurs at most once in the output |
| ServerExplorer.WeaponsFolderOnce | src/explorer/ServerExplorer.ts:24-32 | under a weapons prefix each folder node occurs at most once (its multiset count is at most 1) |
| ServerExplorer.MenuOrigins | src/explorer/ServerExplorer.ts:21-41 | every output node is the leaf of an unfolded item or the folder of a folded item among the inputs |
| ServerExplorer.WeaponsFolderPosition | src/explorer/ServerExplorer.ts:24-31 | the folder node for a segment sits right after the output of the items before the first entry with that segment |
| ServerExplorer.FirstSegmentUnseen | src/explorer/ServerExplorer.ts:24-31 | before the first entry with a segment, that folder is not in the seen-set |
| ServerExplorer.NamesAreEntries | src/explorer/ServerExplorer.ts:17-18 | treating each bare name as the record `{resource: name}` changes neither the output nor the seen-set |
| Effects.GrcUri | src/explorer/ServerExplorer.ts:28 | a parsed `grc:///` URI has the `grc` scheme, no query, and path `/` + rest |
| IndexRoute.GetChildren | src/explorer/routes/IndexRoute.ts:7-10 | exactly two folder directory nodes, `gserver` then `npcserver`, labelled GServer and NPC-Server, under the request prefix |
| IndexRoute.ListingNoneFolded | src/explorer/routes/IndexRoute.ts:7-10 | no entry of the index listing is folded into a weapon folder |
| IndexRoute.RootChildren | src/explorer/routes/IndexRoute.ts:7 | for request path `/` the URIs are `grc:///gserver` and `grc:///npcserver` |
| GServerRoute.GetChildren | src/explorer/routes/GServerRoute.ts:8-12 | exactly `config`, `players`, `filebrowser`, in that order, as folder directory nodes labelled Config, Players, Filebrowser |
| GServerRoute.ListingNoneFolded | src/explorer/routes/GServerRoute.ts:8-12 | no entry of the listing is folded |
| GServerRoute.ChildPaths | src/explorer/routes/GServerRoute.ts:8 | each child's URI path is the request path, `/`, then the child name |
| NPCServerRoute.GetChildren | src/explorer/routes/NPCServerRoute.ts:8-12 | exactly `npcs` (its own type npcsfolder, a directory), `scripts` and `weapons` (folder directories), labelled NPCs, Scripts, Weapons |
| NPCServerRoute.ListingNoneFolded | src/explorer/routes/NPCServerRoute.ts:8-12 | no entry of the listing is folded |
| ExplorerTypes.OpenOnQuery | src/explorer/routes/ConfigRoute.ts:48-57 | the `open` query, and only it, shows the resource in an editor with the given preview flag |
| ConfigRoute.GetFileStat | src/explorer/routes/ConfigRoute.ts:13-28 | always a file of size 0; read-only exactly when the path ends in `folderconfig`, no permissions otherwise |
| ConfigRoute.ConfigFiles | src/explorer/routes/ConfigRoute.ts:33-42 | nothing without a session; with one, folderconfig, serverflags and serveroptions in order with their labels, and npclevellist last exactly when NpcControl is present |
| ConfigRoute.GetChildren | src/explorer/routes/ConfigRoute.ts:30-46 | the conditional pushes yield one non-directory file node per configuration file, in order, under the request prefix |
| ConfigRoute.ListingMatchesFiles | src/explorer/routes/ConfigRoute.ts:33-42 | the pushed items are exactly the configuration files with their labels, and none is folded |
| ConfigRoute.HeadRequest | src/explorer/routes/ConfigRoute.ts:48-57 | the `open` query, and only it, opens a non-preview editor |
| ConfigRoute.GetRequest | src/explorer/routes/ConfigRoute.ts:59-81 | each known name asks the session for its own file; the level list needs NpcControl; an unknown name or no session yields nothing |
| ConfigRoute.PutRequest | src/explorer/routes/ConfigRoute.ts:83-101 | each known name goes to its own setter with the content, the level list to `updateLevelList`; an unknown name or no session does nothing |
| ConfigRoute.ReadableIffWritable | src/explorer/routes/ConfigRoute.ts:59-101 | a file can be read exactly when it can be written |
| ConfigRoute.ListedFilesReadable | src/explorer/routes/ConfigRoute.ts:33-81 | every file the listing shows can be read |
| ConfigIndexRoute.GetFileStat | src/explorer/routes/ConfigIndexRoute.ts:6-19 | always a file of size 0, read-only exactly for paths ending in `folderconfig` |
| ConfigIndexRoute.GetChildren | src/explorer/routes/ConfigIndexRoute.ts:21-28 | always the three nodes folderconfig, serverflags, serveroptions, with no session check |
| ConfigIndexRoute.ListingNoneFolded | src/explorer/routes/ConfigIndexRoute.ts:23-27 | no entry of the listing is folded |
| ConfigIndexRoute.GetRequest | src/explorer/routes/ConfigIndexRoute.ts:30-41 | the `open` query, and only it, opens a non-preview editor |
| ConfigIndexRoute.GetRequestContent | src/explorer/routes/ConfigIndexRoute.ts:43-71 | a known name starts its request (when a session exists) and returns true; any other name calls `reject` with a function that throws FileNotFound for the resource, and returns false; the starter never resolves |
| ConfigIndexRoute.ListingAgreesWithConfigRoute | src/explorer/routes/ConfigIndexRoute.ts:21-28 | with a session, these three nodes are the first three of ConfigRoute's listing |
| ScriptRoute.GetRequest | src/explorer/routes/ScriptRoute.ts:15-36 | the `open` query, and only it, opens a non-preview editor |
| ScriptRoute.GetRequestContent | src/explorer/routes/ScriptRoute.ts:38-72 | npcs, scripts and weapons (any case) start one request through `nc` and return true; any other category calls `reject` with a function that throws FileNotFound for the resource, and returns false |
| ScriptRoute.ReadIgnoresCase | src/explorer/routes/ScriptRoute.ts:42 | the read outcome is the same for a category and its lower-case form |
| ScriptRoute.NpcRequest | src/explorer/routes/ScriptRoute.ts:44-50 | a path ending in `.attrs` requests attributes, else one ending in `.flags` requests flags, both for the name without its last 6 characters (empty when shorter); any other path requests the script of the whole name |
| ScriptRoute.NpcSuffixStripped | src/explorer/routes/ScriptRoute.ts:44-48 | an NPC path ending in `.attrs` or `.flags` requests attributes or flags for the name without its 6-character suffix |
| ScriptRoute.PutRequestContent | src/explorer/routes/ScriptRoute.ts:74-111 | fewer than 4 path pieces fail FileNotFound; a controller other than npcserver is a silent no-op; an unknown category (any case) throws FileNotFound without a URI; a known one writes the rejoined name through `nc` |
| ScriptRoute.ThreePieces | src/explorer/routes/ScriptRoute.ts:78 | splitting `/a/b/rest` on `/` gives "", a, b, then the pieces of rest |
| ScriptRoute.ScriptPathPieces | src/explorer/routes/ScriptRoute.ts:78-83 | a script URI splits into "", npcserver, the category, then the pieces of the name |
| ScriptRoute.ScriptRequestPath | src/explorer/routes/ScriptRoute.ts:78-83 | a script URI passes the length guard and rejoining its pieces from index 3 gives back the full name |
| ScriptRoute.RequestPath | src/explorer/routes/ScriptRoute.ts:83 | the rejoined name starts with the fourth piece, is that piece when there are exactly four, and holds a `/` when there are more |
| ScriptRoute.WriteAction | src/explorer/routes/ScriptRoute.ts:86-101 | `npcs` sets an NPC script, `scripts` a class script, anything else a weapon; the name is passed unchanged, the content is passed whole to the first two and split into image and script for a weapon |
| ScriptRoute.PutKnownCategory | src/explorer/routes/ScriptRoute.ts:84-101 | a known category with a session writes exactly one action built from the lower-cased category, the rejoined name and the content |
| ScriptRoute.NestedNamePreserved | src/explorer/routes/ScriptRoute.ts:83-100 | nested names such as `dir/weapon` reach the session unchanged; a weapons write splits the content into image and script |
| FileBrowserRoute.BaseName | src/explorer/routes/FileBrowserRoute.ts:101 | the base name has no `/` and ends the path |
| FileBrowserRoute.ExtName | src/explorer/routes/FileBrowserRoute.ts:56 | the extension is empty or a `.` followed by no other `.`, ending the base name |
| FileBrowserRoute.DirName | src/explorer/routes/FileBrowserRoute.ts:100 | a path without `/` has the directory `.`; a path whose last `/` is its first character has the directory `/` |
| FileBrowserRoute.DirNameBaseName | src/explorer/routes/FileBrowserRoute.ts:100-101 | directory, `/` and base name put back together give the path |
| FileBrowserRoute.ExtNameOf | src/explorer/routes/FileBrowserRoute.ts:56 | for dir/stem.ext the base name is stem.ext and the extension is ext |
| FileBrowserRoute.IsTextFile | src/explorer/routes/FileBrowserRoute.ts:56-58 | a text file has a non-empty extension that ends its base name; any other file's extension equals none of the four listed |
| FileBrowserRoute.TextFilesExactly | src/explorer/routes/FileBrowserRoute.ts:19 | a file counts as text exactly when its extension is one of `.txt`, `.nw`, `.gani`, `.json` |
| FileBrowserRoute.ListingItems | src/explorer/routes/FileBrowserRoute.ts:33-39 | one entry per remote file, in remote order, with resource and label the name and directory flag the entry type |
| FileBrowserRoute.GetChildren | src/explorer/routes/FileBrowserRoute.ts:22-48 | without a session nothing is listed or requested; with one, the directory change uses the path parameter or `""`, and each remote file becomes one folder-type node, a directory exactly when the entry is a directory |
| FileBrowserRoute.GetRequest | src/explorer/routes/FileBrowserRoute.ts:97-106 | with a session, change to the directory name and then get the base name; nothing without one |
| FileBrowserRoute.PutRequest | src/explorer/routes/FileBrowserRoute.ts:108-120 | only text files are written (cd then put of the base name with the content); other files and no session are dropped |
| FileBrowserRoute.ReadWriteSameFile | src/explorer/routes/FileBrowserRoute.ts:100-117 | read and write of a text file change to the same directory and address the same file |
| FileBrowserRoute.SaveDirPath | src/explorer/routes/FileBrowserRoute.ts:68 | the parsed save directory's path starts with `/`, ends with the configured text, and is that text when it is already absolute |
| FileBrowserRoute.SaveTarget | src/explorer/routes/FileBrowserRoute.ts:68 | the default target is a `file` URI without query whose path starts with the directory's path and ends with `/` and the base name, with a single separator between them |
| FileBrowserRoute.UriText | src/explorer/routes/FileBrowserRoute.ts:75 | the text of a URI starts with its scheme and `://` and ends with its path |
| FileBrowserRoute.SavedMessage | src/explorer/routes/FileBrowserRoute.ts:75 | the notice starts with `Saved <base name> to ` and ends with the target's text |
| FileBrowserRoute.AfterRead | src/explorer/routes/FileBrowserRoute.ts:71-77 | the handler run once the read settles issues at most three actions |
| FileBrowserRoute.AfterReadOrder | src/explorer/routes/FileBrowserRoute.ts:72-76 | with content the local write comes first, to the target's path; when it goes through, the open follows it and the notice comes last; without content at most one action (the error notice) is issued |
| FileBrowserRoute.AfterReadOutcomes | src/explorer/routes/FileBrowserRoute.ts:71-77 | after a read of browser calls there is never a dialog; a local write happens exactly when content came back; the open and the "Saved" notice happen exactly when that write did not throw; an error notice is shown exactly when the read was rejected or the write threw |
| FileBrowserRoute.SaveFile | src/explorer/routes/FileBrowserRoute.ts:70-78 | without a session the save does nothing; with one it is the directory change and get of the read, followed by the handler's actions for how the read settled |
| FileBrowserRoute.SaveOutcomes | src/explorer/routes/FileBrowserRoute.ts:70-78 | a save never opens a dialog; it writes locally exactly when there is a session and content came back, opens and announces exactly when that write also went through, and shows an error exactly when there is a session and the read was rejected or the write threw |
| FileBrowserRoute.Download | src/explorer/routes/FileBrowserRoute.ts:80-92 | with a save directory and an absent target the file is saved silently to the default target; otherwise a dialog opens on that target, a dismissed dialog does nothing more, and a chosen URI is saved to |
| FileBrowserRoute.DialogUnlessSilent | src/explorer/routes/FileBrowserRoute.ts:80-92 | a save dialog is shown exactly when the silent-save condition fails |
| FileBrowserRoute.HeadRequest | src/explorer/routes/FileBrowserRoute.ts:50-95 | only the `open` query acts: a text file opens in a preview editor, anything else goes to the download flow |
| FileBrowserRoute.OpenTextFileDownloadsNothing | src/explorer/routes/FileBrowserRoute.ts:58-64 | opening a text file neither fetches nor writes a file |
| FileSystem.Stat | src/explorer/ServerExplorerFileSystem.ts:37-56 | always a file of size 0; read-only exactly when the path ends in `.attrs` or `npclevellist` |
| FileSystem.ReadFile | src/explorer/ServerExplorerFileSystem.ts:58-74 | no session fails Unavailable; provided content is returned as is; no content fails FileNotFound |
| FileSystem.WriteFile | src/explorer/ServerExplorerFileSystem.ts:76-89 | succeeds exactly with a session and an accepting provider; it fails Unavailable without a session and FileNotFound when the provider declines |
| FileSystem.NoSessionIgnoresProvider | src/explorer/ServerExplorerFileSystem.ts:61-63 | without a session the outcome of reads and writes does not depend on the provider |
| FileSystem.ReadPassesContentThrough | src/explorer/ServerExplorerFileSystem.ts:65-72 | with a session a read succeeds exactly when content is provided, and returns that content |
| FileSystem.ReadDirectory | src/explorer/ServerExplorerFileSystem.ts:93-96 | always fails as not implemented |
| FileSystem.CreateDirectory | src/explorer/ServerExplorerFileSystem.ts:97-100 | always fails as not implemented |
| FileSystem.Delete | src/explorer/ServerExplorerFileSystem.ts:101-104 | always fails as not implemented |
| FileSystem.Rename | src/explorer/ServerExplorerFileSystem.ts:105-108 | always fails as not implemented |
| ExplorerContext.UrlScheme | src/explorer/ServerExplorerContext.ts:10-19 | npcs, scripts and weapons map to NPCS, Scripts, Weapons; every other type is an error |
| ExplorerContext.CreateContextMenu | src/explorer/ServerExplorerContext.ts:21-33 | one non-directory node per item, in order, at `grc:///npcserver/<scheme>/<item>`; it throws exactly when the type has no scheme and the list is not empty |
| ExplorerContext.ListNode | src/explorer/ServerExplorerContext.ts:25-29 | a list entry's node is the `grc` URI `/npcserver/<scheme>/<item>` without query, of the given kind, not a directory, with no children and no label |
| ExplorerContext.LiveNodes | src/explorer/ServerExplorerContext.ts:21-33 | the nodes of a live list correspond one to one, in order, to its names |
| ExplorerContext.LiveList | src/explorer/ServerExplorerContext.ts:35-53 | a live list is the nodes of the session's names, none when the session has no list |
| ExplorerContext.GetNpcList | src/explorer/ServerExplorerContext.ts:35-43 | the NPC nodes of the session's NPC names, none without them |
| ExplorerContext.GetScriptList | src/explorer/ServerExplorerContext.ts:45-48 | the script nodes of the session's class names, none without them |
| ExplorerContext.GetWeaponList | src/explorer/ServerExplorerContext.ts:50-53 | the weapon nodes of the session's weapon names, none without them |
| ExplorerContext.NonEmpty | src/explorer/ServerExplorerContext.ts:80 | the filtered segments contain no empty segment |
| ExplorerContext.Segments | src/explorer/ServerExplorerContext.ts:80 | no route segment of a path is empty or holds a `/` |
| ExplorerContext.NonEmptyAppend | src/explorer/ServerExplorerContext.ts:80 | filtering distributes over concatenation |
| ExplorerContext.DoubledSlashIgnored | src/explorer/ServerExplorerContext.ts:80 | a doubled slash leaves the segment list unchanged |
| ExplorerContext.LiveKind | src/explorer/ServerExplorerContext.ts:115-132 | a path dispatches to a live list only for a kind that has a URL scheme |
| ExplorerContext.GetChildren | src/explorer/ServerExplorerContext.ts:75-145 | `npcserver/` followed by exactly NPCS, Scripts or Weapons gives the live list; every other path gives the node's own children or none |
| ExplorerContext.ListPathSegments | src/explorer/ServerExplorerContext.ts:117-131 | the path of a list folder has exactly the segments npcserver and the list name |
| ExplorerContext.DefaultListsAreLive | src/explorer/ServerExplorerView.ts:186-188 | the three default NPC-Server folders dispatch to the NPC, script and weapon lists |
| ExplorerContext.RequestContent | src/explorer/ServerExplorerContext.ts:162-192 | a resource opens in an editor exactly when its scheme is `grc` and its path contains controller/segment/ |
| ExplorerContext.SegmentMatches | src/explorer/ServerExplorerContext.ts:168 | `npcserver/<scheme>/<item>` matches the validation pattern |
| ExplorerContext.ListNodeOpens | src/explorer/ServerExplorerContext.ts:26 | every node of a live list passes the open validation |
| ExplorerView.ContextValue | src/explorer/ServerExplorerView.ts:30-38 | each context value is a non-empty lower-case name |
| ExplorerView.ContextValueInjective | src/explorer/ServerExplorerView.ts:30-38 | distinct kinds have distinct context values |
| ExplorerView.MakeNode | src/explorer/ServerExplorerView.ts:40-48 | the node carries the parsed URI and exactly the given type, directory flag, children and folder type, with no label |
| ExplorerView.MakeNodeDefaults | src/explorer/ServerExplorerView.ts:40 | by default a node is a file, not a directory, with no children |
| ExplorerView.GetTreeItem | src/explorer/ServerExplorerView.ts:95-111 | the item shows the node's URI and label; it is collapsible exactly when the node is a directory, and otherwise carries the openResource command on its own URI; the context value names the kind |
| ExplorerView.TreeChildren | src/explorer/ServerExplorerView.ts:113-115 | no element gives the roots; an element gives the provider's children |
| ExplorerView.CommandTarget | src/explorer/ServerExplorerView.ts:132-135 | a context-menu command keeps the scheme and path and changes only the query |
| ExplorerView.CommandQuery | src/explorer/ServerExplorerView.ts:132-135 | each context-menu command puts one of `editflags`, `editscript`, `delete` |
| ExplorerView.CommandQueriesDistinct | src/explorer/ServerExplorerView.ts:132-135 | the three commands put distinct queries (`editflags`, `editscript`, `delete`) |
| ExplorerView.GetNode | src/explorer/ServerExplorerView.ts:154-161 | a node exists exactly when the active editor's URI has the `grc` scheme, and it is a plain file node for that URI |
| ExplorerView.DefaultRootNodes | src/explorer/ServerExplorerView.ts:163-192 | there are two roots, each a directory of the folder kind without folder type, holding three children |
| ExplorerView.DefaultRoots | src/explorer/ServerExplorerView.ts:163-192 | the roots are `grc:///gserver` labelled GServer, holding `gserver/Config` (with the Server Flags and Server Options files), `gserver/Players` and `gserver/Filebrowser` (folder type fileBrowser), and `grc:///npcserver` labelled NPC-Server, holding `npcserver/NPCS`, `npcserver/Scripts` and `npcserver/Weapons` (folder types npcList, scriptList, weaponList); every child is an unlabelled directory of the folder kind, and all but Config have no children |
| TerminalView.WriteFrames | src/rcterminal/RCTerminalView.ts:47-51 | a sequence of writes emits three frames per message |
| TerminalView.WriteFramesAt | src/rcterminal/RCTerminalView.ts:47-51 | the frames of message k are erase-line, the message plus CR LF, and the input line, at positions 3k to 3k+2 |
| TerminalView.WriteFramesSnoc | src/rcterminal/RCTerminalView.ts:47-51 | writing one more message appends exactly its three frames |
| TerminalView.RCTerminalView.constructor | src/rcterminal/RCTerminalView.ts:25-28 | a new view has the bare prompt as its line, is not opened and has emitted nothing |
| TerminalView.RCTerminalView.CloseTerminal | src/rcterminal/RCTerminalView.ts:38-40 | fires the close event and changes nothing else |
| TerminalView.RCTerminalView.ClearTerminal | src/rcterminal/RCTerminalView.ts:42-45 | emits the clear sequence and then the current line |
| TerminalView.RCTerminalView.WriteToTerminal | src/rcterminal/RCTerminalView.ts:47-51 | emits erase-line, the text plus CR LF, then the current input line |
| TerminalView.RCTerminalView.BeginOpen | src/rcterminal/RCTerminalView.ts:57 | the first step of `open` draws the input line and leaves the view not yet opened |
| TerminalView.RCTerminalView.FinishOpen | src/rcterminal/RCTerminalView.ts:57 | the last step of `open` marks the view opened |
| TerminalView.RCTerminalView.HandleInput | src/rcterminal/RCTerminalView.ts:59-94 | the line always starts with the prompt; enter delivers the line without the prompt, resets it and redraws the prompt; backspace at the bare prompt does nothing; otherwise it removes the last character and emits cursor-back and delete-char; any other key is appended and echoed |
| TerminalView.NextColor | src/rcterminal/RCTerminalView.ts:113-116 | the colour index advances cyclically through 1 to 6 |
| TerminalView.Wrap | src/rcterminal/RCTerminalView.ts:113 | a coloured character is a 10-character escape sequence with the colour digit and the character |
| TerminalView.ColoredAt | src/rcterminal/RCTerminalView.ts:108-118 | one loop step: space, CR and LF are copied, any other character is wrapped and the colour advances |
| TerminalView.ColorText | src/rcterminal/RCTerminalView.ts:105-120 | the loop computes exactly the reference colouring `Colored`, starting from colour 1 |
| TerminalView.Uncolor | src/rcterminal/RCTerminalView.ts:105-120 | removing the colour codes never lengthens a string |
| TerminalView.UncolorColored | src/rcterminal/RCTerminalView.ts:108-118 | removing the colour codes gives back the original text |
| TerminalView.ColoredLength | src/rcterminal/RCTerminalView.ts:108-118 | the output is 9 characters longer per coloured character |
| TerminalView.PlainCopied | src/rcterminal/RCTerminalView.ts:110-111 | text of only spaces, CR and LF is copied unchanged |
| TerminalView.Cycle | src/rcterminal/RCTerminalView.ts:113-116 | a colour cycle of length n has n digits |
| TerminalView.CycleAt | src/rcterminal/RCTerminalView.ts:113-116 | the j-th colour of a cycle from k is ((k - 1 + j) mod 6) + 1 |
| TerminalView.ColorsCycle | src/rcterminal/RCTerminalView.ts:113-116 | the colour digits used are 31 to 36 in cyclic order from 31, one per non-plain character: white space does not advance the colour |
| Terminal.InputEffects | src/rcterminal/RCTerminal.ts:52-64 | a line that trims to `/clear` calls out nothing, one that trims to `/backup` starts a backup, and any other line is sent untrimmed as chat exactly when a session exists |
| Terminal.RCTerminal.constructor | src/rcterminal/RCTerminal.ts:9-14 | no view, an empty buffer and no calls |
| Terminal.RCTerminal.Close | src/rcterminal/RCTerminal.ts:16-19 | closes the view if any and drops it, so later writes buffer again |
| Terminal.RCTerminal.Clear | src/rcterminal/RCTerminal.ts:21-23 | clears the view if there is one |
| Terminal.RCTerminal.Start | src/rcterminal/RCTerminal.ts:25-31 | idempotent while a view exists; otherwise makes a fresh, unopened view |
| Terminal.RCTerminal.Write | src/rcterminal/RCTerminal.ts:33-41 | with an opened view, every buffered message is emitted in order, then the text, and the buffer is empty; otherwise the text is appended to the buffer and nothing is emitted |
| Terminal.RCTerminal.WriteBufferArray | src/rcterminal/RCTerminal.ts:43-50 | a flush loses and reorders nothing: with an opened view every message is emitted in order, otherwise every message is buffered again in the same order |
| Terminal.RCTerminal.OnTerminalInput | src/rcterminal/RCTerminal.ts:52-64 | `/clear` clears the view, and the calls out are exactly those of the input rule |
| Terminal.RCTerminal.OnTerminalClosed | src/rcterminal/RCTerminal.ts:114-117 | disconnects the session and drops the view |
| Terminal.RCTerminal.OnTerminalOpened | src/rcterminal/RCTerminal.ts:119-121 | flushes the buffer as `writeBufferArray` does |
| Terminal.RCTerminal.OpenView | src/rcterminal/RCTerminalView.ts:57 | opening draws the line and marks the view opened; because `isOpen` is set after the callback, a view that was not yet opened keeps its whole buffer unchanged |
| Terminal.RCTerminal.KeyPress | src/rcterminal/RCTerminalView.ts:59-94 | a key that completes a line runs the input rule on the line without the prompt; any other key calls out nothing |
| TerminalContext.RCTerminalContext.constructor | src/rcterminal/RCTerminalContext.ts:5-10 | no view, an empty buffer and no calls |
| TerminalContext.RCTerminalContext.Close | src/rcterminal/RCTerminalContext.ts:12-15 | closes the view if any and drops it |
| TerminalContext.RCTerminalContext.Clear | src/rcterminal/RCTerminalContext.ts:17-19 | clears the view if there is one |
| TerminalContext.RCTerminalContext.Start | src/rcterminal/RCTerminalContext.ts:21-27 | idempotent while a view exists; otherwise makes a fresh, unopened view |
| TerminalContext.RCTerminalContext.Write | src/rcterminal/RCTerminalContext.ts:29-37 | buffered messages are emitted in order before the text once opened, and the buffer ends empty; before that the text is buffered in order |
| TerminalContext.RCTerminalContext.WriteBufferArray | src/rcterminal/RCTerminalContext.ts:39-46 | with an opened view every message is emitted in order; otherwise the buffer is kept as it was |
| TerminalContext.RCTerminalContext.OnTerminalInput | src/rcterminal/RCTerminalContext.ts:48-50 | every line is sent as chat unchanged when a session exists |
| TerminalContext.RCTerminalContext.OnTerminalClosed | src/rcterminal/RCTerminalContext.ts:52-55 | disconnects the session and drops the view |
| TerminalContext.RCTerminalContext.OnTerminalOpened | src/rcterminal/RCTerminalContext.ts:57-59 | flushes the buffer as `writeBufferArray` does |
| TerminalContext.RCTerminalContext.OpenView | src/rcterminal/RCTerminalView.ts:57 | as for RCTerminal: a view that was not yet opened keeps the whole buffer unchanged |
| TerminalContext.RCTerminalContext.KeyPress | src/rcterminal/RCTerminalView.ts:59-94 | a completed line without the prompt is sent as chat when a session exists |
| VSCodeContext.MergeConfig | src/VSCodeContext.ts:7-14 | each supplied field overrides the default and each missing field takes the default |
| VSCodeContext.MergeConfigExtremes | src/VSCodeContext.ts:36 | nothing supplied gives the defaults; everything supplied gives exactly what was supplied |
| VSCodeContext.DisconnectCall | src/VSCodeContext.ts:46-48 | the session in the slot, and only it, is disconnected; an empty slot calls nothing |
| VSCodeContext.ServerNameLabel | src/VSCodeContext.ts:60-67 | `RC (Disconnected)` with no session, `RC (Connected to <name>)` with one |
| VSCodeContext.LabelShape | src/VSCodeContext.ts:60-67 | the label's fifth character tells connected from disconnected, and the server name can be read back from a connected label |
| VSCodeContext.LabelIdentifiesServer | src/VSCodeContext.ts:60-67 | equal labels mean both states are connected or both disconnected, and to servers with the same name |
| VSCodeContext.TwoDigits | src/VSCodeContext.ts:81-83 | a clock field is written as exactly two characters |
| VSCodeContext.TwoDigitsIsPadded | src/VSCodeContext.ts:81-83 | the two characters are `toString` padded with `0` to width 2 |
| VSCodeContext.TwoDigitsValue | src/VSCodeContext.ts:81-83 | the two digits read back as the field's value |
| VSCodeContext.Timestamp | src/VSCodeContext.ts:81-86 | the stamp is `[HH:MM:SS]`, 10 characters, each field two digits |
| VSCodeContext.ChatLine | src/VSCodeContext.ts:71-90 | when the timestamp setting is exactly false the text is written alone; otherwise the stamp, a space and the text |
| VSCodeContext.LoginNickname | src/VSCodeContext.ts:96 | the nickname when non-empty, else the account, else empty; empty exactly when both are missing or empty |
| VSCodeContext.ConnectedLine | src/VSCodeContext.ts:101 | the announcement names the server, or `undefined` when the slot is empty |
| VSCodeContext.VSCodeContextState.constructor | src/VSCodeContext.ts:34-41 | the configuration is the merge of the defaults and the supplied fields; the slot is empty |
| VSCodeContext.VSCodeContextState.ConnectRemoteControl | src/VSCodeContext.ts:43-51 | starts the terminal, disconnects any existing session first, and installs a new, distinct session for the server |
| VSCodeContext.VSCodeContextState.DisconnectRemoteControl | src/VSCodeContext.ts:53-58 | leaves no session; a no-op when there is none |
| VSCodeContext.VSCodeContextState.OnRCChat | src/VSCodeContext.ts:71-90 | writes exactly the formatted chat line to the terminal |
| VSCodeContext.VSCodeContextState.OnNCChat | src/VSCodeContext.ts:128-147 | writes exactly the formatted NPC-server chat line |
| VSCodeContext.VSCodeContextState.OnRCConnected | src/VSCodeContext.ts:92-102 | sets the nickname on the session when there is one, retitles the explorer and announces the server |
| VSCodeContext.VSCodeContextState.OnRCDisconnected | src/VSCodeContext.ts:104-116 | clears the slot only when the event comes from the held session; always writes the disconnect message, the reason only when non-empty, then retitles |
| VSCodeContext.VSCodeContextState.OnNCConnected | src/VSCodeContext.ts:118-122 | asks for the weapon list exactly when a session with NPC control exists |
| ServerList.ServerNode | src/serverlist/ServerListContext.ts:35-39 | a server's node is `serverlist:///<name>`, labelled with the name and carrying the server |
| ServerList.InCategory | src/serverlist/ServerListContext.ts:34-35 | the servers kept for a category all have that category |
| ServerList.InCategoryMembers | src/serverlist/ServerListContext.ts:34-35 | a server is kept for a category exactly when it is reported with that category |
| ServerList.ServerNodes | src/serverlist/ServerListContext.ts:35-39 | one node per server, in order |
| ServerList.Push | src/serverlist/ServerListContext.ts:35 | adding a server keeps the number of buckets |
| ServerList.Fill | src/serverlist/ServerListContext.ts:34-40 | filling keeps the number of buckets |
| ServerList.FillBucket | src/serverlist/ServerListContext.ts:34-40 | each bucket ends with its own children followed by the servers of its category in arrival order; a bucket without a children list is unchanged |
| ServerList.NonEmptyBuckets | src/serverlist/ServerListContext.ts:42 | exactly the buckets with a non-empty children list survive the filter, in their relative order |
| ServerList.GetServerList | src/serverlist/ServerListContext.ts:30-47 | a failed request gives an empty list; otherwise the loop returns the filled, filtered buckets; a server whose category has no bucket makes the request fail |
| ServerList.ListedBucket | src/serverlist/ServerListContext.ts:34-42 | an empty default bucket is listed exactly when its category has servers, and then holds exactly those servers in order |
| ServerList.ConfirmMessage | src/serverlist/ServerListContext.ts:15-18 | the question names the server, with the disconnect note naming the current session's server when there is one |
| ServerList.ConfirmNotesSession | src/serverlist/ServerListContext.ts:15-18 | the disconnect note is present exactly when a session exists |
| ServerList.ConnectToServer | src/serverlist/ServerListContext.ts:14-28 | always asks with the answers Yes and No, and connects exactly when the answer is `Yes` |
| JsString.IndexOf | src/utils.ts:5 | the first position of the character, or -1 exactly when it is absent |
| JsString.IndexOfAfter | src/utils.ts:5 | after a piece without the separator, the first separator is at the piece's end |
| JsString.LastIndexOf | src/explorer/routes/FileBrowserRoute.ts:100-101 | the last position of the character, or -1 exactly when it is absent |
| JsString.LastIndexOfBefore | src/explorer/routes/FileBrowserRoute.ts:100-101 | before a tail without the separator, the last separator is at the tail's start |
| JsString.Clamp | src/utils.ts:6 | `substring` clamps an argument into the string and keeps an in-range one |
| JsString.Substring | src/utils.ts:6 | `substring` on in-range ends is the slice between them, and a negative end takes everything before the start |
| JsString.SliceIndex | src/utils.ts:14 | `slice` keeps an in-range index and counts a negative one from the end |
| JsString.Slice | src/utils.ts:14 | `slice(start)` on an in-range start is the suffix from it |
| JsString.SliceRange | src/explorer/ServerExplorer.ts:29 | `slice(start, -k)` drops the last k characters, and is empty when the end falls before the start |
| JsString.TrimStart | src/utils.ts:6 | removes exactly the leading white space |
| JsString.TrimEnd | src/utils.ts:6 | removes exactly the trailing white space |
| JsString.Trim | src/utils.ts:6 | the result has no white space at either end, and text without white space is unchanged |
| JsString.Split | src/explorer/routes/ScriptRoute.ts:78 | a split always has at least one piece |
| JsString.SplitPiecesFree | src/explorer/routes/ScriptRoute.ts:78 | no piece contains the separator |
| JsString.SplitMany | src/explorer/routes/ScriptRoute.ts:78-79 | there is more than one piece exactly when the separator occurs |
| JsString.SplitHead | src/explorer/ServerExplorer.ts:23 | the first piece is everything before the first separator |
| JsString.SplitCons | src/explorer/routes/ScriptRoute.ts:78 | a separator-free piece, a separator and a tail split into that piece and the tail's pieces |
| JsString.SplitAppend | src/explorer/routes/ScriptRoute.ts:78-83 | splitting at a separator splits the two sides independently |
| JsString.JoinSplit | src/explorer/routes/ScriptRoute.ts:83 | joining a split with its separator gives the string back |
| JsString.ToLowerChar | src/explorer/routes/ScriptRoute.ts:42 | upper-case ASCII letters become lower-case and everything else is unchanged |
| JsString.ToLower | src/explorer/routes/ScriptRoute.ts:42 | lower-casing works character by character and keeps the length |
| JsString.DigitChar | src/VSCodeContext.ts:81 | a digit becomes a character from 0 to 9 |
| JsString.DecimalString | src/VSCodeContext.ts:81 | `toString` of a natural number is non-empty decimal digits, one digit exactly below 10 |
| JsString.PadStart | src/VSCodeContext.ts:81 | `padStart` reaches the width, ends with the original, and fills the front with the pad character |

## Left out

- Logging: every `console.log`, and the stray `4` after the loop body of
  src/explorer/ServerExplorer.ts:34.
- The logging-only `headRequest` of src/explorer/routes/GServerRoute.ts:15-17
  and src/explorer/routes/NPCServerRoute.ts:15-17 has no model, because it
  has no effect.
- The ServerExplorer class constructor (src/explorer/ServerExplorer.ts:47-56)
  is wiring only.
- Route matching through `tiny-request-router`, `getResource`,
  `getChildrenNodes` and `getResourceContent` in ServerExplorerContext.ts
  are not part of this model. The route handlers are modelled directly, with
  the route parameters (`type`, `name`, `path`) as inputs.
- The VS Code API:
  - returned values stand for the promises;
  - the 5-second listing timeout (FileBrowserRoute.ts:44-46) is left out;
  - event emitters, command registration, tree views and icon paths are
    left out;
  - `watch` (ServerExplorerFileSystem.ts:32-35) returns a no-op disposable
    and is left out;
  - the pseudo-terminal's creation and `show` are left out.
- The order in which the promises of the file-browser save flow settle is
  not modelled. `SaveFile` takes how the read settled (`ReadReply`) and
  what the local write threw (`writeError`) as inputs. A failure of the
  `vscode.open` command, whose promise the handler does not wait for, is
  not modelled.
- The remote session library:
  - its calls are `Action` values and its replies are inputs;
  - which optional methods it defines is not modelled; a method called
    with `?.()` is treated as present whenever its object is.
- Clock reads are inputs: `Date.now` in the stat records is dropped; the
  hours, minutes and seconds of a chat stamp are parameters.
- Workspace configuration reads are inputs: the timestamp setting and the
  nickname and account settings.
- File-system I/O and the recursive `/backup` download are left out.
  - `fs.existsSync` is the input `targetExists`, and `fs.writeFileSync` is a
    `WriteLocalFile` action.
  - The download (src/rcterminal/RCTerminal.ts:66-112) is reduced to the
    `StartBackup` action.
- File contents (`Uint8Array`, `Buffer`) are their decoded text. The
  UTF-8 conversions by `toString` and `Buffer.from` are not modelled.
- FileBrowserRoute.BaseName: Node's `path.basename`, `path.dirname` and
  `path.extname` are approximated by the last `/` and the last `.`. Trailing
  separators and names that start with a dot are not treated the way Node
  does.
- FileBrowserRoute.SaveDirPath: `vscode.Uri.parse` of the save directory is
  modelled for a local POSIX path, adding the leading `/` when it is missing.
  A Windows path such as `C:\dl` (which parses with the scheme `c`), a
  `//host` prefix, `?`, `#` and percent escapes are not parsed the way
  VS Code does.
- FileBrowserRoute.SaveTarget: `vscode.Uri.joinPath` is modelled as joining
  with a single `/`. Its normalisation of `.`, `..` and repeated separators
  inside the directory path is not modelled.
- FileBrowserRoute.UriText: `Uri.toString` percent-encodes characters such
  as spaces; the model writes the path as it is. So the "Saved" notice
  differs from the source's for such names.
- ServerList.ServerNode: `vscode.Uri.parse("serverlist:///" + name)` is the
  path `/` + name. A name holding `?`, `#` or `%` is not parsed the way
  VS Code does.
- ConfigIndexRoute.GetRequestContent: a rejection is `Rejected(e)`. It stands
  for the function handed to `reject`, which throws `e` only when called.
  The code that runs the starter is not part of this model, so whether that
  function is ever called is not modelled.
- ScriptRoute.GetRequestContent: rejects in the same way, with the same gap.
- Effects.GrcUri: `vscode.Uri.parse` is modelled only for the `grc:///` URIs
  the code builds. Names containing `?`, `#` or percent escapes are not
  decoded the way VS Code does.
- JsString.ToLower: only ASCII letters are lowered. Other Unicode case
  mappings are not modelled.
- TerminalView.RCTerminalView.HandleInput: characters are Unicode scalar
  values, not UTF-16 code units. So a backspace after an astral character
  removes the whole character, where JavaScript removes one surrogate.
  `colorText` differs in the same way.
- The `async` of `handleInput` is not modelled. Each key is handled to
  completion.
- VSCodeContext.MergeConfig: a field present with the value `undefined` is treated as
  absent. In JavaScript it would override the default with `undefined`.
- ServerList.GetServerList: `ServerListView.getDefaultRootNodes()` is the
  parameter `roots`, because src/serverlist/serverlistview.ts is not part of
  this model.
- `onNCDisconnected` (src/VSCodeContext.ts:124-126) only logs.
- `VSCodeContext`'s calls into the terminal and the explorer view are
  `Action` values in its log. The terminal classes are modelled separately.
- A session is identified by a number. The identity test
  `this.rcInstance === instance` compares those numbers.
- src/explorer/routes/PlayersRoute.ts, src/extension.ts and src/gprovider.ts
  are not part of this model: they only log or wire things up.
