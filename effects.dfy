/**
 * What the extension exchanges with the outside: editor URIs, the records the
 * remote-control library hands over, and every call the extension makes into
 * the remote-control session, the editor or the local disk, as an `Action`
 * value. Replies to those calls come back as parameters of the operations
 * that consume them.
 */
module Effects {
  import opened Wrappers

  /** The scheme of the virtual file system. */
  const UriScheme: string := "grc"

  /** A parsed editor URI; the authority is always empty in this extension. */
  datatype Uri = Uri(scheme: string, path: string, query: string)

  /** `vscode.Uri.parse("grc:///" + rest)` for a `rest` without '?' or '#'. */
  function GrcUri(rest: string): (u: Uri)
    ensures u.scheme == UriScheme && u.query == ""
    ensures u.path == "/" + rest
  {
    Uri(UriScheme, "/" + rest, "")
  }

  /** A game server as listed by the list server. */
  datatype ServerEntry = ServerEntry(name: string, category: nat)

  /** One entry of a remote file-browser directory listing. */
  datatype FsEntryType = FsFile | FsDirectory
  datatype FsEntry = FsEntry(name: string, kind: FsEntryType)

  /** `vscode.FileStat` without its clock fields. */
  datatype FileKind = FileKindFile | FileKindDirectory
  datatype FilePermission = Readonly
  datatype FileStat = FileStat(kind: FileKind, size: nat, permissions: Option<FilePermission>)

  /** The errors the virtual file system throws. */
  datatype FsError =
    | Unavailable(uri: Uri)
    | FileNotFound(missing: Option<Uri>)
    | NotImplemented

  datatype Action =
    // calls into the remote-control session
    | RequestFolderConfig
    | RequestServerFlags
    | RequestServerOptions
    | RequestLevelList
    | SetFolderConfig(text: string)
    | SetServerFlags(text: string)
    | SetServerOptions(text: string)
    | UpdateLevelList(text: string)
    | RequestNpcAttributes(name: string)
    | RequestNpcFlags(name: string)
    | RequestNpcScript(name: string)
    | RequestClass(name: string)
    | RequestWeapon(name: string)
    | SetNpcScript(name: string, text: string)
    | SetClassScript(name: string, text: string)
    | SetWeaponScript(name: string, image: string, script: string)
    | BrowserCd(dir: string)
    | BrowserGet(file: string)
    | BrowserPut(file: string, content: string)
    | SendRCChat(text: string)
    | SetNickName(nickname: string)
    | RequestWeaponList
    | OpenSession(session: nat, server: ServerEntry)
    | DisconnectSession(session: nat)
    // calls into the editor
    | ShowTextDocument(uri: Uri, preview: bool)
    | ShowSaveDialog(defaultUri: Uri)
    | ShowInformation(message: string)
    | ShowError(message: string)
    | AskConfirmation(message: string, choices: seq<string>)
    | ExecuteOpen(uri: Uri)
    | UpdateTitle(title: string)
    | StartBackup
    // calls into the remote-control terminal
    | TerminalStart
    | TerminalWrite(line: string)
    // the local disk
    | WriteLocalFile(path: string, content: string)
    // calls between the extension's own components
    | ConnectRemoteControl(server: ServerEntry)
    | DisconnectRemoteControl
}
