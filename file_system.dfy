/**
 * src/explorer/ServerExplorerFileSystem.ts: the `grc` file-system provider
 * through which editors read and write remote files. The provider's answers
 * (`getRequest`, `putRequest`) come in as parameters.
 */
module FileSystem {
  import opened Wrappers
  import opened JsString
  import opened Effects

  /** `stat`: always a file of size 0; NPC attributes and the level list are read-only. */
  function Stat(uri: Uri): (s: FileStat)
    ensures s.kind == FileKindFile && s.size == 0
    ensures s.permissions == Some(Readonly) <==> EndsWith(uri.path, ".attrs") || EndsWith(uri.path, "npclevellist")
    ensures s.permissions.None? <==> !(EndsWith(uri.path, ".attrs") || EndsWith(uri.path, "npclevellist"))
  {
    var attrs := if EndsWith(uri.path, ".attrs") then Some(Readonly) else None;
    var perms := if EndsWith(uri.path, "npclevellist") then Some(Readonly) else attrs;
    FileStat(FileKindFile, 0, perms)
  }

  /**
   * `readFile` given whether a session exists and what the provider's read
   * resolves to (`None` for `undefined`): Unavailable without a session;
   * otherwise the provider's content unchanged, or FileNotFound when there
   * is none.
   */
  function ReadFile(uri: Uri, hasSession: bool, provided: Option<string>): (r: Result<string, FsError>)
    ensures !hasSession ==> r == Failure(Unavailable(uri))
    ensures hasSession && provided.Some? ==> r == Success(provided.value)
    ensures hasSession && provided.None? ==> r == Failure(FileNotFound(Some(uri)))
  {
    if !hasSession then Failure(Unavailable(uri))
    else match provided
      case Some(v) => Success(v)
      case None => Failure(FileNotFound(Some(uri)))
  }

  /**
   * `writeFile` given whether a session exists and whether the provider's
   * `putRequest` accepted the write: Unavailable without a session,
   * FileNotFound when the write was not accepted, success otherwise.
   */
  function WriteFile(uri: Uri, hasSession: bool, accepted: bool): (r: Option<FsError>)
    ensures r.None? <==> hasSession && accepted
    ensures !hasSession ==> r == Some(Unavailable(uri))
    ensures hasSession && !accepted ==> r == Some(FileNotFound(Some(uri)))
  {
    if !hasSession then Some(Unavailable(uri))
    else if !accepted then Some(FileNotFound(Some(uri)))
    else None
  }

  /** Without a session, neither read nor write depends on what the provider would answer. */
  lemma NoSessionIgnoresProvider(uri: Uri, a: Option<string>, b: Option<string>, x: bool, y: bool)
    ensures ReadFile(uri, false, a) == ReadFile(uri, false, b)
    ensures WriteFile(uri, false, x) == WriteFile(uri, false, y)
  {
  }

  /** A read through a session succeeds exactly when the provider has content, and returns it unchanged. */
  lemma ReadPassesContentThrough(uri: Uri, provided: Option<string>)
    ensures ReadFile(uri, true, provided).Success? <==> provided.Some?
    ensures provided.Some? ==> ReadFile(uri, true, provided).value == provided.value
  {
  }

  /** `readDirectory`, `createDirectory`, `delete` and `rename` always fail. */
  function ReadDirectory(uri: Uri): (r: Result<seq<(string, FileKind)>, FsError>)
    ensures r == Failure(NotImplemented)
  {
    Failure(NotImplemented)
  }

  function CreateDirectory(uri: Uri): (r: Option<FsError>)
    ensures r == Some(NotImplemented)
  {
    Some(NotImplemented)
  }

  function Delete(uri: Uri, recursive: bool): (r: Option<FsError>)
    ensures r == Some(NotImplemented)
  {
    Some(NotImplemented)
  }

  function Rename(oldUri: Uri, newUri: Uri, overwrite: bool): (r: Option<FsError>)
    ensures r == Some(NotImplemented)
  {
    Some(NotImplemented)
  }
}
