/**
 * src/explorer/routes/FileBrowserRoute.ts: the game server's remote file
 * browser below `gserver/filebrowser`. Text files open in an editor and are
 * written back; other files are downloaded to the local disk.
 */
module FileBrowserRoute {
  import opened Wrappers
  import opened JsString
  import opened Effects
  import opened ExplorerTypes
  import opened ServerExplorer

  /** The extensions of the files that open in a text editor and can be written back. */
  const TextEditorExtensions: seq<string> := [".txt", ".nw", ".gani", ".json"]

  // ---- A last-separator model of Node's `path.basename`, `dirname` and `extname` ----

  /** The text after the last '/'. */
  function BaseName(p: string): (b: string)
    ensures '/' !in b && EndsWith(p, b)
  {
    p[LastIndexOf(p, '/') + 1..]
  }

  /** The text before the last '/'; "/" when that is the first character, "." without one. */
  function DirName(p: string): (d: string)
    ensures '/' !in p ==> d == "."
    ensures LastIndexOf(p, '/') == 0 ==> d == "/"
  {
    var i := LastIndexOf(p, '/');
    if i == -1 then "." else if i == 0 then "/" else p[..i]
  }

  /** The tail of `s` from `d` on is a suffix of `s` and starts with `s[d]`. */
  lemma TailEndsWith(s: string, d: nat)
    requires d < |s|
    ensures EndsWith(s, s[d..]) && s[d..][0] == s[d] && s[d..][1..] == s[d + 1..]
  {
  }

  /** From the last '.' of the base name on, unless that '.' is its first character. */
  function ExtName(p: string): (e: string)
    ensures e == "" || (e[0] == '.' && EndsWith(BaseName(p), e) && '.' !in e[1..])
  {
    var b := BaseName(p);
    var d := LastIndexOf(b, '.');
    if d <= 0 then ""
    else
      TailEndsWith(b, d);
      b[d..]
  }

  /** A path with a directory part is its directory, a '/', and its base name. */
  lemma DirNameBaseName(p: string)
    requires 0 < LastIndexOf(p, '/')
    ensures DirName(p) + "/" + BaseName(p) == p
  {
    var i := LastIndexOf(p, '/');
    assert p == p[..i] + [p[i]] + p[i + 1..];
  }

  /** The file `stem + ext`, for a dot-free non-empty stem, has the extension `ext`. */
  lemma ExtNameOf(dir: string, stem: string, ext: string)
    requires stem != [] && '/' !in stem && '.' !in stem
    requires |ext| >= 1 && ext[0] == '.' && '/' !in ext && '.' !in ext[1..]
    ensures BaseName(dir + "/" + stem + ext) == stem + ext
    ensures ExtName(dir + "/" + stem + ext) == ext
  {
    var p := dir + "/" + stem + ext;
    assert '/' !in stem + ext;
    assert p == dir + ['/'] + (stem + ext);
    LastIndexOfBefore(dir, '/', stem + ext);
    assert stem + ext == stem + ['.'] + ext[1..];
    LastIndexOfBefore(stem, '.', ext[1..]);
  }

  /** `textEditorExtensions.indexOf(path.extname(p)) >= 0`: the name ends in one of the listed extensions. */
  predicate IsTextFile(p: string): (b: bool)
    ensures b ==> ExtName(p) != "" && EndsWith(BaseName(p), ExtName(p))
    ensures !b ==> forall k :: 0 <= k < |TextEditorExtensions| ==> ExtName(p) != TextEditorExtensions[k]
  {
    ExtName(p) in TextEditorExtensions
  }

  /** The allow-list is exact: the extension must match it character for character. */
  lemma TextFilesExactly(dir: string, stem: string, ext: string)
    requires stem != [] && '/' !in stem && '.' !in stem
    requires |ext| >= 1 && ext[0] == '.' && '/' !in ext && '.' !in ext[1..]
    ensures IsTextFile(dir + "/" + stem + ext) <==> ext in TextEditorExtensions
  {
    ExtNameOf(dir, stem, ext);
  }

  // ---- Listing ----

  /** The entry a remote file becomes: its name as resource and label, a directory iff it is one. */
  function ListingEntry(f: FsEntry): ExplorerEntry {
    ExplorerEntry(f.name, None, Some(f.name), Some(f.kind == FsDirectory))
  }

  /** No remote entry name holds a '/'. */
  predicate NoSlashNames(fileList: seq<FsEntry>) {
    forall k :: 0 <= k < |fileList| ==> '/' !in fileList[k].name
  }

  /** The entry-mapping loop of `getChildren`. */
  method ListingItems(fileList: seq<FsEntry>) returns (items: seq<Item>)
    ensures |items| == |fileList|
    ensures forall k :: 0 <= k < |items| ==> items[k] == Entry(ListingEntry(fileList[k]))
  {
    items := [];
    for i := 0 to |fileList|
      invariant |items| == i
      invariant forall k :: 0 <= k < i ==> items[k] == Entry(ListingEntry(fileList[k]))
    {
      var item := fileList[i];
      items := items + [Entry(ExplorerEntry(item.name, None, Some(item.name), Some(item.kind == FsDirectory)))];
    }
  }

  /**
   * `getChildren` for the request path `path`, the route parameter
   * `pathParam` and the listing the session's `cd` answers with: nothing
   * without a session; otherwise a `cd` into the parameter (`""` when it is
   * absent or empty) and one node per remote entry, in remote order, named
   * and labelled by the entry and a directory exactly when the entry is one.
   */
  method GetChildren(path: string, pathParam: Option<string>, hasSession: bool, fileList: seq<FsEntry>)
    returns (cd: Option<Action>, nodes: Option<seq<GTreeNode>>)
    ensures cd.Some? <==> hasSession
    ensures nodes.Some? <==> hasSession
    ensures hasSession ==> cd.value == BrowserCd(pathParam.GetOr(""))
    ensures var p := NormalizePrefix(Slice(path, 1));
      hasSession && (!IsWeaponsPrefix(p) || NoSlashNames(fileList)) ==>
        && |nodes.value| == |fileList|
        && forall k :: 0 <= k < |fileList| ==>
             nodes.value[k] == GTreeNode(GrcUri(p + fileList[k].name), Folder, None,
                                         Some(fileList[k].name), fileList[k].kind == FsDirectory)
  {
    if !hasSession {
      return None, None;
    }
    var dir := pathParam.GetOr("");
    cd := Some(BrowserCd(dir));
    var items := ListingItems(fileList);
    var list := CreateContextMenu(Folder, Slice(path, 1), items);
    nodes := Some(list);
    var p := NormalizePrefix(Slice(path, 1));
    if !IsWeaponsPrefix(p) || NoSlashNames(fileList) {
      ContextMenuLeaves(Folder, Slice(path, 1), items);
      forall k | 0 <= k < |fileList|
        ensures list[k] == GTreeNode(GrcUri(p + fileList[k].name), Folder, None,
                                     Some(fileList[k].name), fileList[k].kind == FsDirectory)
      {
        assert list[k] == LeafNode(Folder, p, ListingEntry(fileList[k]));
      }
    }
  }

  // ---- Reading and writing ----

  /** `getRequest`: change to the file's directory, then fetch its base name; nothing without a session. */
  function GetRequest(pathParam: string, hasSession: bool): (r: seq<Action>)
    ensures !hasSession ==> r == []
    ensures hasSession ==> r == [BrowserCd(DirName(pathParam)), BrowserGet(BaseName(pathParam))]
  {
    if hasSession then [BrowserCd(DirName(pathParam)), BrowserGet(BaseName(pathParam))] else []
  }

  /** `putRequest`: only text files are written, into their directory under their base name. */
  function PutRequest(pathParam: string, content: string, hasSession: bool): (r: seq<Action>)
    ensures r != [] <==> IsTextFile(pathParam) && hasSession
    ensures r != [] ==> r == [BrowserCd(DirName(pathParam)), BrowserPut(BaseName(pathParam), content)]
  {
    if IsTextFile(pathParam) && hasSession then [BrowserCd(DirName(pathParam)), BrowserPut(BaseName(pathParam), content)]
    else []
  }

  /** A text file is read from and written to the same remote directory and name. */
  lemma ReadWriteSameFile(pathParam: string, content: string)
    requires IsTextFile(pathParam)
    ensures GetRequest(pathParam, true)[0] == PutRequest(pathParam, content, true)[0]
    ensures GetRequest(pathParam, true)[1].file == PutRequest(pathParam, content, true)[1].file
  {
  }

  // ---- Opening ----

  /** `vscode.Uri.parse(saveDir).path` for a local directory path: a path without a leading '/' gets one. */
  function SaveDirPath(saveDir: string): (p: string)
    ensures StartsWith(p, "/") && EndsWith(p, saveDir)
    ensures StartsWith(saveDir, "/") ==> p == saveDir
  {
    if StartsWith(saveDir, "/") then saveDir
    else
      assert ("/" + saveDir)[1..] == saveDir;
      "/" + saveDir
  }

  /**
   * `vscode.Uri.joinPath(vscode.Uri.parse(saveDir), base)`: a local file URI
   * whose path is the directory's path and the base name, joined by one '/'.
   */
  function SaveTarget(saveDir: string, base: string): (u: Uri)
    ensures u.scheme == "file" && u.query == ""
    ensures StartsWith(u.path, SaveDirPath(saveDir)) && EndsWith(u.path, "/" + base)
    ensures |u.path| <= |SaveDirPath(saveDir)| + 1 + |base|
  {
    var dir := SaveDirPath(saveDir);
    var joined := if EndsWith(dir, "/") then dir else dir + "/";
    assert EndsWith(joined, "/");
    Uri("file", joined + base, "")
  }

  /** `uri.toString()` for a URI without authority and query, leaving percent-encoding out. */
  function UriText(u: Uri): (s: string)
    ensures StartsWith(s, u.scheme + "://") && EndsWith(s, u.path)
  {
    u.scheme + "://" + u.path
  }

  /** The notice shown after a download: the base name, then the target's text. */
  function SavedMessage(base: string, target: Uri): (m: string)
    ensures StartsWith(m, "Saved " + base + " to ") && EndsWith(m, UriText(target))
  {
    "Saved " + base + " to " + UriText(target)
  }

  /** How the session's read of the file settles: with content, with nothing, or rejected with a reason. */
  datatype ReadReply = Fetched(data: string) | NothingFetched | FetchFailed(reason: string)

  /**
   * The handler `saveFileFn` attaches to the read of the file named `base`:
   * content that came back is written to the target's path and, unless that
   * write throws `writeError`, opened and announced; nothing coming back does
   * nothing; a rejected read or a throwing write ends in an error notice.
   */
  function AfterRead(target: Uri, base: string, reply: ReadReply, writeError: Option<string>): (r: seq<Action>)
    ensures |r| <= 3
  {
    match reply
    case NothingFetched => []
    case FetchFailed(reason) => [ShowError(reason)]
    case Fetched(data) =>
      match writeError
      case None => [WriteLocalFile(target.path, data), ExecuteOpen(target), ShowInformation(SavedMessage(base, target))]
      case Some(e) => [WriteLocalFile(target.path, data), ShowError(e)]
  }

  /**
   * The handler writes the content first, to the target's own path; when the
   * write goes through it then opens the target and announces the save last.
   * Without content it issues at most the error notice.
   */
  lemma AfterReadOrder(target: Uri, base: string, reply: ReadReply, writeError: Option<string>)
    ensures var r := AfterRead(target, base, reply, writeError);
      && (!reply.Fetched? ==> |r| <= 1)
      && (reply.Fetched? ==> |r| >= 2 && r[0] == WriteLocalFile(target.path, reply.data))
      && (reply.Fetched? && writeError.None? ==>
            r[1] == ExecuteOpen(target) && r[|r| - 1] == ShowInformation(SavedMessage(base, target)))
  {
  }

  /**
   * After a read made of browser calls, the handler never opens a dialog. It
   * writes locally exactly when content came back, opens and announces the
   * file exactly when that write went through too, and shows an error
   * exactly when the read or the write failed.
   */
  lemma AfterReadOutcomes(read: seq<Action>, target: Uri, base: string, reply: ReadReply, writeError: Option<string>)
    requires forall k :: 0 <= k < |read| ==> read[k].BrowserCd? || read[k].BrowserGet?
    ensures var r := read + AfterRead(target, base, reply, writeError);
      && (forall k :: 0 <= k < |r| ==> !r[k].ShowSaveDialog?)
      && ((exists k :: 0 <= k < |r| && r[k].WriteLocalFile?) <==> reply.Fetched?)
      && ((exists k :: 0 <= k < |r| && r[k].ExecuteOpen?) <==> reply.Fetched? && writeError.None?)
      && ((exists k :: 0 <= k < |r| && r[k].ShowInformation?) <==> reply.Fetched? && writeError.None?)
      && ((exists k :: 0 <= k < |r| && r[k].ShowError?) <==> reply.FetchFailed? || (reply.Fetched? && writeError.Some?))
  {
    var after := AfterRead(target, base, reply, writeError);
    var r := read + after;
    var n := |read|;
    if reply.FetchFailed? {
      assert r[n].ShowError?;
    } else if reply.Fetched? && writeError.None? {
      assert r[n].WriteLocalFile? && r[n + 1].ExecuteOpen? && r[n + 2].ShowInformation?;
    } else if reply.Fetched? {
      assert r[n].WriteLocalFile? && r[n + 1].ShowError?;
    }
  }

  /**
   * `saveFileFn(target)`: read the file, then run the handler on how the read
   * settled. Without a session there is no read and nothing else happens.
   */
  function SaveFile(target: Uri, pathParam: string, hasSession: bool, reply: ReadReply, writeError: Option<string>): (r: seq<Action>)
    ensures !hasSession ==> r == []
    ensures hasSession ==> r == GetRequest(pathParam, true) + AfterRead(target, BaseName(pathParam), reply, writeError)
  {
    GetRequest(pathParam, hasSession) + if hasSession then AfterRead(target, BaseName(pathParam), reply, writeError) else []
  }

  /**
   * A save never opens a dialog. With a session it writes locally exactly
   * when content came back, opens and announces the file exactly when that
   * write went through too, and shows an error exactly when the read or the
   * write failed; without one it does nothing.
   */
  lemma SaveOutcomes(target: Uri, pathParam: string, hasSession: bool, reply: ReadReply, writeError: Option<string>)
    ensures var r := SaveFile(target, pathParam, hasSession, reply, writeError);
      && (forall k :: 0 <= k < |r| ==> !r[k].ShowSaveDialog?)
      && ((exists k :: 0 <= k < |r| && r[k].WriteLocalFile?) <==> hasSession && reply.Fetched?)
      && ((exists k :: 0 <= k < |r| && r[k].ExecuteOpen?) <==> hasSession && reply.Fetched? && writeError.None?)
      && ((exists k :: 0 <= k < |r| && r[k].ShowInformation?) <==> hasSession && reply.Fetched? && writeError.None?)
      && ((exists k :: 0 <= k < |r| && r[k].ShowError?) <==>
            hasSession && (reply.FetchFailed? || (reply.Fetched? && writeError.Some?)))
  {
    if hasSession {
      var read, after := GetRequest(pathParam, true), AfterRead(target, BaseName(pathParam), reply, writeError);
      AfterReadOutcomes(read, target, BaseName(pathParam), reply, writeError);
      assert SaveFile(target, pathParam, hasSession, reply, writeError) == read + after;
    }
  }

  /**
   * The download of a file that does not open as text: silent into
   * `saveDir` when one is configured and the target does not exist there;
   * otherwise through a save dialog, and nothing more when it is dismissed.
   */
  function Download(pathParam: string, saveDir: string, targetExists: bool, dialogAnswer: Option<Uri>,
                    hasSession: bool, reply: ReadReply, writeError: Option<string>): (r: seq<Action>)
    ensures var target := SaveTarget(saveDir, BaseName(pathParam));
      && (saveDir != "" && !targetExists ==> r == SaveFile(target, pathParam, hasSession, reply, writeError))
      && (!(saveDir != "" && !targetExists) ==>
            && |r| >= 1 && r[0] == ShowSaveDialog(target)
            && (dialogAnswer.None? ==> r == [ShowSaveDialog(target)])
            && (dialogAnswer.Some? ==> r[1..] == SaveFile(dialogAnswer.value, pathParam, hasSession, reply, writeError)))
  {
    var target := SaveTarget(saveDir, BaseName(pathParam));
    if saveDir != "" && !targetExists then SaveFile(target, pathParam, hasSession, reply, writeError)
    else [ShowSaveDialog(target)] + match dialogAnswer
      case None => []
      case Some(u) => SaveFile(u, pathParam, hasSession, reply, writeError)
  }

  /** A save dialog is shown exactly when the download is not silent. */
  lemma DialogUnlessSilent(pathParam: string, saveDir: string, targetExists: bool, dialogAnswer: Option<Uri>,
                           hasSession: bool, reply: ReadReply, writeError: Option<string>)
    ensures var r := Download(pathParam, saveDir, targetExists, dialogAnswer, hasSession, reply, writeError);
      (exists k :: 0 <= k < |r| && r[k].ShowSaveDialog?) <==> !(saveDir != "" && !targetExists)
  {
    var r := Download(pathParam, saveDir, targetExists, dialogAnswer, hasSession, reply, writeError);
    var target := SaveTarget(saveDir, BaseName(pathParam));
    if !(saveDir != "" && !targetExists) {
      assert r[0].ShowSaveDialog?;
    } else {
      SaveOutcomes(target, pathParam, hasSession, reply, writeError);
    }
  }

  /**
   * `headRequest` on the resource `uri` for the route parameter `pathParam`,
   * with the configured `saveDir`, whether the local target already exists,
   * the save dialog's answer, how the session's read settles and what the
   * local write throws: only the `open` query acts; a text file opens in a
   * preview editor, any other file is downloaded.
   */
  function HeadRequest(uri: Uri, pathParam: string, saveDir: string, targetExists: bool,
                       dialogAnswer: Option<Uri>, hasSession: bool, reply: ReadReply,
                       writeError: Option<string>): (r: seq<Action>)
    ensures uri.query != "open" ==> r == []
    ensures uri.query == "open" && IsTextFile(pathParam) ==> r == [ShowTextDocument(uri, true)]
    ensures uri.query == "open" && !IsTextFile(pathParam) ==>
      r == Download(pathParam, saveDir, targetExists, dialogAnswer, hasSession, reply, writeError)
  {
    if uri.query != "open" then []
    else if IsTextFile(pathParam) then [ShowTextDocument(uri, true)]
    else Download(pathParam, saveDir, targetExists, dialogAnswer, hasSession, reply, writeError)
  }

  /** Opening a text file only shows it: nothing is fetched and nothing is written locally. */
  lemma OpenTextFileDownloadsNothing(uri: Uri, pathParam: string, saveDir: string, targetExists: bool,
                                     dialogAnswer: Option<Uri>, hasSession: bool, reply: ReadReply,
                                     writeError: Option<string>)
    requires uri.query == "open" && IsTextFile(pathParam)
    ensures forall a :: a in HeadRequest(uri, pathParam, saveDir, targetExists, dialogAnswer, hasSession, reply, writeError) ==>
      !a.BrowserGet? && !a.WriteLocalFile?
  {
  }
}
