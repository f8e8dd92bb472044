/**
 * src/explorer/routes/ScriptRoute.ts: NPC, class and weapon scripts below
 * `npcserver/<category>/<name>`, read and written through the session's
 * NPC-server handle.
 */
module ScriptRoute {
  import opened Wrappers
  import opened JsString
  import opened Effects
  import opened ExplorerTypes
  import opened Utils

  /** `getRequest`: the `open` query shows the script in a non-preview editor. */
  function GetRequest(uri: Uri): (r: Option<Action>)
    ensures r.Some? <==> uri.query == "open"
    ensures r.Some? ==> r.value == ShowTextDocument(uri, false)
  {
    OpenOnQuery(uri, false)
  }

  /** The request that fetches an NPC's part: attributes, flags or its script. */
  function NpcRequest(path: string, name: string): (a: Action)
    ensures a.RequestNpcAttributes? <==> EndsWith(path, ".attrs")
    ensures a.RequestNpcFlags? <==> !EndsWith(path, ".attrs") && EndsWith(path, ".flags")
    ensures a.RequestNpcScript? ==> a.name == name
    ensures a.RequestNpcAttributes? || a.RequestNpcFlags? || a.RequestNpcScript?
    ensures a.RequestNpcAttributes? || a.RequestNpcFlags? ==> a.name == if |name| >= 6 then name[..|name| - 6] else ""
  {
    if EndsWith(path, ".attrs") then RequestNpcAttributes(SliceRange(name, 0, -6))
    else if EndsWith(path, ".flags") then RequestNpcFlags(SliceRange(name, 0, -6))
    else RequestNpcScript(name)
  }

  /**
   * The starter returned by `getRequestContent` for the route parameters
   * `category` and `name` on the resource `uri`: the category is matched
   * ignoring case; a known one issues its request (none without the
   * session's `nc` handle) and returns true, any other rejects with a
   * function that throws FileNotFound for the resource, and returns false.
   */
  function GetRequestContent(category: string, name: string, session: Option<Session>, uri: Uri): (r: ContentStart)
    ensures r.Requested? <==> ToLower(category) in {"npcs", "scripts", "weapons"}
    ensures r.Rejected? ==> r.error == FileNotFound(Some(uri))
    ensures r.Requested? ==> (r.request.Some? <==> session.Some? && session.value.nc)
    ensures r.Requested? && r.request.Some? ==>
      r.request.value == match ToLower(category)
        case "npcs" => NpcRequest(uri.path, name)
        case "scripts" => RequestClass(name)
        case _ => RequestWeapon(name)
  {
    var nc := session.Some? && session.value.nc;
    match ToLower(category)
    case "npcs" => Requested(if nc then Some(NpcRequest(uri.path, name)) else None)
    case "scripts" => Requested(if nc then Some(RequestClass(name)) else None)
    case "weapons" => Requested(if nc then Some(RequestWeapon(name)) else None)
    case _ => Rejected(FileNotFound(Some(uri)))
  }

  /** Lower-casing is idempotent. */
  lemma ToLowerTwice(s: string)
    ensures ToLower(ToLower(s)) == ToLower(s)
  {
  }

  /** Reads dispatch on the category without regard to case. */
  lemma ReadIgnoresCase(category: string, name: string, session: Option<Session>, uri: Uri)
    ensures GetRequestContent(category, name, session, uri) == GetRequestContent(ToLower(category), name, session, uri)
  {
    ToLowerTwice(category);
  }

  /** `n.attrs` and `n.flags` request the attributes or flags of the NPC `n`. */
  lemma NpcSuffixStripped(n: string, suffix: string)
    requires suffix == ".attrs" || suffix == ".flags"
    ensures NpcRequest("/npcserver/npcs/" + n + suffix, n + suffix) ==
      if suffix == ".attrs" then RequestNpcAttributes(n) else RequestNpcFlags(n)
  {
    var path := "/npcserver/npcs/" + n + suffix;
    assert path[|path| - 6..] == suffix;
    assert (n + suffix)[..|n + suffix| - 6] == n;
    if suffix == ".flags" {
      assert path[|path| - 6..] != ".attrs";
    }
  }

  /** The name written to: the path pieces from index 3 on, rejoined with '/'. */
  function RequestPath(pieces: seq<string>): (r: string)
    requires |pieces| >= 4
    ensures StartsWith(r, pieces[3])
    ensures |pieces| == 4 ==> r == pieces[3]
    ensures |pieces| > 4 ==> '/' in r
  {
    Join(pieces[3..], "/")
  }

  /**
   * `putRequestContent` for the resource `uri` and the written text: a path
   * of fewer than four '/'-separated pieces fails FileNotFound for the
   * resource; below `npcserver` the category, ignoring case, picks the
   * setter, and an unknown category fails FileNotFound without a resource;
   * below any other controller nothing happens.
   */
  function PutRequestContent(uri: Uri, content: string, session: Option<Session>): (r: Result<Option<Action>, FsError>)
    ensures |Split(uri.path, '/')| < 4 ==> r == Failure(FileNotFound(Some(uri)))
    ensures var pieces := Split(uri.path, '/');
      |pieces| >= 4 ==>
        && (pieces[1] != "npcserver" ==> r == Success(None))
        && (pieces[1] == "npcserver" && ToLower(pieces[2]) !in {"npcs", "scripts", "weapons"} ==>
              r == Failure(FileNotFound(None)))
        && (pieces[1] == "npcserver" && ToLower(pieces[2]) in {"npcs", "scripts", "weapons"} ==>
              r.Success? && (r.value.Some? <==> session.Some? && session.value.nc))
    ensures r.Success? && r.value.Some? ==>
      r.value.value == WriteAction(ToLower(Split(uri.path, '/')[2]), RequestPath(Split(uri.path, '/')), content)
  {
    var pieces := Split(uri.path, '/');
    if |pieces| < 4 then Failure(FileNotFound(Some(uri)))
    else
      var name := RequestPath(pieces);
      var nc := session.Some? && session.value.nc;
      if pieces[1] != "npcserver" then Success(None)
      else match ToLower(pieces[2])
        case "npcs" => Success(if nc then Some(SetNpcScript(name, content)) else None)
        case "scripts" => Success(if nc then Some(SetClassScript(name, content)) else None)
        case "weapons" =>
          var (image, script) := SplitWeaponScript(content);
          Success(if nc then Some(SetWeaponScript(name, image, script)) else None)
        case _ => Failure(FileNotFound(None))
  }

  /** The setter for a lower-cased category other than "npcs" and "scripts": the weapon setter. */
  function WriteAction(category: string, name: string, content: string): (a: Action)
    ensures a.SetNpcScript? <==> category == "npcs"
    ensures a.SetClassScript? <==> category == "scripts"
    ensures a.SetWeaponScript? <==> category != "npcs" && category != "scripts"
    ensures a.name == name
    ensures !a.SetWeaponScript? ==> a.text == content
    ensures a.SetWeaponScript? ==> (a.image, a.script) == SplitWeaponScript(content)
  {
    if category == "npcs" then SetNpcScript(name, content)
    else if category == "scripts" then SetClassScript(name, content)
    else SetWeaponScript(name, SplitWeaponScript(content).0, SplitWeaponScript(content).1)
  }

  /** The pieces of `/<a>/<b>/<rest>` for separator-free `a` and `b`. */
  lemma {:induction false} ThreePieces(a: string, b: string, rest: string)
    requires '/' !in a && '/' !in b
    ensures Split("/" + a + "/" + b + "/" + rest, '/') == ["", a, b] + Split(rest, '/')
  {
    var tail := b + ['/'] + rest;
    var mid := a + ['/'] + tail;
    assert "/" + a + "/" + b + "/" + rest == [] + ['/'] + mid;
    calc {
      Split([] + ['/'] + mid, '/');
      { SplitCons([], '/', mid); }
      [""] + Split(mid, '/');
      { SplitCons(a, '/', tail); }
      [""] + ([a] + Split(tail, '/'));
      { SplitCons(b, '/', rest); }
      [""] + ([a] + ([b] + Split(rest, '/')));
      ["", a, b] + Split(rest, '/');
    }
  }

  /** The pieces of the path of `grc:///npcserver/<category>/<name>`. */
  lemma ScriptPathPieces(category: string, name: string)
    requires '/' !in category
    ensures Split(GrcUri("npcserver/" + category + "/" + name).path, '/')
      == ["", "npcserver", category] + Split(name, '/')
  {
    ThreePieces("npcserver", category, name);
    assert GrcUri("npcserver/" + category + "/" + name).path
      == "/" + "npcserver" + "/" + category + "/" + name;
  }

  /** Below `npcserver`, a known category with the NPC-server handle gives its setter. */
  lemma PutKnownCategory(uri: Uri, content: string, session: Option<Session>)
    requires var pieces := Split(uri.path, '/');
      |pieces| >= 4 && pieces[1] == "npcserver" && ToLower(pieces[2]) in {"npcs", "scripts", "weapons"}
    requires session.Some? && session.value.nc
    ensures var pieces := Split(uri.path, '/');
      PutRequestContent(uri, content, session)
      == Success(Some(WriteAction(ToLower(pieces[2]), RequestPath(pieces), content)))
  {
  }

  /** The request path of `npcserver/<category>/<name>` is `name`. */
  lemma ScriptRequestPath(category: string, name: string)
    requires '/' !in category
    ensures var pieces := Split(GrcUri("npcserver/" + category + "/" + name).path, '/');
      |pieces| >= 4 && pieces[1] == "npcserver" && pieces[2] == category && RequestPath(pieces) == name
  {
    ScriptPathPieces(category, name);
    var pieces := Split(GrcUri("npcserver/" + category + "/" + name).path, '/');
    assert pieces[3..] == Split(name, '/');
    JoinSplit(name, '/');
  }

  /**
   * Writing `npcserver/<category>/<name>` with the NPC-server handle sets the
   * script of exactly `name`, nested '/' pieces included; a weapon receives
   * the image and script that `splitWeaponScript` separates.
   */
  lemma NestedNamePreserved(category: string, name: string, content: string, session: Option<Session>)
    requires '/' !in category && ToLower(category) in {"npcs", "scripts", "weapons"}
    requires session.Some? && session.value.nc
    ensures var r := PutRequestContent(GrcUri("npcserver/" + category + "/" + name), content, session);
      r == Success(Some(WriteAction(ToLower(category), name, content)))
  {
    var uri := GrcUri("npcserver/" + category + "/" + name);
    ScriptRequestPath(category, name);
    PutKnownCategory(uri, content, session);
  }
}
