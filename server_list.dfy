/**
 * src/serverlist/ServerListContext.ts: the server list. It sorts the
 * servers the list server reports into one bucket per category, and it
 * connects to a server once the user confirms.
 */
module ServerList {
  import opened Wrappers
  import opened JsString
  import opened Effects
  import opened VSCodeContext

  /** `ServerlistNode`: a category bucket (with children) or a server (with its entry). */
  datatype ServerlistNode = ServerlistNode(
    resource: Uri,
    labelText: string,
    server: Option<ServerEntry>,
    children: Option<seq<ServerlistNode>>)

  /** The node for one server: `serverlist:///<name>` for a name without '?', '#' or '%', labelled with the name. */
  function ServerNode(s: ServerEntry): (n: ServerlistNode)
    ensures n.resource == Uri("serverlist", "/" + s.name, "")
    ensures n.labelText == s.name && n.server == Some(s) && n.children == None
  {
    ServerlistNode(Uri("serverlist", "/" + s.name, ""), s.name, Some(s), None)
  }

  /** The servers of category `c`, in the order they were reported. */
  function InCategory(servers: seq<ServerEntry>, c: nat): (r: seq<ServerEntry>)
    ensures |r| <= |servers|
    ensures forall k :: 0 <= k < |r| ==> r[k].category == c
  {
    if |servers| == 0 then []
    else
      InCategory(servers[..|servers| - 1], c)
      + (if servers[|servers| - 1].category == c then [servers[|servers| - 1]] else [])
  }

  /** A server is kept exactly when it has the category. */
  lemma {:induction false} InCategoryMembers(servers: seq<ServerEntry>, c: nat, s: ServerEntry)
    ensures s in InCategory(servers, c) <==> s in servers && s.category == c
  {
    if |servers| != 0 {
      var init := servers[..|servers| - 1];
      InCategoryMembers(init, c, s);
      assert servers == init + [servers[|servers| - 1]];
    }
  }

  function ServerNodes(servers: seq<ServerEntry>): (r: seq<ServerlistNode>)
    ensures |r| == |servers|
    ensures forall k :: 0 <= k < |servers| ==> r[k] == ServerNode(servers[k])
  {
    seq(|servers|, k requires 0 <= k < |servers| => ServerNode(servers[k]))
  }

  /** Adds one server node to the bucket of the server's category, when the bucket has a children list. */
  function Push(buckets: seq<ServerlistNode>, s: ServerEntry): (r: seq<ServerlistNode>)
    requires s.category < |buckets|
    ensures |r| == |buckets|
  {
    var b := buckets[s.category];
    if b.children.Some? then buckets[s.category := b.(children := Some(b.children.value + [ServerNode(s)]))]
    else buckets
  }

  /** The buckets after every server has been added, in order. */
  function Fill(roots: seq<ServerlistNode>, servers: seq<ServerEntry>): (r: seq<ServerlistNode>)
    requires forall k :: 0 <= k < |servers| ==> servers[k].category < |roots|
    ensures |r| == |roots|
  {
    if |servers| == 0 then roots
    else Push(Fill(roots, servers[..|servers| - 1]), servers[|servers| - 1])
  }

  /** `Push` changes only the bucket of the server's category, and only when it has a children list. */
  lemma PushAt(buckets: seq<ServerlistNode>, s: ServerEntry, j: nat)
    requires s.category < |buckets| && j < |buckets|
    ensures Push(buckets, s)[j]
      == if j == s.category && buckets[j].children.Some?
         then buckets[j].(children := Some(buckets[j].children.value + [ServerNode(s)]))
         else buckets[j]
  {
  }

  lemma ServerNodesSnoc(servers: seq<ServerEntry>, s: ServerEntry)
    ensures ServerNodes(servers + [s]) == ServerNodes(servers) + [ServerNode(s)]
  {
    assert forall k :: 0 <= k < |servers| ==> (servers + [s])[k] == servers[k];
  }

  /**
   * Bucket `j` ends up holding its own children followed by the servers of
   * category `j`, in the order they were reported; a bucket without a
   * children list stays as it is.
   */
  lemma {:induction false} FillBucket(roots: seq<ServerlistNode>, servers: seq<ServerEntry>, j: nat)
    requires forall k :: 0 <= k < |servers| ==> servers[k].category < |roots|
    requires j < |roots|
    ensures roots[j].children.None? ==> Fill(roots, servers)[j] == roots[j]
    ensures roots[j].children.Some? ==>
      Fill(roots, servers)[j]
      == roots[j].(children := Some(roots[j].children.value + ServerNodes(InCategory(servers, j))))
  {
    if |servers| != 0 {
      var init := servers[..|servers| - 1];
      var s := servers[|servers| - 1];
      FillBucket(roots, init, j);
      PushAt(Fill(roots, init), s, j);
      assert InCategory(servers, j) == InCategory(init, j) + (if s.category == j then [s] else []);
      if roots[j].children.Some? && s.category == j {
        ServerNodesSnoc(InCategory(init, j), s);
        AppendAssoc(roots[j].children.value, ServerNodes(InCategory(init, j)), [ServerNode(s)]);
      } else if roots[j].children.Some? {
        assert InCategory(init, j) + [] == InCategory(init, j);
      }
    } else if roots[j].children.Some? {
      assert roots[j].children.value + [] == roots[j].children.value;
    }
  }

  /** `filter(v => v.children && v.children.length > 0)`. */
  function NonEmptyBuckets(buckets: seq<ServerlistNode>): (r: seq<ServerlistNode>)
    ensures |r| <= |buckets|
    ensures forall k :: 0 <= k < |r| ==> r[k].children.Some? && |r[k].children.value| > 0
    ensures forall n :: n in r <==> n in buckets && n.children.Some? && |n.children.value| > 0
  {
    if |buckets| == 0 then []
    else
      var b := buckets[|buckets| - 1];
      var init := NonEmptyBuckets(buckets[..|buckets| - 1]);
      assert buckets == buckets[..|buckets| - 1] + [b];
      init + (if b.children.Some? && |b.children.value| > 0 then [b] else [])
  }

  /** Every category of the reply names a bucket. */
  predicate CategoriesInRange(roots: seq<ServerlistNode>, servers: seq<ServerEntry>) {
    forall k :: 0 <= k < |servers| ==> servers[k].category < |roots|
  }

  /**
   * `getServerList`: `reply` is the list server's answer, None when the
   * request fails, in which case the list is empty. A server whose category
   * has no bucket makes the handler throw, and the returned promise rejects.
   * `roots` stands for `ServerListView.getDefaultRootNodes()`.
   */
  method GetServerList(roots: seq<ServerlistNode>, reply: Option<seq<ServerEntry>>)
    returns (r: Result<seq<ServerlistNode>, ServerEntry>)
    ensures reply.None? ==> r == Success([])
    ensures reply.Some? && CategoriesInRange(roots, reply.value) ==>
      r == Success(NonEmptyBuckets(Fill(roots, reply.value)))
    ensures reply.Some? && !CategoriesInRange(roots, reply.value) ==>
      r.Failure? && r.error in reply.value && r.error.category >= |roots|
  {
    if reply.None? {
      return Success([]);
    }
    var servers := reply.value;
    var data := roots;
    for i := 0 to |servers|
      invariant CategoriesInRange(roots, servers[..i])
      invariant data == Fill(roots, servers[..i])
    {
      var server := servers[i];
      if server.category >= |data| {
        return Failure(server);
      }
      assert servers[..i + 1][..i] == servers[..i];
      var b := data[server.category];
      if b.children.Some? {
        data := data[server.category := b.(children := Some(b.children.value + [ServerNode(server)]))];
      }
    }
    assert servers[..|servers|] == servers;
    return Success(NonEmptyBuckets(data));
  }

  /** A listed bucket of category `j` holds exactly the servers of that category, in order. */
  lemma ListedBucket(roots: seq<ServerlistNode>, servers: seq<ServerEntry>, j: nat)
    requires CategoriesInRange(roots, servers)
    requires j < |roots| && roots[j].children == Some([])
    ensures |InCategory(servers, j)| > 0 ==>
      Fill(roots, servers)[j] == roots[j].(children := Some(ServerNodes(InCategory(servers, j))))
      && Fill(roots, servers)[j] in NonEmptyBuckets(Fill(roots, servers))
    ensures |InCategory(servers, j)| == 0 ==> roots[j] !in NonEmptyBuckets(Fill(roots, servers))
  {
    FillBucket(roots, servers, j);
    assert [] + ServerNodes(InCategory(servers, j)) == ServerNodes(InCategory(servers, j));
  }

  /** The question `connectToServer` asks, noting the session it would end. */
  function ConfirmMessage(server: ServerEntry, slot: Option<RcSession>): (r: string)
    ensures slot.None? ==> r == "Please confirm connecting to " + server.name + "."
    ensures slot.Some? ==>
      r == "Please confirm connecting to " + server.name + "."
        + " This will disconnect you from your current session on " + slot.value.server.name
  {
    var msg := "Please confirm connecting to " + server.name + ".";
    if slot.Some? then msg + " This will disconnect you from your current session on " + slot.value.server.name
    else msg
  }

  /** The note about the current session is there exactly when a session exists. */
  lemma ConfirmNotesSession(server: ServerEntry, slot: Option<RcSession>)
    ensures slot.None? <==> |ConfirmMessage(server, slot)| == 30 + |server.name|
  {
  }

  /**
   * `connectToServer`: ask for confirmation with the answers Yes and No, and
   * connect only when the answer is exactly "Yes"; `answer` is None when the
   * message is dismissed.
   */
  function ConnectToServer(server: ServerEntry, slot: Option<RcSession>, answer: Option<string>): (r: seq<Action>)
    ensures 1 <= |r| <= 2
    ensures r[0] == AskConfirmation(ConfirmMessage(server, slot), ["Yes", "No"])
    ensures |r| == 2 <==> answer == Some("Yes")
    ensures |r| == 2 ==> r[1] == ConnectRemoteControl(server)
  {
    [AskConfirmation(ConfirmMessage(server, slot), ["Yes", "No"])]
      + (if answer == Some("Yes") then [ConnectRemoteControl(server)] else [])
  }
}
