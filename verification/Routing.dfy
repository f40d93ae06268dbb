/**
 Routing requests through a cluster whose nodes may hold any peer tables: `Execute`
 forwards once at most, `WaitExecution` follows the node ID in the operation's name.
 */
module Routing {
  import opened Wrappers
  import opened OperationNames

  type Address = string

  /** A node: its ID, whether it is part of a cluster, whom it believes to be where, and the operations it holds. */
  datatype Node = Node(id: string, clustered: bool, peers: map<string, Address>, operations: set<string>)

  /** All nodes, and which of them answers at an address. */
  datatype World = World(nodes: seq<Node>, listener: map<Address, nat>)

  predicate ValidWorld(w: World) {
    && (forall a :: a in w.listener ==> w.listener[a] < |w.nodes|)
    && (forall n :: 0 <= n < |w.nodes| ==> w.nodes[n].id !in w.nodes[n].peers)
  }

  // Execute.

  /** What happens at a node when a request reaches it: whether the action cache answers, which peer is best
      (its address, whatever the table says), whether a stream to it opens, whether `Enqueue` succeeds, and
      the UUID it draws. */
  datatype Choice = Choice(cacheHit: bool, best: Option<Address>, opens: bool, enqueues: bool, uuid: string)

  /** The nodes a request reached, and the operations enqueued for it, in order. */
  datatype Trace = Trace(visits: seq<nat>, enqueued: seq<(nat, string)>)

  /** `Enqueue` at a node, under the ID of the node the request came from if there is one. */
  function EnqueueAt(w: World, n: nat, origin: string, c: Choice): seq<(nat, string)>
    requires n < |w.nodes|
  {
    if c.enqueues then [(n, OperationName(w.nodes[n].id, origin, c.uuid))] else []
  }

  /** `Execute` at node `n`, with the node ID in the request's forwarding metadata if it has any; `here` are the
      choices at this node and `there` those at the next. A stream that fails to open delivers nothing. */
  function Execute(w: World, n: nat, forwardedFrom: Option<string>, here: Choice, there: Choice): Trace
    requires ValidWorld(w) && n < |w.nodes|
    decreases forwardedFrom.None?
  {
    if here.cacheHit then Trace([n], EnqueueAt(w, n, "", here))
    else if w.nodes[n].clustered && forwardedFrom.None? && here.best.Some? then
      if here.opens && here.best.value in w.listener then
        var next := Execute(w, w.listener[here.best.value], Some(w.nodes[n].id), there, there);
        Trace([n] + next.visits, next.enqueued)
      else Trace([n], EnqueueAt(w, n, "", here))
    else Trace([n], EnqueueAt(w, n, if forwardedFrom.Some? then forwardedFrom.value else "", here))
  }

  /** Whatever the peer tables, a request reaches at most two nodes, is enqueued at most once in the whole
      cluster, by the last of them, and exactly once if that node's `Enqueue` succeeds; and the operation's
      name carries the ID of the first node, unless the second answers from its cache. */
  lemma EnqueuedOnce(w: World, n: nat, forwardedFrom: Option<string>, here: Choice, there: Choice)
    requires ValidWorld(w) && n < |w.nodes|
    ensures var t := Execute(w, n, forwardedFrom, here, there);
            && 1 <= |t.visits| <= 2 && t.visits[0] == n
            && (forwardedFrom.Some? ==> |t.visits| == 1)
            && var last := |t.visits| - 1;
               var c := if last == 0 then here else there;
               && t.visits[last] < |w.nodes|
               && |t.enqueued| == (if c.enqueues then 1 else 0)
               && (c.enqueues ==>
                     t.enqueued[0] == (t.visits[last],
                                       OperationName(w.nodes[t.visits[last]].id, Origin(w, n, forwardedFrom, last, c),
                                                     c.uuid)))
  {
    var t := Execute(w, n, forwardedFrom, here, there);
    if |t.visits| > 1 {
      assert t.visits == [n] + [w.listener[here.best.value]];
    }
  }

  /** The override an operation is enqueued with: none on a cache hit; otherwise the forwarding metadata, which
      a second node gets from the first. */
  function Origin(w: World, n: nat, forwardedFrom: Option<string>, last: nat, c: Choice): string
    requires n < |w.nodes|
  {
    if c.cacheHit then ""
    else if last > 0 then w.nodes[n].id
    else if forwardedFrom.Some? then forwardedFrom.value
    else ""
  }

  // WaitExecution.

  /** The node ID that `ParseOperationNodeID` reads from a name: what precedes the first colon. */
  function NodeIDOf(name: string): (id: string)
    ensures exists rest :: Splits(Stripped(name), id, rest)
  {
    var body := Stripped(name);
    if ':' in body then
      var i := FirstColon(body);
      assert body == body[..i] + ":" + body[i + 1..];
      assert Splits(body, body[..i], body[i + 1..]);
      body[..i]
    else
      assert Splits(body, "", body);
      ""
  }

  function FirstColon(body: string): (i: nat)
    requires ':' in body
    ensures i < |body| && body[i] == ':' && ':' !in body[..i]
  {
    if body[0] == ':' then 0
    else
      assert body == [body[0]] + body[1..];
      var i := FirstColon(body[1..]);
      assert body[..i + 1] == [body[0]] + body[1..][..i];
      i + 1
  }

  lemma NodeIDUnique(name: string, id: string, rest: string)
    requires Splits(Stripped(name), id, rest)
    ensures NodeIDOf(name) == id
  {
    var other :| Splits(Stripped(name), NodeIDOf(name), other);
    SplitsUnique(Stripped(name), NodeIDOf(name), other, id, rest);
  }

  /** Where `WaitExecution` sends a name: it looks here, asks another node, or gives up. */
  datatype Route = Here | Ask(node: nat) | Unroutable

  function RouteOf(w: World, n: nat, name: string): Route
    requires ValidWorld(w) && n < |w.nodes|
  {
    var id := NodeIDOf(name);
    if !w.nodes[n].clustered || id == "" || id == w.nodes[n].id then Here
    else if id !in w.nodes[n].peers || w.nodes[n].peers[id] !in w.listener then Unroutable
    else Ask(w.listener[w.nodes[n].peers[id]])
  }

  /** The nodes one `WaitExecution` passes through. */
  ghost predicate IsPath(w: World, name: string, path: seq<nat>)
    requires ValidWorld(w)
  {
    && path != []
    && (forall i :: 0 <= i < |path| ==> path[i] < |w.nodes|)
    && (forall i, j :: 0 <= i < |path| && j == i + 1 < |path| ==> RouteOf(w, path[i], name) == Ask(path[j]))
  }

  lemma Onward(w: World, name: string, path: seq<nat>, i: nat)
    requires ValidWorld(w) && IsPath(w, name, path) && i + 1 < |path|
    ensures RouteOf(w, path[i], name) == Ask(path[i + 1])
  {
  }

  /** The request is answered where its path ends, from what that node holds. */
  predicate Finds(w: World, name: string, path: seq<nat>)
    requires ValidWorld(w) && IsPath(w, name, path)
  {
    var last := path[|path| - 1];
    RouteOf(w, last, name) == Here && name in w.nodes[last].operations
  }

  predicate Ended(w: World, name: string, path: seq<nat>)
    requires ValidWorld(w) && IsPath(w, name, path)
  {
    !RouteOf(w, path[|path| - 1], name).Ask?
  }

  /** What tables say about the addresses of one node ID is true. */
  predicate Truthful(w: World, id: string)
    requires ValidWorld(w)
  {
    forall n :: 0 <= n < |w.nodes| && id in w.nodes[n].peers && w.nodes[n].peers[id] in w.listener ==>
      w.nodes[w.listener[w.nodes[n].peers[id]]].id == id
  }

  /** With truthful tables a wait makes at most one hop, and a hop ends at the node the name is prefixed with. */
  lemma OneHop(w: World, name: string, path: seq<nat>)
    requires ValidWorld(w) && Truthful(w, NodeIDOf(name)) && IsPath(w, name, path)
    ensures |path| <= 2
    ensures |path| == 2 ==> w.nodes[path[1]].id == NodeIDOf(name) && RouteOf(w, path[1], name) == Here
  {
    if |path| > 2 { Onward(w, name, path, 1); }
    if |path| > 1 { Onward(w, name, path, 0); }
  }

  /** Node n is not the one meant, and its table has a reachable address for that one: where it leads. */
  function Leads(w: World, n: nat, id: string): Option<nat>
    requires ValidWorld(w) && n < |w.nodes|
  {
    if w.nodes[n].clustered && w.nodes[n].id != id && id in w.nodes[n].peers && w.nodes[n].peers[id] in w.listener
    then Some(w.listener[w.nodes[n].peers[id]]) else None
  }

  /** The node that listens where n believes `id` to be is another one, and has an address for `id` of its own. */
  predicate Misled(w: World, n: nat, id: string)
    requires ValidWorld(w) && n < |w.nodes|
  {
    Leads(w, n, id).Some? && Leads(w, Leads(w, n, id).value, id).Some?
  }

  /** In general nothing stops a wait but the tables: it makes at most one hop from everywhere if and only if its name
      has no node ID, or every entry for that ID leads to the node itself, to a node outside the cluster, or to one
      without a reachable entry of its own. */
  lemma OneHopExactly(w: World, name: string)
    requires ValidWorld(w)
    ensures (forall path :: IsPath(w, name, path) ==> |path| <= 2)
            <==> NodeIDOf(name) == "" || forall n :: 0 <= n < |w.nodes| ==> !Misled(w, n, NodeIDOf(name))
  {
    var id := NodeIDOf(name);
    if n :| 0 <= n < |w.nodes| && Misled(w, n, id) && id != "" {
      var path := MisledHops(w, n, name);
    }
    if path :| IsPath(w, name, path) && |path| > 2 {
      HopsMisled(w, name, path);
    }
  }

  lemma MisledHops(w: World, n: nat, name: string) returns (path: seq<nat>)
    requires ValidWorld(w) && n < |w.nodes| && NodeIDOf(name) != "" && Misled(w, n, NodeIDOf(name))
    ensures IsPath(w, name, path) && |path| == 3
  {
    var m := Leads(w, n, NodeIDOf(name)).value;
    RouteLeads(w, n, name);
    RouteLeads(w, m, name);
    path := [n, m, Leads(w, m, NodeIDOf(name)).value];
  }

  lemma HopsMisled(w: World, name: string, path: seq<nat>)
    requires ValidWorld(w) && IsPath(w, name, path) && |path| > 2
    ensures NodeIDOf(name) != "" && Misled(w, path[0], NodeIDOf(name))
  {
    Onward(w, name, path, 0);
    Onward(w, name, path, 1);
    RouteLeads(w, path[0], name);
    RouteLeads(w, path[1], name);
  }

  lemma RouteLeads(w: World, n: nat, name: string)
    requires ValidWorld(w) && n < |w.nodes|
    ensures RouteOf(w, n, name).Ask? <==> NodeIDOf(name) != "" && Leads(w, n, NodeIDOf(name)).Some?
    ensures RouteOf(w, n, name).Ask? ==> Leads(w, n, NodeIDOf(name)) == Some(RouteOf(w, n, name).node)
  {
  }

  // A wait ends soon or never.

  /** Some entry of a sequence that is longer than its range of values occurs twice. */
  lemma {:induction false} Repeats(path: seq<nat>, bound: nat) returns (i: nat, j: nat)
    requires |path| > bound && forall k :: 0 <= k < |path| ==> path[k] < bound
    ensures i < j < |path| && path[i] == path[j]
    decreases bound
  {
    var n := |path| - 1;
    var top := path[n];
    if k :| 0 <= k < n && path[k] == top {
      return k, n;
    }
    // Close the gap that the last value leaves.
    var rest := seq(n, k requires 0 <= k < n => if path[k] == bound - 1 then top else path[k]);
    i, j := Repeats(rest, bound - 1);
  }

  /** A path has only one way to go on. */
  lemma {:induction false} Periodic(w: World, name: string, path: seq<nat>, i: nat, j: nat, d: nat)
    requires ValidWorld(w) && IsPath(w, name, path) && i < j && j + d < |path| && path[i] == path[j]
    ensures path[j + d] == path[i + d]
  {
    if d > 0 {
      Periodic(w, name, path, i, j, d - 1);
      SameNext(w, name, path, j + d - 1, i + d - 1);
    }
  }

  lemma SameNext(w: World, name: string, path: seq<nat>, t: nat, u: nat)
    requires ValidWorld(w) && IsPath(w, name, path) && u < t < |path| - 1 && path[t] == path[u]
    ensures path[t + 1] == path[u + 1]
  {
    Onward(w, name, path, t);
    Onward(w, name, path, u);
  }

  ghost predicate HasPath(w: World, name: string, n: nat, length: nat)
    requires ValidWorld(w)
  {
    exists path :: IsPath(w, name, path) && path[0] == n && |path| == length
  }

  lemma GoesOn(w: World, name: string, path: seq<nat>, next: nat)
    requires ValidWorld(w) && IsPath(w, name, path) && RouteOf(w, path[|path| - 1], name) == Ask(next)
    ensures IsPath(w, name, path + [next])
  {
    var longer := path + [next];
    forall k | 0 <= k < |longer| - 1 ensures RouteOf(w, longer[k], name) == Ask(longer[k + 1]) {
      if k < |path| - 1 {
        assert longer[k] == path[k] && longer[k + 1] == path[k + 1];
        Onward(w, name, path, k);
      }
    }
  }

  lemma Continues(w: World, name: string, path: seq<nat>) returns (next: nat)
    requires ValidWorld(w) && IsPath(w, name, path) && |path| > |w.nodes|
    ensures RouteOf(w, path[|path| - 1], name) == Ask(next)
  {
    var k := SeenBefore(w, name, path);
    Onward(w, name, path, k);
    next := path[k + 1];
  }

  lemma SeenBefore(w: World, name: string, path: seq<nat>) returns (k: nat)
    requires ValidWorld(w) && IsPath(w, name, path) && |path| > |w.nodes|
    ensures k < |path| - 1 && path[k] == path[|path| - 1]
  {
    var i, j := Repeats(path, |w.nodes|);
    var d := |path| - 1 - j;
    Periodic(w, name, path, i, j, d);
    k := i + d;
  }

  /** A path longer than the number of nodes goes on forever. */
  lemma {:induction false} Circles(w: World, name: string, path: seq<nat>, length: nat)
    requires ValidWorld(w) && IsPath(w, name, path) && |path| > |w.nodes| && length >= |path|
    ensures HasPath(w, name, path[0], length)
    decreases length - |path|
  {
    if length > |path| {
      var next := Continues(w, name, path);
      GoesOn(w, name, path, next);
      Circles(w, name, path + [next], length);
    }
  }

  /** Follows a wait until it ends or has passed as many nodes as asked for. */
  lemma {:induction false} Follow(w: World, name: string, n: nat, length: nat) returns (path: seq<nat>)
    requires ValidWorld(w) && n < |w.nodes| && length > 0
    ensures IsPath(w, name, path) && path[0] == n && |path| <= length && (|path| == length || Ended(w, name, path))
  {
    if length == 1 {
      path := [n];
    } else {
      path := Follow(w, name, n, length - 1);
      if !Ended(w, name, path) {
        var next := RouteOf(w, path[|path| - 1], name).node;
        GoesOn(w, name, path, next);
        path := path + [next];
      }
    }
  }

  ghost predicate Ends(w: World, name: string, n: nat)
    requires ValidWorld(w)
  {
    exists path :: IsPath(w, name, path) && path[0] == n && |path| <= |w.nodes| && Ended(w, name, path)
  }

  /** From every node a wait ends before it has visited more nodes than there are, or it never ends. */
  lemma EndsOrCircles(w: World, name: string, n: nat)
    requires ValidWorld(w) && n < |w.nodes|
    ensures Ends(w, name, n) <==> !forall length: nat :: length > 0 ==> HasPath(w, name, n, length)
  {
    var path := Follow(w, name, n, |w.nodes| + 1);
    if |path| <= |w.nodes| {
      EndsThere(w, name, path, |w.nodes| + 1);
    } else {
      forall length: nat | length > 0 ensures HasPath(w, name, n, length) { AnyLength(w, name, path, length); }
      if other :| IsPath(w, name, other) && other[0] == n && |other| <= |w.nodes| && Ended(w, name, other) {
        EndsThere(w, name, other, |path|);
      }
    }
  }

  lemma AnyLength(w: World, name: string, path: seq<nat>, length: nat)
    requires ValidWorld(w) && IsPath(w, name, path) && |path| > |w.nodes| && length > 0
    ensures HasPath(w, name, path[0], length)
  {
    if length >= |path| {
      Circles(w, name, path, length);
    } else {
      Shortened(w, name, path, length);
    }
  }

  /** Nothing goes further than where a wait ends. */
  lemma EndsThere(w: World, name: string, path: seq<nat>, length: nat)
    requires ValidWorld(w) && IsPath(w, name, path) && Ended(w, name, path) && length > |path|
    ensures !HasPath(w, name, path[0], length)
  {
    forall longer | IsPath(w, name, longer) && longer[0] == path[0] ensures |longer| != length {
      if |longer| == length {
        SamePath(w, name, path, longer, |path| - 1);
        Onward(w, name, longer, |path| - 1);
      }
    }
  }

  lemma Shortened(w: World, name: string, path: seq<nat>, length: nat)
    requires ValidWorld(w) && IsPath(w, name, path) && 0 < length <= |path|
    ensures HasPath(w, name, path[0], length)
  {
    var short := path[..length];
    forall k | 0 <= k < |short| - 1 ensures RouteOf(w, short[k], name) == Ask(short[k + 1]) {
      Onward(w, name, path, k);
    }
    assert IsPath(w, name, short);
  }

  lemma {:induction false} SamePath(w: World, name: string, a: seq<nat>, b: seq<nat>, k: nat)
    requires ValidWorld(w) && IsPath(w, name, a) && IsPath(w, name, b) && a[0] == b[0] && k < |a| && k < |b|
    ensures a[k] == b[k]
  {
    if k > 0 {
      SamePath(w, name, a, b, k - 1);
      Onward(w, name, a, k - 1);
      Onward(w, name, b, k - 1);
    }
  }

  /** Two nodes that each believe a third to live at the other's address. */
  function StaleWorld(): World {
    World([Node("a", true, map["c" := "B"], {}), Node("b", true, map["c" := "A"], {})], map["A" := 0, "B" := 1])
  }

  lemma StaleRoutes()
    ensures ValidWorld(StaleWorld())
    ensures RouteOf(StaleWorld(), 0, "operations/c:u") == Ask(1) && RouteOf(StaleWorld(), 1, "operations/c:u") == Ask(0)
  {
    var name := "operations/c:u";
    assert name[..11] == PREFIX && name[11..] == "c" + ":" + "u";
    NodeIDUnique(name, "c", "u");
  }

  /** They pass a wait back and forth for any number of hops. */
  lemma StaleTablesLoop(hops: nat)
    ensures ValidWorld(StaleWorld()) && HasPath(StaleWorld(), "operations/c:u", 0, hops + 1)
  {
    StaleRoutes();
    GoesOn(StaleWorld(), "operations/c:u", [0], 1);
    GoesOn(StaleWorld(), "operations/c:u", [0, 1], 0);
    assert [0] + [1] == [0, 1] && [0, 1] + [0] == [0, 1, 0];
    AnyLength(StaleWorld(), "operations/c:u", [0, 1, 0], hops + 1);
  }

  // Both together.

  /** The world after an `Execute`. */
  function Enqueued(w: World, n: nat, name: string): (after: World)
    requires ValidWorld(w) && n < |w.nodes|
    ensures ValidWorld(after) && |after.nodes| == |w.nodes|
  {
    w.(nodes := w.nodes[n := w.nodes[n].(operations := w.nodes[n].operations + {name})])
  }

  predicate DistinctIDs(w: World) {
    forall i, j :: 0 <= i < |w.nodes| && 0 <= j < |w.nodes| && w.nodes[i].id == w.nodes[j].id ==> i == j
  }

  /** A node can get an answer from the node with this ID: it is that node, or knows where to reach it. */
  predicate Knows(w: World, n: nat, id: string)
    requires n < |w.nodes|
  {
    w.nodes[n].clustered && (id == w.nodes[n].id || (id in w.nodes[n].peers && w.nodes[n].peers[id] in w.listener))
  }

  lemma EndsAtPrefix(w: World, name: string, path: seq<nat>)
    requires ValidWorld(w) && Truthful(w, NodeIDOf(name)) && NodeIDOf(name) != ""
    requires IsPath(w, name, path) && Ended(w, name, path) && Knows(w, path[0], NodeIDOf(name))
    ensures var last := path[|path| - 1]; w.nodes[last].id == NodeIDOf(name) && RouteOf(w, last, name) == Here
  {
    OneHop(w, name, path);
  }

  lemma SameRoutes(w: World, holder: nat, name: string, id: string)
    requires ValidWorld(w) && holder < |w.nodes|
    ensures Truthful(w, id) ==> Truthful(Enqueued(w, holder, name), id)
    ensures forall n :: 0 <= n < |w.nodes| && Knows(w, n, id) ==> Knows(Enqueued(w, holder, name), n, id)
  {
    var after := Enqueued(w, holder, name);
    forall n | 0 <= n < |w.nodes|
      ensures after.nodes[n].id == w.nodes[n].id && after.nodes[n].peers == w.nodes[n].peers {
    }
  }

  /** The operation with this name is new. */
  predicate New(w: World, name: string) {
    forall n :: 0 <= n < |w.nodes| ==> name !in w.nodes[n].operations
  }

  /** An operation held by one node under a colon-free prefix is found, from a node that knows the prefix,
      exactly when the prefix is the holder's own ID. */
  lemma FoundExactly(w: World, holder: nat, prefix: string, uuid: string, path: seq<nat>)
    requires ValidWorld(w) && DistinctIDs(w) && holder < |w.nodes|
    requires prefix != "" && ':' !in prefix && Truthful(w, prefix) && New(w, OperationName(prefix, "", uuid))
    requires var name := OperationName(prefix, "", uuid);
             var after := Enqueued(w, holder, name);
             IsPath(after, name, path) && Ended(after, name, path) && Knows(w, path[0], prefix)
    ensures Finds(Enqueued(w, holder, OperationName(prefix, "", uuid)), OperationName(prefix, "", uuid), path)
            <==> prefix == w.nodes[holder].id
  {
    var name := OperationName(prefix, "", uuid);
    NameRoundTrip(prefix, uuid);
    NodeIDUnique(name, prefix, uuid);
    SameRoutes(w, holder, name, prefix);
    EndsAtPrefix(Enqueued(w, holder, name), name, path);
  }

  /** Nodes that can be named, and tables that are true of every one of them. */
  predicate Sound(w: World) {
    && ValidWorld(w) && DistinctIDs(w)
    && forall n :: 0 <= n < |w.nodes| ==> w.nodes[n].id != "" && ':' !in w.nodes[n].id && Truthful(w, w.nodes[n].id)
  }

  /** Whether `Execute` at node n hands a client's request on, and to which node. */
  function ForwardsTo(w: World, n: nat, here: Choice): Option<nat>
    requires ValidWorld(w) && n < |w.nodes|
  {
    if !here.cacheHit && w.nodes[n].clustered && here.best.Some? && here.opens && here.best.value in w.listener
    then Some(w.listener[here.best.value]) else None
  }

  /** In a sound cluster, an operation that a client starts at `n` is found by a later wait, from any node that knows
      the node its name carries, if and only if it was not forwarded, or was answered from the other node's cache, or
      came back to `n`. */
  lemma ExecuteThenWait(w: World, n: nat, here: Choice, there: Choice, path: seq<nat>)
    requires Sound(w) && n < |w.nodes|
    requires (if ForwardsTo(w, n, here).Some? then there else here).enqueues
    requires var to := ForwardsTo(w, n, here);
             var holder := if to.Some? then to.value else n;
             var named := if to.Some? && there.cacheHit then to.value else n;
             var name := OperationName(w.nodes[named].id, "", (if to.Some? then there else here).uuid);
             && New(w, name)
             && IsPath(Enqueued(w, holder, name), name, path) && Ended(Enqueued(w, holder, name), name, path)
             && Knows(w, path[0], w.nodes[named].id)
    ensures var to := ForwardsTo(w, n, here);
            var holder := if to.Some? then to.value else n;
            var named := if to.Some? && there.cacheHit then to.value else n;
            var name := OperationName(w.nodes[named].id, "", (if to.Some? then there else here).uuid);
            && Execute(w, n, None, here, there).enqueued == [(holder, name)]
            && (Finds(Enqueued(w, holder, name), name, path) <==> to.None? || there.cacheHit || to.value == n)
  {
    var to := ForwardsTo(w, n, here);
    var holder := if to.Some? then to.value else n;
    var named := if to.Some? && there.cacheHit then to.value else n;
    EnqueuedOnce(w, n, None, here, there);
    FoundExactly(w, holder, w.nodes[named].id, (if to.Some? then there else here).uuid, path);
    assert w.nodes[named].id == w.nodes[holder].id <==> named == holder;
  }

  /** Two nodes that know each other. */
  function Pair(): World {
    World([Node("a", true, map["b" := "B"], {}), Node("b", true, map["a" := "A"], {})], map["A" := 0, "B" := 1])
  }

  lemma PairForwards(here: Choice, there: Choice)
    requires !here.cacheHit && here.best == Some("B") && here.opens && !there.cacheHit && there.enqueues
    ensures ValidWorld(Pair())
            && Execute(Pair(), 0, None, here, there).enqueued == [(1, OperationName("a", "", there.uuid))]
  {
    assert OperationName("b", "a", there.uuid) == OperationName("a", "", there.uuid);
  }

  /** A node looks for names that carry its own ID at home, and does not find what another node holds. */
  lemma NotAtHome(w: World, n: nat, holder: nat, uuid: string)
    requires ValidWorld(w) && n < |w.nodes| && holder < |w.nodes| && n != holder
    requires w.nodes[n].id != "" && ':' !in w.nodes[n].id && New(w, OperationName(w.nodes[n].id, "", uuid))
    ensures var name := OperationName(w.nodes[n].id, "", uuid);
            var after := Enqueued(w, holder, name);
            IsPath(after, name, [n]) && Ended(after, name, [n]) && !Finds(after, name, [n])
  {
    var name := OperationName(w.nodes[n].id, "", uuid);
    NameRoundTrip(w.nodes[n].id, uuid);
    NodeIDUnique(name, w.nodes[n].id, uuid);
    assert RouteOf(Enqueued(w, holder, name), n, name) == Here;
  }

  /** A client's request to the first is forwarded to the second, which enqueues it under the first one's name; the
      first then looks for it at home and does not have it. */
  lemma ForwardedIsNotFound(here: Choice, there: Choice)
    requires !here.cacheHit && here.best == Some("B") && here.opens && !there.cacheHit && there.enqueues
    ensures ValidWorld(Pair())
    ensures var name := OperationName("a", "", there.uuid);
            && Execute(Pair(), 0, None, here, there).enqueued == [(1, name)]
            && IsPath(Enqueued(Pair(), 1, name), name, [0])
            && Ended(Enqueued(Pair(), 1, name), name, [0]) && !Finds(Enqueued(Pair(), 1, name), name, [0])
  {
    PairForwards(here, there);
    NotAtHome(Pair(), 0, 1, there.uuid);
  }

  lemma PairSound()
    ensures Sound(Pair())
  {
  }

  /** Had the first one kept it, it would be found there. */
  lemma KeptIsFound(here: Choice, there: Choice)
    requires !here.cacheHit && here.best.None? && here.enqueues
    ensures ValidWorld(Pair())
    ensures var name := OperationName("a", "", here.uuid);
            && Execute(Pair(), 0, None, here, there).enqueued == [(0, name)]
            && IsPath(Enqueued(Pair(), 0, name), name, [0]) && Finds(Enqueued(Pair(), 0, name), name, [0])
  {
    PairSound();
    var name := OperationName(Pair().nodes[0].id, "", here.uuid);
    NameRoundTrip("a", here.uuid);
    NodeIDUnique(name, "a", here.uuid);
    assert RouteOf(Enqueued(Pair(), 0, name), 0, name) == Here;
    ExecuteThenWait(Pair(), 0, here, there, [0]);
  }
}
