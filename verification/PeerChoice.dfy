/**
 The cluster manager: its table of peers, and the choice of the peer to forward to.
 */
module PeerChoice {
  import opened Wrappers

  /** A gRPC address: what `net.SplitHostPort` makes of it. */
  datatype Address = HostPort(host: string, port: string) | Malformed(text: string)

  datatype NodeState = NodeState(name: string, address: Address, pendingTasks: int, maxConcurrency: int)

  // Load ratios, over exact quotients.

  /** A floating-point quotient without rounding. */
  datatype Ratio = Finite(num: int, den: int) | Infinite(negative: bool) | NaN

  function RatioOf(load: int, capacity: int): Ratio {
    if capacity > 0 then Finite(load, capacity)
    else if capacity < 0 then Finite(-load, -capacity)
    else if load == 0 then NaN
    else Infinite(load < 0)
  }

  predicate WellFormed(r: Ratio) {
    r.Finite? ==> r.den > 0
  }

  /** `<` on such quotients: never true of a NaN. */
  predicate Less(a: Ratio, b: Ratio) {
    match (a, b)
    case (Finite(n, d), Finite(m, e)) => n * e < m * d
    case (Finite(_, _), Infinite(negative)) => !negative
    case (Infinite(negative), Finite(_, _)) => negative
    case (Infinite(x), Infinite(y)) => x && !y
    case (_, _) => false
  }

  lemma CancelFactor(a: int, b: int, e: int)
    requires e > 0 && a * e < b * e
    ensures a < b
  {
  }

  lemma CrossMultiplied(n: int, d: int, m: int, e: int, k: int, f: int)
    requires d > 0 && e > 0 && f > 0 && n * e < m * d && m * f < k * e
    ensures n * f < k * d
  {
    assert n * e * f < m * d * f;
    assert m * f * d < k * e * d;
    assert (n * f) * e < (k * d) * e by {
      assert n * e * f == (n * f) * e;
      assert m * d * f == m * f * d;
      assert k * e * d == (k * d) * e;
    }
    CancelFactor(n * f, k * d, e);
  }

  lemma LessTransitive(a: Ratio, b: Ratio, c: Ratio)
    requires WellFormed(a) && WellFormed(b) && WellFormed(c)
    requires Less(a, b) && Less(b, c)
    ensures Less(a, c)
  {
    if a.Finite? && b.Finite? && c.Finite? {
      CrossMultiplied(a.num, a.den, b.num, b.den, c.num, c.den);
    }
  }

  function PeerRatio(p: NodeState): (r: Ratio)
    ensures WellFormed(r)
  {
    RatioOf(p.pendingTasks, p.maxConcurrency)
  }

  predicate HasCapacity(p: NodeState) {
    p.pendingTasks < p.maxConcurrency
  }

  /** A peer worth forwarding to: it has capacity, and strictly less load for it than the local node. */
  predicate Preferable(p: NodeState, local: Ratio) {
    HasCapacity(p) && Less(PeerRatio(p), local)
  }

  // The choice, on the loads themselves.

  /** Every peer with fewer tasks than it can run can run some: loads are not negative. */
  predicate SaneLoads(peers: map<string, NodeState>) {
    forall name :: name in peers && peers[name].pendingTasks < peers[name].maxConcurrency ==>
      peers[name].maxConcurrency > 0
  }

  /** The peer has fewer tasks than it can run, and for its capacity fewer than the local node. A local node without
      capacity counts as infinitely loaded if it has any tasks, and is never left if it has none. */
  predicate Lighter(p: NodeState, localLoad: int, concurrency: int) {
    && p.pendingTasks < p.maxConcurrency
    && if concurrency > 0 then p.pendingTasks * concurrency < localLoad * p.maxConcurrency
       else if concurrency == 0 then localLoad > 0
       else p.pendingTasks * concurrency > localLoad * p.maxConcurrency
  }

  lemma LighterExactly(p: NodeState, localLoad: int, concurrency: int)
    requires p.pendingTasks < p.maxConcurrency ==> p.maxConcurrency > 0
    ensures Preferable(p, RatioOf(localLoad, concurrency)) <==> Lighter(p, localLoad, concurrency)
  {
    if concurrency < 0 {
      assert p.pendingTasks * -concurrency == -(p.pendingTasks * concurrency);
      assert -localLoad * p.maxConcurrency == -(localLoad * p.maxConcurrency);
    }
  }

  /** Bind addresses, which other nodes cannot dial. */
  predicate Wildcard(a: Address) {
    a.HostPort? && a.host in {"", "0.0.0.0", "::"}
  }

  function Rehosted(a: Address, host: string): Address {
    if Wildcard(a) then HostPort(host, a.port) else a
  }

  class Manager {
    const localName: string
    const concurrency: int
    var peers: map<string, NodeState>

    constructor (localName: string, concurrency: int)
      ensures this.localName == localName && this.concurrency == concurrency
      ensures peers == map[] && Valid()
    {
      this.localName, this.concurrency, peers := localName, concurrency, map[];
    }

    /** The local node is never its own peer. */
    predicate Valid()
      reads this
    {
      localName !in peers
    }

    /** Every peer can be dialled. */
    predicate Dialable()
      reads this
    {
      forall name :: name in peers ==> !Wildcard(peers[name].address)
    }

    /** A peer is returned exactly when some peer is preferable to the local node, and then it is a
        preferable one that no preferable peer beats, in whatever order the table is walked. */
    method SelectBestPeer(localLoad: int) returns (best: Option<NodeState>)
      ensures var local := RatioOf(localLoad, concurrency);
        && (best.None? <==> forall name :: name in peers ==> !Preferable(peers[name], local))
        && (best.Some? ==>
              && best.value in peers.Values && Preferable(best.value, local)
              && forall name :: name in peers && HasCapacity(peers[name]) ==>
                 !Less(PeerRatio(peers[name]), PeerRatio(best.value)))
      ensures SaneLoads(peers) ==>
        && (best.None? <==> forall name :: name in peers ==> !Lighter(peers[name], localLoad, concurrency))
        && (best.Some? ==>
              && best.value in peers.Values && Lighter(best.value, localLoad, concurrency)
              && forall name :: name in peers && peers[name].pendingTasks < peers[name].maxConcurrency ==>
                   best.value.pendingTasks * peers[name].maxConcurrency
                   <= peers[name].pendingTasks * best.value.maxConcurrency)
    {
      ghost var local := RatioOf(localLoad, concurrency);
      best := None;
      var bestLoad, bestCapacity := localLoad, concurrency;
      var remaining := peers.Keys;
      while remaining != {}
        invariant remaining <= peers.Keys
        invariant best.None? ==> bestLoad == localLoad && bestCapacity == concurrency
        invariant best.Some? ==> best.value in peers.Values && Preferable(best.value, local)
                                 && bestLoad == best.value.pendingTasks && bestCapacity == best.value.maxConcurrency
        invariant forall name :: name in peers.Keys - remaining && HasCapacity(peers[name]) ==>
          !Less(PeerRatio(peers[name]), RatioOf(bestLoad, bestCapacity))
        decreases |remaining|
      {
        var name: string :| name in remaining;
        remaining := remaining - {name};
        var peer := peers[name];
        if HasCapacity(peer) && Less(PeerRatio(peer), RatioOf(bestLoad, bestCapacity)) {
          Improves(peers, peers.Keys - remaining - {name}, local, RatioOf(bestLoad, bestCapacity), peer);
          best, bestLoad, bestCapacity := Some(peer), peer.pendingTasks, peer.maxConcurrency;
        }
      }
      if SaneLoads(peers) {
        forall name | name in peers
          ensures Preferable(peers[name], local) <==> Lighter(peers[name], localLoad, concurrency)
        {
          LighterExactly(peers[name], localLoad, concurrency);
        }
      }
    }

    method GetPeerByNodeID(nodeID: string) returns (peer: Option<NodeState>)
      requires Valid()
      ensures peer == if nodeID in peers then Some(peers[nodeID]) else None
      ensures nodeID == localName ==> peer.None?
    {
      if nodeID in peers { return Some(peers[nodeID]); }
      return None;
    }

    /** A gossiped state, or nothing if the message was empty or did not decode. A known peer that gossips a
        bind address keeps its known host; only a peer first heard of this way can be left undiallable. */
    method NotifyMsg(msg: Option<NodeState>)
      requires Valid()
      modifies this
      ensures Valid()
      ensures msg.None? || msg.value.name == localName ==> peers == old(peers)
      ensures msg.Some? && msg.value.name != localName ==>
        var name := msg.value.name;
        && peers.Keys == old(peers).Keys + {name} && peers - {name} == old(peers) - {name}
        && peers[name] == msg.value.(address := peers[name].address)
        && match msg.value.address
           case Malformed(_) => peers[name].address == msg.value.address
           case HostPort(host, port) =>
             peers[name].address.HostPort? && peers[name].address.port == port
             && peers[name].address.host ==
                  if host in {"", "0.0.0.0", "::"} && name in old(peers) && old(peers)[name].address.HostPort?
                  then old(peers)[name].address.host else host
      ensures old(Dialable()) && msg.Some? && msg.value.name != localName ==>
        (Dialable()
         <==> || !Wildcard(msg.value.address)
              || (msg.value.name in old(peers) && old(peers)[msg.value.name].address.HostPort?))
    {
      if msg.None? { return; }
      var state := msg.value;
      if state.name == localName { return; }
      if state.name in peers && Wildcard(state.address) {
        var existing := peers[state.name].address;
        if existing.HostPort? {
          state := state.(address := HostPort(existing.host, state.address.port));
        }
      }
      ghost var before := peers;
      peers := peers[state.name := state];
      if msg.value.name in before { assert before - {state.name} == peers - {state.name}; }
    }

    /** A node that joined, with its decoded metadata if it decodes, its gossip host and port. */
    method NotifyJoin(name: string, meta: Option<NodeState>, host: string, gossip: Address)
      requires Valid()
      modifies this
      ensures Valid()
      ensures name == localName ==> peers == old(peers)
      ensures name != localName ==> name in peers && peers == old(peers)[name := peers[name]]
      ensures name != localName ==>
                var state := if meta.Some? then meta.value else NodeState(name, gossip, 0, 0);
                && peers[name] == state.(address := peers[name].address)
                && match state.address
                   case Malformed(_) => peers[name].address == state.address
                   case HostPort(bound, port) =>
                     peers[name].address == HostPort(if bound in {"", "0.0.0.0", "::"} then host else bound, port)
      ensures old(Dialable()) && host !in {"", "0.0.0.0", "::"} ==> Dialable()
    {
      if name == localName { return; }
      var state := if meta.Some? then meta.value else NodeState(name, gossip, 0, 0);
      peers := peers[name := state.(address := Rehosted(state.address, host))];
    }

    method NotifyLeave(name: string)
      requires Valid()
      modifies this
      ensures Valid() && (old(Dialable()) ==> Dialable())
      ensures name != localName ==> peers == old(peers) - {name}
      ensures name == localName ==> peers == old(peers)
    {
      if name == localName { return; }
      peers := peers - {name};
    }

    method NotifyUpdate(name: string, meta: Option<NodeState>, host: string)
      requires Valid()
      modifies this
      ensures Valid()
      ensures name == localName || meta.None? ==> peers == old(peers)
      ensures name != localName && meta.Some? ==>
                && name in peers && peers == old(peers)[name := meta.value.(address := peers[name].address)]
                && match meta.value.address
                   case Malformed(_) => peers[name].address == meta.value.address
                   case HostPort(bound, port) =>
                     peers[name].address == HostPort(if bound in {"", "0.0.0.0", "::"} then host else bound, port)
      ensures old(Dialable()) && host !in {"", "0.0.0.0", "::"} ==> Dialable()
    {
      if name == localName || meta.None? { return; }
      peers := peers[name := meta.value.(address := Rehosted(meta.value.address, host))];
    }
  }

  /** What no earlier peer beats, no earlier peer beats once improved upon. */
  lemma Improves(peers: map<string, NodeState>, seen: set<string>, local: Ratio, best: Ratio, peer: NodeState)
    requires seen <= peers.Keys && WellFormed(local) && WellFormed(best)
    requires best == local || Less(best, local)
    requires Less(PeerRatio(peer), best)
    requires forall name :: name in seen && HasCapacity(peers[name]) ==> !Less(PeerRatio(peers[name]), best)
    ensures Less(PeerRatio(peer), local)
    ensures forall name :: name in seen && HasCapacity(peers[name]) ==> !Less(PeerRatio(peers[name]), PeerRatio(peer))
  {
    if best != local { LessTransitive(PeerRatio(peer), best, local); }
    forall name | name in seen && HasCapacity(peers[name])
      ensures !Less(PeerRatio(peers[name]), PeerRatio(peer))
    {
      if Less(PeerRatio(peers[name]), PeerRatio(peer)) {
        LessTransitive(PeerRatio(peers[name]), PeerRatio(peer), best);
      }
    }
  }
}
