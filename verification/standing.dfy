/** Health checks on a running cluster caught between two moves: whatever raft and the loops have
    done so far, every node's chain of leaders ends. */
module StandingNetwork {
  import opened Wrappers
  import opened LeaderWalk
  import opened HealthCheck

  /** The nodes of this cluster with what they publish.  A node's peers are any of its nodes. */
  ghost predicate Reflects(net: map<nat, Transport>, c: Cluster)
    reads net.Values
  {
    && net.Keys == c.nodes.Keys
    && (forall n :: n in net ==>
          && net[n].id == n
          && net[n].leader == c.nodes[n].published.lead
          && net[n].isLeader == c.nodes[n].published.leading)
    && (forall n, m :: n in net && m in net[n].peers ==> m in net && net[n].peers[m] == net[m])
  }

  /** Some run of raft and the loops leads to this cluster. */
  ghost predicate Reachable(ids: set<nat>, c: Cluster) {
    exists moves :: c == Run(World(Boot(ids), Walk.Answered([])), moves).cluster
  }

  lemma ReachableInv(ids: set<nat>, c: Cluster)
    requires 0 !in ids && Reachable(ids, c)
    ensures Inv(c)
  {
    var moves :| c == Run(World(Boot(ids), Walk.Answered([])), moves).cluster;
    BootInv(ids);
    RunInv(World(Boot(ids), Walk.Answered([])), moves);
  }

  lemma {:induction false} RunKeeps(w: World, moves: seq<Move>)
    ensures Run(w, moves).cluster.nodes.Keys == w.cluster.nodes.Keys
    decreases |moves|
  {
    if moves != [] {
      RunKeeps(Next(w, moves[0]), moves[1..]);
    }
  }

  lemma KeysAre(ids: set<nat>, c: Cluster)
    requires Reachable(ids, c)
    ensures c.nodes.Keys == ids
  {
    var moves :| c == Run(World(Boot(ids), Walk.Answered([])), moves).cluster;
    RunKeeps(World(Boot(ids), Walk.Answered([])), moves);
  }

  predicate Follower(v: View) { v.lead != 0 && !v.leading }

  /** The leader a follower names publishes a later term, or its own leadership, or no leader. */
  lemma LeaderIsLater(c: Cluster, n: nat)
    requires Inv(c) && n in c.nodes && Follower(c.nodes[n].published)
    ensures var (v, lead) := (c.nodes[n].published, c.nodes[n].published.lead);
            lead in c.nodes && (Follower(c.nodes[lead].published) ==> v.term < c.nodes[lead].published.term)
  {
    var v := c.nodes[n].published;
    assert SoundNode(c, n, c.nodes[n]);
    assert (v.lead, v.term) in c.sent;
    assert SoundNode(c, v.lead, c.nodes[v.lead]);
  }

  /** A check is forwarded to another node of a strictly later published term, or to one that answers. */
  lemma HopRises(net: map<nat, Transport>, c: Cluster, n: nat)
    requires Inv(c) && Reflects(net, c) && n in net && net[n].Forwards()
    ensures var lead := net[n].leader;
            && lead in net && net[n].peers[lead] == net[lead]
            && (net[lead].Forwards() ==> c.nodes[n].published.term < c.nodes[lead].published.term)
  {
    LeaderIsLater(c, n);
  }

  /** The forwarding nodes that publish a term as late as this forwarding node's. */
  ghost function Ahead(net: map<nat, Transport>, c: Cluster, n: nat): set<nat>
    requires Reflects(net, c) && n in net
    reads net.Values
  {
    if !net[n].Forwards() then {}
    else set m | m in net && net[m].Forwards() && c.nodes[n].published.term <= c.nodes[m].published.term
  }

  lemma HopLeavesBehind(net: map<nat, Transport>, c: Cluster, n: nat)
    requires Inv(c) && Reflects(net, c) && n in net && net[n].Forwards() && net[n].leader in net
    ensures Ahead(net, c, net[n].leader) < Ahead(net, c, n)
  {
    HopRises(net, c, n);
    assert n in Ahead(net, c, n) && n !in Ahead(net, c, net[n].leader);
  }

  lemma ChainGrows(t: Transport, rest: seq<Transport>)
    requires Chain(rest) && t.Forwards() && t.peers[t.leader] == rest[0]
    ensures Chain([t] + rest)
  {
    var path := [t] + rest;
    assert forall i :: 1 <= i < |path| ==> path[i] == rest[i - 1];
  }

  lemma {:induction false} ChainFrom(net: map<nat, Transport>, c: Cluster, n: nat) returns (path: seq<Transport>)
    requires Inv(c) && Reflects(net, c) && n in net
    ensures Chain(path) && path[0] == net[n]
    ensures forall i :: 0 <= i < |path| ==> path[i].id in net && net[path[i].id] == path[i]
    decreases Ahead(net, c, n)
  {
    path := [net[n]];
    if net[n].Forwards() {
      HopRises(net, c, n);
      HopLeavesBehind(net, c, n);
      var rest := ChainFrom(net, c, net[n].leader);
      ChainGrows(net[n], rest);
      path := path + rest;
    }
  }

  lemma {:induction false} DistinctAtMost(s: seq<nat>, keys: set<nat>)
    requires Distinct(s) && forall i :: 0 <= i < |s| ==> s[i] in keys
    ensures |s| <= |keys|
  {
    if s != [] {
      var n := |s| - 1;
      DistinctAtMost(s[..n], keys - {s[n]});
    }
  }

  lemma OneVisitEach(net: map<nat, Transport>, path: seq<Transport>)
    requires Chain(path) && forall i :: 0 <= i < |path| ==> path[i].id in net && net[path[i].id] == path[i]
    ensures |path| <= |net.Keys|
  {
    ChainVisitsOnce(path);
    DistinctAtMost(seq(|path|, i requires 0 <= i < |path| => path[i].id), net.Keys);
  }

  /** In every run, at every moment, every node of the cluster has a chain of leaders, which visits
      each node at most once. */
  lemma EveryNodeHasChain(ids: set<nat>, c: Cluster, net: map<nat, Transport>, n: nat)
    returns (path: seq<Transport>)
    requires 0 !in ids && Reachable(ids, c) && Reflects(net, c) && n in net
    ensures Chain(path) && path[0] == net[n]
    ensures 1 <= |path| <= |ids|
    ensures forall i, j :: 0 <= i < j < |path| ==> path[i] != path[j]
    ensures forall i :: 0 <= i < |path| ==> path[i].id in net && net[path[i].id] == path[i]
  {
    ReachableInv(ids, c);
    path := ChainFrom(net, c, n);
    OneVisitEach(net, path);
    ChainVisitsOnce(path);
    KeysAre(ids, c);
  }

  lemma {:induction false} AtMost(a: set<nat>, b: set<nat>)
    requires a <= b
    ensures |a| <= |b|
  {
    if x :| x in a {
      AtMost(a - {x}, b - {x});
    }
  }

  lemma PeersAtMost(ids: set<nat>, c: Cluster, net: map<nat, Transport>, n: nat)
    requires Reachable(ids, c) && Reflects(net, c) && n in net
    ensures |net[n].peers| <= |ids|
  {
    KeysAre(ids, c);
    AtMost(net[n].peers.Keys, ids);
  }

  /** The chain of a node that knows a leader passes the leader, first or second. */
  lemma AtLeader(c: Cluster, net: map<nat, Transport>, path: seq<Transport>) returns (k: nat)
    requires Inv(c) && Reflects(net, c) && Chain(path) && path[0] in net.Values
    requires path[0].leader != 0 && path[0].leader in path[0].peers
    ensures k < |path| && path[k] == path[0].peers[path[0].leader]
  {
    var n := path[0].id;
    assert SoundNode(c, n, c.nodes[n]);
    k := if path[0].isLeader then 0 else 1;
  }

  /** A check at any node of any reachable cluster, standing still: it returns after at most one call
      a further node and one probe a peer, with the answer of the node its chain ends at, or with an
      error exactly if a call of that chain fails. */
  method CheckAt(ghost ids: set<nat>, ghost c: Cluster, net: map<nat, Transport>, n: nat, links: Links)
    returns (reply: Reply, calls: nat)
    requires 0 !in ids && Reachable(ids, c) && Reflects(net, c) && n in net
    ensures exists path: seq<Transport> :: Chain(path) && path[0] == net[n]
    ensures forall path: seq<Transport> :: Chain(path) && path[0] == net[n] ==>
              && reply.Answer? == Reached(path, links)
              && (reply.Answer? ==> Resolves(path[|path| - 1], links, reply.response)
                                    && calls == |path| - 1 + path[|path| - 1].ProbeCount())
              && (reply.CallError? ==> calls <= |path| - 1)
    ensures calls < 2 * |ids|
  {
    ghost var path := EveryNodeHasChain(ids, c, net, n);
    reply, calls := net[n].Check(false, links, path);
    PeersAtMost(ids, c, net, path[|path| - 1].id);
    forall other: seq<Transport> | Chain(other) && other[0] == net[n] ensures other == path {
      ChainUnique(other, path);
    }
  }

  lemma SameEnd(a: seq<Transport>, b: seq<Transport>, x: nat, y: nat)
    requires Chain(a) && Chain(b) && x < |a| && y < |b| && a[x] == b[y]
    ensures a[|a| - 1] == b[|b| - 1]
  {
    ChainUnique(a[x..], b[y..]);
    assert a[x..][|a| - 1 - x] == a[|a| - 1] && b[y..][|b| - 1 - y] == b[|b| - 1];
  }

  /** In every run, at every moment: nodes that know of the same leader, the leader among them, give
      answers that agree up to the order of the unhealthy peers. */
  lemma OneLeaderOneAnswer(ids: set<nat>, c: Cluster, net: map<nat, Transport>, a: seq<Transport>,
                           b: seq<Transport>, links: Links, r: Response, q: Response)
    requires 0 !in ids && Reachable(ids, c) && Reflects(net, c)
    requires Chain(a) && Chain(b) && a[0] in net.Values && b[0] in net.Values
    requires a[0].leader == b[0].leader != 0 && a[0].leader in a[0].peers && b[0].leader in b[0].peers
    requires Resolves(a[|a| - 1], links, r) && Resolves(b[|b| - 1], links, q)
    ensures r.hasLeader == q.hasLeader && r.meta == q.meta && multiset(r.unhealthy) == multiset(q.unhealthy)
  {
    ReachableInv(ids, c);
    var x := AtLeader(c, net, a);
    var y := AtLeader(c, net, b);
    SameEnd(a, b, x, y);
    LocationTransparent(a, b, links, r, q);
  }
}
