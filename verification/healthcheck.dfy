/** One health check on a standing network of nodes: forwarding to the leader and the leader's
    probes of its peers (raft/transport.go). */
module HealthCheck {
  import opened Wrappers

  datatype Response = Response(hasLeader: bool, unhealthy: seq<nat>, meta: int)

  datatype Reply = Answer(response: Response) | CallError

  /** Whether calls from one node id to another get through. */
  type Links = (nat, nat) -> bool

  class Transport {
    const id: nat
    const meta: int
    var leader: nat
    var isLeader: bool
    var peers: map<nat, Transport>

    constructor (id: nat, meta: int)
      ensures this.id == id && this.meta == meta && leader == 0 && !isLeader && peers == map[]
    {
      this.id, this.meta := id, meta;
      leader, isLeader, peers := 0, false, map[];
    }

    /** A client's check at this node is forwarded. */
    predicate Forwards()
      reads this
    {
      leader != 0 && !isLeader && leader in peers
    }

    predicate Probes()
      reads this
    {
      leader != 0 && isLeader
    }

    method Check(fromLeader: bool, links: Links, ghost path: seq<Transport>) returns (reply: Reply, calls: nat)
      requires !fromLeader ==> Chain(path) && path[0] == this
      decreases if fromLeader then 0 else |path|, 0
      ensures fromLeader ==> calls == 0 && reply == Answer(Response(leader != 0, [], meta))
      ensures !fromLeader ==> reply.Answer? == Reached(path, links)
      ensures !fromLeader && reply.Answer? ==> Resolves(path[|path| - 1], links, reply.response)
      ensures !fromLeader && reply.Answer? ==> calls == |path| - 1 + path[|path| - 1].ProbeCount()
      ensures !fromLeader && reply.CallError? ==> calls <= |path| - 1
    {
      calls := 0;
      if leader == 0 {
        return Answer(Response(false, [], meta)), calls;
      }
      var unhealthy := [];
      if !fromLeader && isLeader {
        unhealthy, calls := ProbePeers(links);
      } else if !fromLeader {
        if leader !in peers {
          return Answer(Response(false, [], meta)), calls;
        }
        calls := 1;
        if !links(id, leader) {
          return CallError, calls;
        }
        assert path[0].Forwards() && path[1] == peers[leader];
        ghost var rest := path[1..];
        assert rest[|rest| - 1] == path[|path| - 1] && Chain(rest);
        var further;
        reply, further := peers[leader].Check(false, links, rest);
        calls := calls + further;
        assert Reached(path, links) <==> Reached(rest, links) by {
          assert forall i :: 0 <= i < |rest| ==> rest[i] == path[i + 1];
          assert forall i :: 1 <= i < |path| ==> path[i] == rest[i - 1];
        }
        return;
      }
      reply := Answer(Response(true, unhealthy, meta));
    }

    /** How many peers this node probes when it answers a check. */
    function ProbeCount(): nat
      reads this
    {
      if Probes() then |peers| else 0
    }

    /** The leader's part of Check: asks every peer, in any order, once. */
    method ProbePeers(links: Links) returns (unhealthy: seq<nat>, calls: nat)
      decreases 0, 1
      ensures Distinct(unhealthy) && calls == |peers|
      ensures forall p :: p in unhealthy <==> p in peers && (!links(id, p) || peers[p].leader == 0)
    {
      unhealthy, calls := [], 0;
      var rest := peers.Keys;
      while rest != {}
        invariant rest <= peers.Keys && calls + |rest| == |peers|
        invariant forall p :: p in unhealthy <==> p in peers && p !in rest && Unhealthy(this, p, links)
        invariant Distinct(unhealthy)
      {
        var p :| p in rest;
        var healthy := false;
        if links(id, p) {
          var probe, further := peers[p].Check(true, links, []);
          calls := calls + further;
          healthy := probe.response.hasLeader;
        }
        calls := calls + 1;
        if !healthy {
          unhealthy := unhealthy + [p];
        }
        assert |rest - {p}| == |rest| - 1;
        rest := rest - {p};
      }
    }
  }

  /** The leader's call to peer `p` fails, or finds that `p` sees no leader. */
  predicate Unhealthy(t: Transport, p: nat, links: Links)
    requires p in t.peers
    reads t, t.peers[p]
  {
    !links(t.id, p) || t.peers[p].leader == 0
  }

  /** Each node but the last forwards to the next; the last answers itself. */
  ghost predicate Chain(path: seq<Transport>)
    reads path
  {
    && path != []
    && !path[|path| - 1].Forwards()
    && forall i :: 0 <= i < |path| - 1 ==> path[i].Forwards() && path[i].peers[path[i].leader] == path[i + 1]
  }

  /** Every call along the chain gets through. */
  ghost predicate Reached(path: seq<Transport>, links: Links)
    reads path
  {
    forall i :: 0 <= i < |path| - 1 ==> links(path[i].id, path[i].leader)
  }

  /** The answer of the node a chain ends at: a leader lists exactly its unhealthy peers, once each. */
  ghost predicate Resolves(t: Transport, links: Links, r: Response)
    reads t, t.peers.Values
  {
    && r.meta == t.meta
    && r.hasLeader == t.Probes()
    && Distinct(r.unhealthy)
    && forall p :: p in r.unhealthy <==> t.Probes() && p in t.peers && Unhealthy(t, p, links)
  }

  /** A node has one chain. */
  lemma {:induction false} ChainUnique(a: seq<Transport>, b: seq<Transport>)
    requires Chain(a) && Chain(b) && a[0] == b[0]
    ensures a == b
  {
    if 1 < |a| && 1 < |b| {
      assert a[0].Forwards() && b[0].Forwards();
      ChainUnique(a[1..], b[1..]);
      assert a == [a[0]] + a[1..] && b == [b[0]] + b[1..];
    } else {
      assert |a| == 1 <==> !a[0].Forwards();
      assert |b| == 1 <==> !b[0].Forwards();
    }
  }

  /** A chain visits no node twice. */
  lemma ChainVisitsOnce(path: seq<Transport>)
    requires Chain(path)
    ensures forall i, j :: 0 <= i < j < |path| ==> path[i] != path[j]
  {
    forall i, j | 0 <= i < j < |path| ensures path[i] != path[j] {
      if path[i] == path[j] {
        ChainUnique(path[i..], path[j..]);
      }
    }
  }

  lemma {:induction false} DistinctOnce(s: seq<nat>, x: nat)
    requires Distinct(s)
    ensures multiset(s)[x] == if x in s then 1 else 0
  {
    if s != [] {
      DistinctOnce(s[..|s| - 1], x);
      assert s == s[..|s| - 1] + [s[|s| - 1]];
    }
  }

  /** Answers reached from any two nodes whose chains end at the same node agree, up to the order in
      which the unhealthy peers were found. */
  lemma LocationTransparent(a: seq<Transport>, b: seq<Transport>, links: Links, r: Response, q: Response)
    requires Chain(a) && Chain(b) && a[|a| - 1] == b[|b| - 1]
    requires Resolves(a[|a| - 1], links, r) && Resolves(b[|b| - 1], links, q)
    ensures r.hasLeader == q.hasLeader && r.meta == q.meta && multiset(r.unhealthy) == multiset(q.unhealthy)
  {
    forall x: nat ensures multiset(r.unhealthy)[x] == multiset(q.unhealthy)[x] {
      DistinctOnce(r.unhealthy, x);
      DistinctOnce(q.unhealthy, x);
    }
  }
}
