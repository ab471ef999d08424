/** Health checks that follow published leaders from node to node (raft/transport.go) while raft and
    every node's loop (raft/locker.go) keep running.

    Raft is an environment held to this contract: a node's term never decreases; each term has at
    most one leader; a node takes another node as leader of a term only from a message which that
    node sent in that term.  What a node publishes carries no term in the program; the term here is
    bookkeeping.  The two stores of a publication are one step; the two loads of a check are two. */
module LeaderWalk {
  import opened Wrappers
  import RaftLoop

  /** What raft at a node, or the node's loop, says of leadership: term, leader (0 for none), and
      whether the node is itself in the leader state (raft) or published as leader (loop). */
  datatype View = View(term: nat, lead: nat, leading: bool)

  /** The loop awaits a Ready; or has taken one, with its soft state if that changed and the terms
      of the leader messages in it; or has published and is sending those messages. */
  datatype Phase = Waiting | Taken(soft: Option<View>, terms: set<nat>) | Sending(terms: set<nat>)

  datatype Node = Node(raft: View, published: View, phase: Phase)

  /** The nodes by id; the leader of each term that has one; and which leaders have sent a message
      in which terms. */
  datatype Cluster = Cluster(nodes: map<nat, Node>, elected: map<nat, nat>, sent: set<(nat, nat)>)

  /** A check at a node, having followed leaders loaded in the listed terms; or, there, with the
      leader it has loaded and its term; or answered. */
  datatype Walk =
    | At(n: nat, hops: seq<nat>)
    | Loaded(n: nat, lead: nat, term: nat, hops: seq<nat>)
    | Answered(hops: seq<nat>)

  datatype World = World(cluster: Cluster, walk: Walk)

  datatype Move =
    | RaiseTerm(n: nat, term: nat)           // raft: a higher term, no leader known
    | Elect(n: nat)                          // raft: n wins its current term
    | StepDown(n: nat)                       // raft: n knows no leader of its current term any more
    | Hear(n: nat, from: nat, term: nat)     // raft: n takes a leader's message
    | TakeReady(n: nat, changed: bool, terms: set<nat>)
    | Publish(n: nat)
    | SendMessage(n: nat, term: nat)
    | Advance(n: nat)
    | LoadLeader                             // the check: first load
    | LoadIsLeader                           // the check: second load, then answer or forward

  predicate LeadsIn(c: Cluster, n: nat, term: nat) { term in c.elected && c.elected[term] == n }

  function SetRaft(c: Cluster, n: nat, v: View): Cluster
    requires n in c.nodes
  {
    c.(nodes := c.nodes[n := c.nodes[n].(raft := v)])
  }

  function SetPhase(c: Cluster, n: nat, phase: Phase): Cluster
    requires n in c.nodes
  {
    c.(nodes := c.nodes[n := c.nodes[n].(phase := phase)])
  }

  /** What the loop publishes: raft's soft state at the Ready if that changed, else its status now. */
  function Publication(n: nat, node: Node): View
    requires node.phase.Taken?
  {
    var v := if node.phase.soft.Some? then node.phase.soft.value else node.raft;
    View(v.term, v.lead, RaftLoop.NowLeader(n, RaftLoop.Soft(v.lead, v.leading)))
  }

  /** A publication is what the loop makes of the Ready: the leader the Ready reports, or the status if
      it reports none, and leadership exactly if that leader is the node or raft is in the leader state. */
  lemma PublishesReported(n: nat, node: Node, rd: RaftLoop.Ready)
    requires node.phase.Taken?
    requires rd.status == RaftLoop.Soft(node.raft.lead, node.raft.leading)
    requires if node.phase.soft.Some?
             then rd.softState == Some(RaftLoop.Soft(node.phase.soft.value.lead, node.phase.soft.value.leading))
             else rd.softState == None
    ensures var (v, soft) := (Publication(n, node), if rd.softState.Some? then rd.softState.value else rd.status);
            && v.lead == soft.lead && (v.leading <==> soft.lead == n || soft.leading)
            && v.lead == RaftLoop.Reported(rd).lead && v.leading == RaftLoop.NowLeader(n, RaftLoop.Reported(rd))
  {
  }

  /** The environment's contract, and the order of the loop's own steps. */
  predicate Allowed(c: Cluster, move: Move) {
    match move
    case RaiseTerm(n, term) => n in c.nodes && c.nodes[n].raft.term < term
    case Elect(n) => n in c.nodes && c.nodes[n].raft.term !in c.elected
    case StepDown(n) => n in c.nodes
    case Hear(n, from, term) => n in c.nodes && n != from && (from, term) in c.sent && c.nodes[n].raft.term <= term
    case TakeReady(n, _, terms) =>
      && n in c.nodes && c.nodes[n].phase.Waiting?
      && forall t :: t in terms ==> t <= c.nodes[n].raft.term && LeadsIn(c, n, t)
    case Publish(n) => n in c.nodes && c.nodes[n].phase.Taken?
    case SendMessage(n, term) => n in c.nodes && c.nodes[n].phase.Sending? && term in c.nodes[n].phase.terms
    case Advance(n) => n in c.nodes && c.nodes[n].phase.Sending?
    case _ => false
  }

  function Moved(c: Cluster, move: Move): (c': Cluster)
    requires Allowed(c, move)
    ensures c'.nodes.Keys == c.nodes.Keys
  {
    match move
    case RaiseTerm(n, term) => SetRaft(c, n, View(term, 0, false))
    case Elect(n) =>
      var term := c.nodes[n].raft.term;
      SetRaft(c, n, View(term, n, true)).(elected := c.elected[term := n])
    case StepDown(n) => SetRaft(c, n, View(c.nodes[n].raft.term, 0, false))
    case Hear(n, from, term) => SetRaft(c, n, View(term, from, false))
    case TakeReady(n, changed, terms) =>
      SetPhase(c, n, Taken(if changed then Some(c.nodes[n].raft) else None, terms))
    case Publish(n) =>
      var node := c.nodes[n];
      c.(nodes := c.nodes[n := Node(node.raft, Publication(n, node), Sending(node.phase.terms))])
    case SendMessage(n, term) => c.(sent := c.sent + {(n, term)})
    case Advance(n) => SetPhase(c, n, Waiting)
  }

  /** Every node is configured with every node as a peer. */
  function Walked(w: World, move: Move): Walk {
    match (move, w.walk)
    case (LoadLeader, At(n, hops)) =>
      if n !in w.cluster.nodes then Answered(hops)
      else
        var p := w.cluster.nodes[n].published;
        if p.lead == 0 then Answered(hops) else Loaded(n, p.lead, p.term, hops)
    case (LoadIsLeader, Loaded(n, lead, term, hops)) =>
      if n !in w.cluster.nodes || w.cluster.nodes[n].published.leading || lead !in w.cluster.nodes then Answered(hops)
      else At(lead, hops + [term])
    case _ => w.walk
  }

  function Next(w: World, move: Move): World {
    World(if Allowed(w.cluster, move) then Moved(w.cluster, move) else w.cluster, Walked(w, move))
  }

  function Run(w: World, moves: seq<Move>): World
    decreases |moves|
  {
    if moves == [] then w else Run(Next(w, moves[0]), moves[1..])
  }

  function Boot(ids: set<nat>): Cluster {
    Cluster(map n | n in ids :: Node(View(0, 0, false), View(0, 0, false), Waiting), map[], {})
  }

  // ----- what every step of the cluster keeps

  /** A view names the elected leader of its term, another node only after a message from it. */
  ghost predicate Founded(c: Cluster, n: nat, v: View) {
    && (v.lead != 0 ==> LeadsIn(c, v.lead, v.term) && (v.lead != n ==> (v.lead, v.term) in c.sent))
    && (v.leading ==> v.lead == n)
  }

  ghost predicate SoundNode(c: Cluster, n: nat, node: Node) {
    && n != 0
    && Founded(c, n, node.raft) && Founded(c, n, node.published)
    && (node.published.leading <==> node.published.lead == n)
    && node.published.term <= node.raft.term
    && match node.phase
       case Waiting => true
       case Sending(terms) => forall t :: t in terms ==> t <= node.published.term && LeadsIn(c, n, t)
       case Taken(soft, terms) =>
         && (forall t :: t in terms ==> LeadsIn(c, n, t) && t <= if soft.Some? then soft.value.term else node.raft.term)
         && (soft.Some? ==> Founded(c, n, soft.value) && node.published.term <= soft.value.term <= node.raft.term)
  }

  /** A node that no longer leads its term never publishes that it does. */
  ghost predicate GaveUp(c: Cluster, n: nat, node: Node, term: nat) {
    && LeadsIn(c, n, term)
    && term <= node.published.term
    && (node.published.term == term ==> node.published.lead == 0)
    && (node.raft.term == term ==> node.raft.lead == 0)
    && (node.phase.Taken? && node.phase.soft.Some? && node.phase.soft.value.term == term ==>
          node.phase.soft.value.lead == 0)
  }

  /** A soft state without a leader, taken after publishing leadership of its term, is not outrun
      by raft regaining that leadership. */
  ghost predicate Resigning(n: nat, node: Node) {
    (node.phase.Taken? && node.phase.soft.Some? && node.published.lead == n
      && node.phase.soft.value.term == node.published.term && node.phase.soft.value.lead == 0
      && node.raft.term == node.published.term)
    ==> node.raft.lead == 0
  }

  /** A leader sends messages of a term only after publishing a term as late. */
  ghost predicate Sent(c: Cluster, m: (nat, nat)) {
    m.0 in c.nodes && LeadsIn(c, m.0, m.1) && m.1 <= c.nodes[m.0].published.term
  }

  ghost predicate Inv(c: Cluster) {
    && (forall n :: n in c.nodes ==> SoundNode(c, n, c.nodes[n]) && Resigning(n, c.nodes[n]))
    && (forall m :: m in c.sent ==> Sent(c, m))
  }

  lemma BootInv(ids: set<nat>)
    requires 0 !in ids
    ensures Inv(Boot(ids))
  {
  }

  ghost predicate Grows(c: Cluster, c': Cluster) {
    && (forall t :: t in c.elected ==> t in c'.elected && c'.elected[t] == c.elected[t])
    && c.sent <= c'.sent
  }

  /** Elections and sent messages are never withdrawn, and published terms never fall. */
  lemma MovedGrows(c: Cluster, move: Move)
    requires Inv(c) && Allowed(c, move)
    ensures Grows(c, Moved(c, move))
    ensures forall n :: n in c.nodes ==> c.nodes[n].published.term <= Moved(c, move).nodes[n].published.term
  {
    if move.Publish? {
      assert SoundNode(c, move.n, c.nodes[move.n]);
    }
  }

  /** More elections and messages do not unsettle a node that stands still. */
  lemma StillSound(c: Cluster, c': Cluster, n: nat, node: Node)
    requires SoundNode(c, n, node)
    requires Grows(c, c')
    ensures SoundNode(c', n, node)
  {
  }

  /** The node the move is about. */
  function Mover(move: Move): nat
    requires !move.LoadLeader? && !move.LoadIsLeader?
  {
    move.n
  }

  /** Raft taking up a founded view of the same or a later term. */
  lemma RaftSound(c: Cluster, n: nat, node: Node, v: View)
    requires SoundNode(c, n, node) && Founded(c, n, v) && node.raft.term <= v.term
    ensures SoundNode(c, n, node.(raft := v))
  {
  }

  lemma TakeSound(c: Cluster, n: nat, node: Node, changed: bool, terms: set<nat>)
    requires SoundNode(c, n, node)
    requires forall t :: t in terms ==> t <= node.raft.term && LeadsIn(c, n, t)
    ensures SoundNode(c, n, node.(phase := Taken(if changed then Some(node.raft) else None, terms)))
  {
  }

  lemma PublishSound(c: Cluster, n: nat, node: Node)
    requires SoundNode(c, n, node) && node.phase.Taken?
    ensures SoundNode(c, n, Node(node.raft, Publication(n, node), Sending(node.phase.terms)))
  {
  }

  lemma MoverSound(c: Cluster, move: Move)
    requires Allowed(c, move) && SoundNode(c, Mover(move), c.nodes[Mover(move)]) && Grows(c, Moved(c, move))
    requires forall m :: m in c.sent ==> LeadsIn(c, m.0, m.1)
    ensures var c' := Moved(c, move);
            SoundNode(c', Mover(move), c'.nodes[Mover(move)])
  {
    var (c', n) := (Moved(c, move), Mover(move));
    var node := c.nodes[n];
    StillSound(c, c', n, node);
    match move {
      case Hear(_, from, term) =>
        assert (from, term) in c.sent;
        RaftSound(c', n, node, View(term, from, false));
      case RaiseTerm(_, term) => RaftSound(c', n, node, View(term, 0, false));
      case Elect(_) => RaftSound(c', n, node, View(node.raft.term, n, true));
      case StepDown(_) => RaftSound(c', n, node, View(node.raft.term, 0, false));
      case TakeReady(_, changed, terms) => TakeSound(c', n, node, changed, terms);
      case Publish(_) => PublishSound(c', n, node);
      case SendMessage(_, _) =>
      case Advance(_) =>
    }
  }

  lemma MoverResigns(c: Cluster, move: Move)
    requires Inv(c) && Allowed(c, move)
    ensures Resigning(Mover(move), Moved(c, move).nodes[Mover(move)])
  {
  }

  lemma MovedSound(c: Cluster, move: Move, n: nat)
    requires Inv(c) && Allowed(c, move) && n in c.nodes
    ensures var c' := Moved(c, move);
            SoundNode(c', n, c'.nodes[n]) && Resigning(n, c'.nodes[n])
  {
    MovedGrows(c, move);
    if n == Mover(move) {
      MoverSound(c, move);
      MoverResigns(c, move);
    } else {
      StillSound(c, Moved(c, move), n, c.nodes[n]);
    }
  }

  lemma SentKept(c: Cluster, move: Move, m: (nat, nat))
    requires Inv(c) && Allowed(c, move) && m in Moved(c, move).sent
    ensures Sent(Moved(c, move), m)
  {
    MovedGrows(c, move);
    if m !in c.sent {
      assert SoundNode(c, move.n, c.nodes[move.n]);
    }
  }

  lemma MovedInv(c: Cluster, move: Move)
    requires Inv(c) && Allowed(c, move)
    ensures Inv(Moved(c, move))
  {
    var c' := Moved(c, move);
    MovedGrows(c, move);
    forall n | n in c'.nodes ensures SoundNode(c', n, c'.nodes[n]) && Resigning(n, c'.nodes[n]) {
      MovedSound(c, move, n);
    }
    forall m | m in c'.sent ensures Sent(c', m) { SentKept(c, move, m); }
  }

  lemma MovedGaveUp(c: Cluster, move: Move, n: nat, term: nat)
    requires Inv(c) && Allowed(c, move) && n in c.nodes && GaveUp(c, n, c.nodes[n], term)
    ensures GaveUp(Moved(c, move), n, Moved(c, move).nodes[n], term)
  {
  }

  // ----- the check

  /** Terms loaded along the way never fall, and no three in a row are equal. */
  ghost predicate Rises(hops: seq<nat>) {
    && (forall i :: 0 <= i < |hops| - 1 ==> hops[i] <= hops[i + 1])
    && (forall i :: 0 <= i < |hops| - 2 ==> hops[i] < hops[i + 2])
  }

  /** The check got to `n` by following a leader loaded in term `t`: after a strict rise, from
      another node whose leader `n` was; or from `n` itself, which has given up that term. */
  ghost predicate Arrived(c: Cluster, n: nat, hops: seq<nat>)
    requires hops != []
  {
    var t := hops[|hops| - 1];
    n in c.nodes &&
    if 2 <= |hops| && hops[|hops| - 2] == t then GaveUp(c, n, c.nodes[n], t)
    else (n, t) in c.sent || GaveUp(c, n, c.nodes[n], t)
  }

  /** The leader loaded at `n` has sent a message in that term; or it is `n` itself, which still
      publishes its leadership or has given it up. */
  ghost predicate Follows(c: Cluster, n: nat, lead: nat, term: nat)
    requires n in c.nodes
  {
    if lead == n then c.nodes[n].published == View(term, n, true) || GaveUp(c, n, c.nodes[n], term)
    else (lead, term) in c.sent
  }

  /** The term loaded at `n` continues the terms behind, and may repeat only the last, at its own leader. */
  ghost predicate GoesOn(n: nat, lead: nat, term: nat, hops: seq<nat>) {
    && Rises(hops)
    && (hops != [] ==> hops[|hops| - 1] <= term)
    && (2 <= |hops| && hops[|hops| - 2] == hops[|hops| - 1] ==> hops[|hops| - 1] < term)
    && (hops != [] && hops[|hops| - 1] == term ==> lead == n)
  }

  /** What a check in progress knows of the terms behind it, wherever the cluster has got to. */
  ghost predicate Travels(c: Cluster, walk: Walk) {
    match walk
    case Answered(hops) => Rises(hops)
    case At(n, hops) => Rises(hops) && (hops != [] ==> Arrived(c, n, hops))
    case Loaded(n, lead, term, hops) =>
      n in c.nodes && lead != 0 && Follows(c, n, lead, term) && GoesOn(n, lead, term, hops)
  }

  ghost predicate OnTrack(w: World) { Travels(w.cluster, w.walk) }

  lemma ArrivedKept(c: Cluster, move: Move, n: nat, hops: seq<nat>)
    requires Inv(c) && Allowed(c, move) && hops != [] && Arrived(c, n, hops)
    ensures Arrived(Moved(c, move), n, hops)
  {
    MovedGrows(c, move);
    if GaveUp(c, n, c.nodes[n], hops[|hops| - 1]) {
      MovedGaveUp(c, move, n, hops[|hops| - 1]);
    }
  }

  /** Published leadership of a term lasts until it is given up. */
  lemma LeadershipKept(c: Cluster, move: Move, n: nat, term: nat)
    requires Inv(c) && Allowed(c, move) && n in c.nodes && c.nodes[n].published == View(term, n, true)
    ensures var c' := Moved(c, move);
            c'.nodes[n].published == View(term, n, true) || GaveUp(c', n, c'.nodes[n], term)
  {
  }

  lemma SentGrows(c: Cluster, move: Move)
    requires Allowed(c, move)
    ensures c.sent <= Moved(c, move).sent
  {
  }

  lemma FollowsKept(c: Cluster, move: Move, n: nat, lead: nat, term: nat)
    requires Inv(c) && Allowed(c, move) && n in c.nodes && Follows(c, n, lead, term)
    ensures Follows(Moved(c, move), n, lead, term)
  {
    SentGrows(c, move);
    if lead == n {
      if c.nodes[n].published == View(term, n, true) {
        LeadershipKept(c, move, n, term);
      } else {
        MovedGaveUp(c, move, n, term);
      }
    }
  }

  /** Raft and the loops moving on does not disturb the check. */
  lemma ClusterStep(c: Cluster, move: Move, walk: Walk)
    requires Inv(c) && Allowed(c, move) && Travels(c, walk)
    ensures Travels(Moved(c, move), walk)
  {
    match walk {
      case At(n, hops) => if hops != [] { ArrivedKept(c, move, n, hops); }
      case Loaded(n, lead, term, _) => FollowsKept(c, move, n, lead, term);
      case Answered(_) =>
    }
  }

  /** What the first load can find after following a leader: a later term, or the same term with
      the node as its own leader, or no leader. */
  lemma LoadStep(w: World)
    requires Inv(w.cluster) && OnTrack(w) && w.walk.At?
    ensures OnTrack(Next(w, LoadLeader))
    ensures var (last, now) := (w.walk.hops, Next(w, LoadLeader).walk);
            last != [] && now.Loaded? ==>
              last[|last| - 1] < now.term || (last[|last| - 1] == now.term && now.lead == now.n)
  {
    var (n, hops) := (w.walk.n, w.walk.hops);
    if n in w.cluster.nodes {
      assert SoundNode(w.cluster, n, w.cluster.nodes[n]);
    }
  }

  lemma RisesMore(hops: seq<nat>, term: nat)
    requires Rises(hops) && (hops != [] ==> hops[|hops| - 1] <= term)
    requires 2 <= |hops| && hops[|hops| - 2] == hops[|hops| - 1] ==> hops[|hops| - 1] < term
    ensures Rises(hops + [term])
  {
  }

  /** A node found no longer to publish leadership after naming itself has given that up. */
  lemma ForwardArrives(c: Cluster, n: nat, lead: nat, term: nat, hops: seq<nat>)
    requires n in c.nodes && lead in c.nodes && !c.nodes[n].published.leading && Follows(c, n, lead, term)
    requires hops != [] && hops[|hops| - 1] == term ==> lead == n
    ensures Arrived(c, lead, hops + [term])
  {
  }

  /** The second load answers, or forwards to a node that continues the check. */
  lemma ForwardStep(c: Cluster, n: nat, lead: nat, term: nat, hops: seq<nat>)
    requires Travels(c, Loaded(n, lead, term, hops))
    ensures Travels(c, Walked(World(c, Loaded(n, lead, term, hops)), LoadIsLeader))
  {
    RisesMore(hops, term);
    if !c.nodes[n].published.leading && lead in c.nodes {
      ForwardArrives(c, n, lead, term, hops);
    }
  }

  lemma NextInv(w: World, move: Move)
    requires Inv(w.cluster) && OnTrack(w)
    ensures Inv(Next(w, move).cluster) && OnTrack(Next(w, move))
  {
    if Allowed(w.cluster, move) {
      MovedInv(w.cluster, move);
      ClusterStep(w.cluster, move, w.walk);
    } else if move.LoadLeader? && w.walk.At? {
      LoadStep(w);
    } else if move.LoadIsLeader? && w.walk.Loaded? {
      ForwardStep(w.cluster, w.walk.n, w.walk.lead, w.walk.term, w.walk.hops);
    }
  }

  lemma {:induction false} RunInv(w: World, moves: seq<Move>)
    requires Inv(w.cluster) && OnTrack(w)
    ensures Inv(Run(w, moves).cluster) && OnTrack(Run(w, moves))
    decreases |moves|
  {
    if moves != [] {
      NextInv(w, moves[0]);
      RunInv(Next(w, moves[0]), moves[1..]);
    }
  }

  lemma {:induction false} RisesHigh(hops: seq<nat>, i: nat)
    requires Rises(hops) && i < |hops|
    ensures i / 2 <= hops[i]
  {
    if 2 <= i {
      RisesHigh(hops, i - 2);
    }
  }

  /** In every run, a check begun anywhere is forwarded through terms that rise at least once in
      any two hops; so where no term it meets exceeds `bound`, it makes at most 2 * bound + 2 hops. */
  lemma ForwardingTerminates(ids: set<nat>, before: seq<Move>, start: nat, moves: seq<Move>, bound: nat)
    requires 0 !in ids
    requires var w := Run(World(Run(World(Boot(ids), Answered([])), before).cluster, At(start, [])), moves);
             forall i :: 0 <= i < |w.walk.hops| ==> w.walk.hops[i] <= bound
    ensures var w := Run(World(Run(World(Boot(ids), Answered([])), before).cluster, At(start, [])), moves);
            Rises(w.walk.hops) && |w.walk.hops| <= 2 * bound + 2
  {
    BootInv(ids);
    RunInv(World(Boot(ids), Answered([])), before);
    var w0 := World(Run(World(Boot(ids), Answered([])), before).cluster, At(start, []));
    RunInv(w0, moves);
    var hops := Run(w0, moves).walk.hops;
    if hops != [] {
      RisesHigh(hops, |hops| - 1);
    }
  }
}
