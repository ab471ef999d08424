/** When a forwarded health check makes one hop a term, and a run in which it makes two. */
module LeaderHops {
  import opened Wrappers
  import opened LeaderWalk

  /** Terms loaded along the way rise with every hop. */
  ghost predicate Climbs(hops: seq<nat>) {
    forall i :: 0 <= i < |hops| - 1 ==> hops[i] < hops[i + 1]
  }

  /** The check repeats a term: having followed a node to itself's term, it finds that the node named
      itself as leader at the first load and no longer publishes leadership at the second. */
  ghost predicate Repeats(w: World, move: Move) {
    && move.LoadIsLeader? && w.walk.Loaded?
    && w.walk.lead == w.walk.n && w.walk.n in w.cluster.nodes
    && !w.cluster.nodes[w.walk.n].published.leading
    && w.walk.hops != [] && w.walk.hops[|w.walk.hops| - 1] == w.walk.term
  }

  ghost predicate NeverRepeats(w: World, moves: seq<Move>)
    decreases |moves|
  {
    moves == [] || (!Repeats(w, moves[0]) && NeverRepeats(Next(w, moves[0]), moves[1..]))
  }

  /** A move of the check appends at most the term it had loaded. */
  lemma HopsNext(w: World, move: Move)
    ensures var (hops, hops') := (w.walk.hops, Next(w, move).walk.hops);
            || hops' == hops
            || (move.LoadIsLeader? && w.walk.Loaded? && hops' == hops + [w.walk.term])
  {
  }

  lemma ClimbsMore(hops: seq<nat>, term: nat)
    ensures Climbs(hops + [term]) <==> Climbs(hops) && (hops == [] || hops[|hops| - 1] < term)
  {
    var more := hops + [term];
    if hops != [] {
      assert more[|hops| - 1] == hops[|hops| - 1] && more[|hops|] == term;
    }
    forall i | 0 <= i < |hops| - 1 && Climbs(more) ensures hops[i] < hops[i + 1] {
      assert more[i] < more[i + 1];
    }
  }

  /** One move of a climbing check climbs on exactly if it does not repeat a term. */
  lemma ClimbsNext(w: World, move: Move)
    requires OnTrack(w) && Climbs(w.walk.hops)
    ensures Climbs(Next(w, move).walk.hops) <==> !Repeats(w, move)
  {
    if move.LoadIsLeader? && w.walk.Loaded? {
      ClimbsMore(w.walk.hops, w.walk.term);
    } else {
      HopsNext(w, move);
    }
  }

  /** A check that has repeated a term has done so for good. */
  lemma {:induction false} NeverClimbsAgain(w: World, moves: seq<Move>)
    requires !Climbs(w.walk.hops)
    ensures !Climbs(Run(w, moves).walk.hops)
    decreases |moves|
  {
    if moves != [] {
      HopsNext(w, moves[0]);
      if w.walk.Loaded? {
        ClimbsMore(w.walk.hops, w.walk.term);
      }
      NeverClimbsAgain(Next(w, moves[0]), moves[1..]);
    }
  }

  /** Wherever the cluster and a climbing check have got to: the terms it goes on to load rise with
      every hop if and only if it never finds a node that named itself, in the term it was followed
      in, publishing leadership no longer. */
  lemma {:induction false} ClimbsIff(w: World, moves: seq<Move>)
    requires Inv(w.cluster) && OnTrack(w) && Climbs(w.walk.hops)
    ensures Climbs(Run(w, moves).walk.hops) <==> NeverRepeats(w, moves)
    decreases |moves|
  {
    if moves != [] {
      ClimbsNext(w, moves[0]);
      NextInv(w, moves[0]);
      if Repeats(w, moves[0]) {
        NeverClimbsAgain(Next(w, moves[0]), moves[1..]);
      } else {
        ClimbsIff(Next(w, moves[0]), moves[1..]);
      }
    }
  }

  lemma {:induction false} ClimbsHigh(hops: seq<nat>, i: nat)
    requires Climbs(hops) && i < |hops|
    ensures i <= hops[i]
  {
    if i > 0 {
      ClimbsHigh(hops, i - 1);
    }
  }

  /** In every run, a check begun anywhere makes one hop a term if and only if it never repeats a
      term so; and then, where no term it meets exceeds `bound`, it makes at most bound + 1 hops. */
  lemma OneHopATermIff(ids: set<nat>, before: seq<Move>, start: nat, moves: seq<Move>, bound: nat)
    requires 0 !in ids
    ensures var w0 := World(Run(World(Boot(ids), Walk.Answered([])), before).cluster, Walk.At(start, []));
            var hops := Run(w0, moves).walk.hops;
            && (Climbs(hops) <==> NeverRepeats(w0, moves))
            && (Climbs(hops) && (forall i :: 0 <= i < |hops| ==> hops[i] <= bound) ==> |hops| <= bound + 1)
  {
    BootInv(ids);
    RunInv(World(Boot(ids), Walk.Answered([])), before);
    var w0 := World(Run(World(Boot(ids), Walk.Answered([])), before).cluster, Walk.At(start, []));
    ClimbsIff(w0, moves);
    var hops := Run(w0, moves).walk.hops;
    if Climbs(hops) && hops != [] {
      ClimbsHigh(hops, |hops| - 1);
    }
  }

  // ----- a check that makes two hops in one term

  lemma {:induction false} RunConcat(w: World, first: seq<Move>, second: seq<Move>)
    ensures Run(w, first + second) == Run(Run(w, first), second)
    decreases |first|
  {
    if first == [] {
      assert first + second == second;
    } else {
      assert (first + second)[1..] == first[1..] + second;
      RunConcat(Next(w, first[0]), first[1..], second);
    }
  }

  lemma RunFour(w: World, a: Move, b: Move, c: Move, d: Move)
    ensures Run(w, [a, b, c, d]) == Next(Next(Next(Next(w, a), b), c), d)
  {
    var w1 := Next(w, a);
    var w2 := Next(w1, b);
    var w3 := Next(w2, c);
    assert [a, b, c, d][1..] == [b, c, d] && [b, c, d][1..] == [c, d] && [c, d][1..] == [d] && [d][1..] == [];
    assert Run(w3, [d]) == Run(Next(w3, d), []);
    assert Run(w2, [c, d]) == Run(w3, [d]);
    assert Run(w1, [b, c, d]) == Run(w2, [c, d]);
  }

  /** Node 1 wins term 1 and publishes it; node 2 hears of it and publishes its leader; the check goes
      from node 2 to node 1 and loads its leader; node 1 steps down and publishes that. */
  const WINS: seq<Move> := [RaiseTerm(1, 1), Elect(1), TakeReady(1, true, {1}), Publish(1)]
  const TELLS: seq<Move> := [SendMessage(1, 1), Hear(2, 1, 1), TakeReady(2, true, {}), Publish(2)]
  const FOLLOWS: seq<Move> := [LoadLeader, LoadIsLeader, LoadLeader, StepDown(1)]
  const RESIGNS: seq<Move> := [Advance(1), TakeReady(1, true, {}), Publish(1), LoadIsLeader]

  const LED := View(1, 1, true)
  const FOLLOWED := View(1, 1, false)
  const RESIGNED := View(1, 0, false)
  const NOBODY := View(0, 0, false)

  function Pair(a: Node, b: Node, elected: map<nat, nat>, sent: set<(nat, nat)>, walk: Walk): World {
    World(Cluster(map[1 := a, 2 := b], elected, sent), walk)
  }

  /** Node 1 takes a Ready with its new view and publishes it. */
  lemma Publishes(v: View, was: View, b: Node, elected: map<nat, nat>, sent: set<(nat, nat)>, walk: Walk,
                  terms: set<nat>)
    requires v.leading <==> v.lead == 1
    requires forall t :: t in terms ==> t <= v.term && t in elected && elected[t] == 1
    ensures Next(Next(Pair(Node(v, was, Waiting), b, elected, sent, walk), TakeReady(1, true, terms)), Publish(1))
         == Pair(Node(v, v, Sending(terms)), b, elected, sent, walk)
  {
    var w := Pair(Node(v, was, Waiting), b, elected, sent, walk);
    assert Next(w, TakeReady(1, true, terms)) == Pair(Node(v, was, Taken(Some(v), terms)), b, elected, sent, walk);
  }

  lemma Wins(b: Node, walk: Walk)
    ensures Run(Pair(Node(NOBODY, NOBODY, Waiting), b, map[], {}, walk), WINS)
         == Pair(Node(LED, LED, Sending({1})), b, map[1 := 1], {}, walk)
  {
    var w := Pair(Node(NOBODY, NOBODY, Waiting), b, map[], {}, walk);
    RunFour(w, WINS[0], WINS[1], WINS[2], WINS[3]);
    assert Next(w, WINS[0]) == Pair(Node(RESIGNED, NOBODY, Waiting), b, map[], {}, walk);
    assert Next(Next(w, WINS[0]), WINS[1]) == Pair(Node(LED, NOBODY, Waiting), b, map[1 := 1], {}, walk);
    Publishes(LED, NOBODY, b, map[1 := 1], {}, walk, {1});
  }

  lemma Tells(walk: Walk)
    ensures Run(Pair(Node(LED, LED, Sending({1})), Node(NOBODY, NOBODY, Waiting), map[1 := 1], {}, walk), TELLS)
         == Pair(Node(LED, LED, Sending({1})), Node(FOLLOWED, FOLLOWED, Sending({})), map[1 := 1], {(1, 1)}, walk)
  {
    var a := Node(LED, LED, Sending({1}));
    var w := Pair(a, Node(NOBODY, NOBODY, Waiting), map[1 := 1], {}, walk);
    RunFour(w, TELLS[0], TELLS[1], TELLS[2], TELLS[3]);
    var w1 := Next(w, TELLS[0]);
    assert w1 == Pair(a, Node(NOBODY, NOBODY, Waiting), map[1 := 1], {(1, 1)}, walk);
    var w2 := Next(w1, TELLS[1]);
    assert w2 == Pair(a, Node(FOLLOWED, NOBODY, Waiting), map[1 := 1], {(1, 1)}, walk);
    var w3 := Next(w2, TELLS[2]);
    assert w3 == Pair(a, Node(FOLLOWED, NOBODY, Taken(Some(FOLLOWED), {})), map[1 := 1], {(1, 1)}, walk);
    assert Next(w3, TELLS[3]) == Pair(a, Node(FOLLOWED, FOLLOWED, Sending({})), map[1 := 1], {(1, 1)}, walk);
  }

  lemma Follow(b: Node)
    requires b == Node(FOLLOWED, FOLLOWED, Sending({}))
    ensures Run(Pair(Node(LED, LED, Sending({1})), b, map[1 := 1], {(1, 1)}, Walk.At(2, [])), FOLLOWS)
         == Pair(Node(RESIGNED, LED, Sending({1})), b, map[1 := 1], {(1, 1)}, Walk.Loaded(1, 1, 1, [1]))
  {
    var a := Node(LED, LED, Sending({1}));
    var w := Pair(a, b, map[1 := 1], {(1, 1)}, Walk.At(2, []));
    RunFour(w, FOLLOWS[0], FOLLOWS[1], FOLLOWS[2], FOLLOWS[3]);
    var w1 := Next(w, FOLLOWS[0]);
    assert w1 == Pair(a, b, map[1 := 1], {(1, 1)}, Walk.Loaded(2, 1, 1, []));
    var w2 := Next(w1, FOLLOWS[1]);
    assert w2 == Pair(a, b, map[1 := 1], {(1, 1)}, Walk.At(1, [1]));
    var w3 := Next(w2, FOLLOWS[2]);
    assert w3 == Pair(a, b, map[1 := 1], {(1, 1)}, Walk.Loaded(1, 1, 1, [1]));
    assert Next(w3, FOLLOWS[3])
        == Pair(Node(RESIGNED, LED, Sending({1})), b, map[1 := 1], {(1, 1)}, Walk.Loaded(1, 1, 1, [1]));
  }

  /** The second load of a check at a node that names itself no longer. */
  lemma ForwardsToItself(w: World)
    requires w.walk == Walk.Loaded(1, 1, 1, [1]) && 1 in w.cluster.nodes && !w.cluster.nodes[1].published.leading
    ensures Next(w, LoadIsLeader) == World(w.cluster, Walk.At(1, [1, 1]))
  {
    assert [1] + [1] == [1, 1];
  }

  lemma Resigns(b: Node)
    ensures Run(Pair(Node(RESIGNED, LED, Sending({1})), b, map[1 := 1], {(1, 1)}, Walk.Loaded(1, 1, 1, [1])), RESIGNS)
         == Pair(Node(RESIGNED, RESIGNED, Sending({})), b, map[1 := 1], {(1, 1)}, Walk.At(1, [1, 1]))
  {
    var walk := Walk.Loaded(1, 1, 1, [1]);
    var w := Pair(Node(RESIGNED, LED, Sending({1})), b, map[1 := 1], {(1, 1)}, walk);
    RunFour(w, RESIGNS[0], RESIGNS[1], RESIGNS[2], RESIGNS[3]);
    var w1 := Next(w, RESIGNS[0]);
    assert w1 == Pair(Node(RESIGNED, LED, Waiting), b, map[1 := 1], {(1, 1)}, walk);
    Publishes(RESIGNED, LED, b, map[1 := 1], {(1, 1)}, walk, {});
    ForwardsToItself(Pair(Node(RESIGNED, RESIGNED, Sending({})), b, map[1 := 1], {(1, 1)}, walk));
  }

  /** From boot, a check at node 2 is forwarded to node 1 and from there, in the same term, to node 1. */
  lemma TwoHopsInOneTerm()
    ensures var w := Run(World(Boot({1, 2}), Walk.At(2, [])), WINS + (TELLS + (FOLLOWS + RESIGNS)));
            w.walk == Walk.At(1, [1, 1]) && !Climbs(w.walk.hops)
  {
    var b := Node(NOBODY, NOBODY, Waiting);
    var w := World(Boot({1, 2}), Walk.At(2, []));
    assert w == Pair(b, b, map[], {}, Walk.At(2, []));
    RunConcat(w, WINS, TELLS + (FOLLOWS + RESIGNS));
    Wins(b, Walk.At(2, []));
    var w1 := Run(w, WINS);
    RunConcat(w1, TELLS, FOLLOWS + RESIGNS);
    Tells(Walk.At(2, []));
    var w2 := Run(w1, TELLS);
    RunConcat(w2, FOLLOWS, RESIGNS);
    var b' := Node(FOLLOWED, FOLLOWED, Sending({}));
    Follow(b');
    Resigns(b');
    var hops: seq<nat> := [1, 1];
    assert hops[0] == hops[1];
  }
}
