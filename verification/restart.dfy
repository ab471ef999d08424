/** Waking up runnables when clusters are added (multicluster/manager.go, multicluster/raft.go).

    Producers add a cluster and then signal a channel of capacity one without blocking.  Consumers
    share the channel: each engages every cluster once when it starts, and again for each token it
    receives.  A consumer is one run of one runnable's Warmup or Start. */
module Restart {

  /** Engaging all clusters: list their names, look each one up, engage each one found.  A consumer
      that has started or received a token is woken until it lists the names. */
  datatype Stage =
    | Woken
    | Fetching(todo: set<nat>, found: map<nat, nat>)
    | Engaging(rest: map<nat, nat>)
    | Listening
    | Stopped

  datatype Consumer = Consumer(runnable: nat, stage: Stage)

  /** An engagement: by a runnable, of a cluster name, with the cluster of that generation. */
  datatype Engagement = Engagement(runnable: nat, name: nat, generation: nat)

  /** Each cluster's latest generation, the generations given out, the producers between adding and
      signalling, whether the channel is full, the consumers that have run, what was engaged. */
  datatype World = World(clusters: map<nat, nat>, clock: nat, unsignalled: nat, full: bool,
                         consumers: seq<Consumer>, engaged: set<Engagement>)

  datatype Move =
    | AddOrReplace(name: nat)
    | Signal
    | StartConsumer(runnable: nat)
    | Receive(c: nat)
    | List(c: nat)
    | Fetch(c: nat, name: nat)
    | Engage(c: nat, name: nat)
    | Stop(c: nat)

  /** Static clusters are added without a signal before anything runs. */
  function Boot(names: set<nat>): World {
    World(map x | x in names :: 0, 0, 0, false, [], {})
  }

  function EngagingFrom(rest: map<nat, nat>): Stage {
    if rest == map[] then Listening else Engaging(rest)
  }

  function FetchingFrom(todo: set<nat>, found: map<nat, nat>): Stage {
    if todo == {} then EngagingFrom(found) else Fetching(todo, found)
  }

  function SetStage(w: World, c: nat, stage: Stage): World
    requires c < |w.consumers|
  {
    w.(consumers := w.consumers[c := w.consumers[c].(stage := stage)])
  }

  predicate Enabled(w: World, move: Move) {
    match move
    case AddOrReplace(_) => true
    case Signal => 0 < w.unsignalled
    case StartConsumer(_) => true
    case Receive(c) => c < |w.consumers| && w.consumers[c].stage.Listening? && w.full
    case List(c) => c < |w.consumers| && w.consumers[c].stage.Woken?
    case Fetch(c, name) =>
      c < |w.consumers| && w.consumers[c].stage.Fetching? && name in w.consumers[c].stage.todo && name in w.clusters
    case Engage(c, name) => c < |w.consumers| && w.consumers[c].stage.Engaging? && name in w.consumers[c].stage.rest
    case Stop(c) => c < |w.consumers| && w.consumers[c].stage.Listening?
  }

  function Next(w: World, move: Move): World {
    if !Enabled(w, move) then w
    else
      match move
      case AddOrReplace(name) =>
        w.(clusters := w.clusters[name := w.clock + 1], clock := w.clock + 1, unsignalled := w.unsignalled + 1)
      case Signal => w.(unsignalled := w.unsignalled - 1, full := true)
      case StartConsumer(r) => w.(consumers := w.consumers + [Consumer(r, Woken)])
      case Receive(c) => SetStage(w, c, Woken).(full := false)
      case List(c) => SetStage(w, c, FetchingFrom(w.clusters.Keys, map[]))
      case Fetch(c, name) =>
        var stage := w.consumers[c].stage;
        SetStage(w, c, FetchingFrom(stage.todo - {name}, stage.found[name := w.clusters[name]]))
      case Engage(c, name) =>
        var rest := w.consumers[c].stage.rest;
        SetStage(w, c, EngagingFrom(rest - {name}))
          .(engaged := w.engaged + {Engagement(w.consumers[c].runnable, name, rest[name])})
      case Stop(c) => SetStage(w, c, Stopped)
  }

  function Run(w: World, moves: seq<Move>): World
    decreases |moves|
  {
    if moves == [] then w else Run(Next(w, moves[0]), moves[1..])
  }

  /** The consumer has yet to engage the cluster of this name in its latest generation. */
  ghost predicate WillEngage(w: World, c: Consumer, name: nat)
    requires name in w.clusters
  {
    match c.stage
    case Woken => true
    case Fetching(todo, found) => name in todo || (name in found && found[name] == w.clusters[name])
    case Engaging(rest) => name in rest && rest[name] == w.clusters[name]
    case _ => false
  }

  ghost predicate Engaged(w: World, runnable: nat, name: nat)
    requires name in w.clusters
  {
    Engagement(runnable, name, w.clusters[name]) in w.engaged
  }

  ghost predicate Covered(w: World, name: nat)
    requires name in w.clusters
  {
    || 0 < w.unsignalled
    || w.full
    || w.consumers == []
    || (exists c :: 0 <= c < |w.consumers| && WillEngage(w, w.consumers[c], name))
    || (exists r :: Engaged(w, r, name))
  }

  ghost predicate Inv(w: World) {
    && (forall name :: name in w.clusters ==> Covered(w, name))
    && (forall c :: 0 <= c < |w.consumers| && w.consumers[c].stage.Fetching? ==>
          w.consumers[c].stage.todo <= w.clusters.Keys)
    && (forall name :: name in w.clusters ==> w.clusters[name] <= w.clock)
  }

  /** A consumer about to engage a cluster stays about to, until it does. */
  lemma StillWill(w: World, move: Move, c: nat, name: nat)
    requires Enabled(w, move) && (move.List? || move.Fetch? || move.Engage? || move.Stop?)
    requires name in w.clusters && c < |w.consumers| && WillEngage(w, w.consumers[c], name)
    requires move != Engage(c, name)
    ensures WillEngage(Next(w, move), Next(w, move).consumers[c], name)
  {
    var stage := w.consumers[c].stage;
    if move.Fetch? && move.c == c {
      assert name in stage.todo - {move.name} || name in stage.found[move.name := w.clusters[move.name]];
    } else if move.Engage? && move.c == c {
      assert name in stage.rest - {move.name};
    }
  }

  lemma StillCovered(w: World, move: Move, name: nat)
    requires Inv(w) && Enabled(w, move) && name in w.clusters
    requires move.List? || move.Fetch? || move.Engage? || move.Stop?
    ensures Covered(Next(w, move), name)
  {
    var w' := Next(w, move);
    assert Covered(w, name);
    if r :| Engaged(w, r, name) {
      assert Engaged(w', r, name);
    } else if w.unsignalled == 0 && !w.full {
      var c :| 0 <= c < |w.consumers| && WillEngage(w, w.consumers[c], name);
      if move == Engage(c, name) {
        assert Engaged(w', w.consumers[c].runnable, name);
      } else {
        StillWill(w, move, c, name);
      }
    }
  }

  lemma CoveredNext(w: World, move: Move, name: nat)
    requires Inv(w) && Enabled(w, move) && name in Next(w, move).clusters
    ensures Covered(Next(w, move), name)
  {
    var w' := Next(w, move);
    if move.StartConsumer? {
      assert WillEngage(w', w'.consumers[|w.consumers|], name);
    } else if move.Receive? {
      assert WillEngage(w', w'.consumers[move.c], name);
    } else if move.List? || move.Fetch? || move.Engage? || move.Stop? {
      StillCovered(w, move, name);
    }
  }

  lemma NextInv(w: World, move: Move)
    requires Inv(w)
    ensures Inv(Next(w, move))
  {
    if Enabled(w, move) {
      forall name | name in Next(w, move).clusters ensures Covered(Next(w, move), name) {
        CoveredNext(w, move, name);
      }
    }
  }

  lemma {:induction false} RunInv(w: World, moves: seq<Move>)
    requires Inv(w)
    ensures Inv(Run(w, moves))
    decreases |moves|
  {
    if moves != [] {
      NextInv(w, moves[0]);
      RunInv(Next(w, moves[0]), moves[1..]);
    }
  }

  /** No producer between adding and signalling, an empty channel, no consumer engaging, and at
      least one that has run. */
  ghost predicate Quiescent(w: World) {
    && w.unsignalled == 0 && !w.full && w.consumers != []
    && forall c :: 0 <= c < |w.consumers| ==> w.consumers[c].stage.Listening? || w.consumers[c].stage.Stopped?
  }

  /** No lost wake-up: at rest, each cluster was engaged after its latest addition. */
  lemma NoLostWakeup(names: set<nat>, moves: seq<Move>, name: nat)
    requires var w := Run(Boot(names), moves); Quiescent(w) && name in w.clusters
    ensures var w := Run(Boot(names), moves); exists r :: Engaged(w, r, name)
  {
    RunInv(Boot(names), moves);
    assert Covered(Run(Boot(names), moves), name);
  }

  ghost predicate StageDated(stage: Stage, clock: nat) {
    match stage
    case Fetching(_, found) => forall name :: name in found ==> found[name] <= clock
    case Engaging(rest) => forall name :: name in rest ==> rest[name] <= clock
    case _ => true
  }

  /** No cluster has been looked up or engaged in a generation not yet given out. */
  ghost predicate Dated(w: World) {
    && (forall e :: e in w.engaged ==> e.generation <= w.clock)
    && (forall name :: name in w.clusters ==> w.clusters[name] <= w.clock)
    && (forall c :: 0 <= c < |w.consumers| ==> StageDated(w.consumers[c].stage, w.clock))
  }

  lemma NextDated(w: World, move: Move)
    requires Dated(w)
    ensures Dated(Next(w, move))
  {
    var w' := Next(w, move);
    forall c | 0 <= c < |w'.consumers| ensures StageDated(w'.consumers[c].stage, w'.clock) {
      if c < |w.consumers| {
        assert StageDated(w.consumers[c].stage, w.clock);
      }
    }
  }

  lemma {:induction false} RunDated(w: World, moves: seq<Move>)
    requires Dated(w)
    ensures Dated(Run(w, moves))
    decreases |moves|
  {
    if moves != [] {
      NextDated(w, moves[0]);
      RunDated(Next(w, moves[0]), moves[1..]);
    }
  }

  /** Adding or replacing a cluster asks for it to be engaged anew: in every run, right afterwards no
      runnable has engaged it in its latest generation. */
  lemma AddedIsNotEngaged(names: set<nat>, moves: seq<Move>, name: nat, r: nat)
    ensures var w := Next(Run(Boot(names), moves), AddOrReplace(name));
            name in w.clusters && !Engaged(w, r, name)
  {
    RunDated(Boot(names), moves);
  }

  // ----- which runnable is woken

  /** The moves start consumers of runnables below `n` only. */
  ghost predicate Among(moves: seq<Move>, n: nat) {
    forall k :: 0 <= k < |moves| && moves[k].StartConsumer? ==> moves[k].runnable < n
  }

  ghost predicate Below(w: World, n: nat) {
    && (forall c :: 0 <= c < |w.consumers| ==> w.consumers[c].runnable < n)
    && (forall e :: e in w.engaged ==> e.runnable < n)
  }

  lemma {:induction false} RunBelow(w: World, moves: seq<Move>, n: nat)
    requires Below(w, n) && Among(moves, n)
    ensures Below(Run(w, moves), n)
    decreases |moves|
  {
    if moves != [] {
      RunBelow(Next(w, moves[0]), moves[1..], n);
    }
  }

  ghost predicate AllCurrent(w: World) {
    forall c, name :: 0 <= c < |w.consumers| && name in w.clusters ==> Engaged(w, w.consumers[c].runnable, name)
  }

  /** With `n` runnables sharing the channel, every one that has run is up to date at rest. */
  ghost predicate WakesAll(n: nat) {
    forall names: set<nat>, moves: seq<Move> ::
      Among(moves, n) && Quiescent(Run(Boot(names), moves)) ==> AllCurrent(Run(Boot(names), moves))
  }

  lemma {:induction false} RunConcat(w: World, first: seq<Move>, second: seq<Move>)
    ensures Run(w, first + second) == Run(Run(w, first), second)
    decreases |first|
  {
    if first == [] {
      assert first + second == second;
    } else {
      assert (first + second)[1..] == first[1..] + second;
      RunConcat(Next(w, first[0]), first[1..], second);
    }
  }

  lemma RunTwo(w: World, a: Move, b: Move)
    ensures Run(w, [a, b]) == Next(Next(w, a), b)
  {
    assert [a, b][1..] == [b] && [b][1..] == [];
    assert Run(Next(w, a), [b]) == Run(Next(Next(w, a), b), []);
  }

  const START_BOTH: seq<Move> := [StartConsumer(0), List(0)] + [StartConsumer(1), List(1)]
  const ADD_ONE: seq<Move> := [AddOrReplace(7), Signal]
  const WAKE_FIRST: seq<Move> := [Receive(0), List(0)] + [Fetch(0, 7), Engage(0, 7)]

  lemma BothStart()
    ensures Run(Boot({}), START_BOTH) == World(map[], 0, 0, false, [Consumer(0, Listening), Consumer(1, Listening)], {})
  {
    var w := Boot({});
    assert w == World(map[], 0, 0, false, [], {});
    RunConcat(w, [StartConsumer(0), List(0)], [StartConsumer(1), List(1)]);
    RunTwo(w, StartConsumer(0), List(0));
    var w' := World(map[], 0, 0, false, [Consumer(0, Listening)], {});
    RunTwo(w', StartConsumer(1), List(1));
  }

  lemma FirstWakes(w: World)
    requires w == World(map[7 := 1], 1, 0, true, [Consumer(0, Listening), Consumer(1, Listening)], {})
    ensures Run(w, WAKE_FIRST)
         == World(map[7 := 1], 1, 0, false, [Consumer(0, Listening), Consumer(1, Listening)], {Engagement(0, 7, 1)})
  {
    RunConcat(w, [Receive(0), List(0)], [Fetch(0, 7), Engage(0, 7)]);
    RunTwo(w, Receive(0), List(0));
    assert w.clusters.Keys == {7};
    var w' := w.(full := false, consumers := [Consumer(0, Fetching({7}, map[])), Consumer(1, Listening)]);
    RunTwo(w', Fetch(0, 7), Engage(0, 7));
  }

  /** Two runnables start, one cluster is added, and one of them takes the token. */
  const STOLEN: seq<Move> := START_BOTH + (ADD_ONE + WAKE_FIRST)

  lemma TokenTakenOnce()
    ensures var w := Run(Boot({}), STOLEN); Quiescent(w) && !AllCurrent(w)
  {
    RunConcat(Boot({}), START_BOTH, ADD_ONE + WAKE_FIRST);
    BothStart();
    var both := Run(Boot({}), START_BOTH);
    RunConcat(both, ADD_ONE, WAKE_FIRST);
    RunTwo(both, AddOrReplace(7), Signal);
    FirstWakes(World(map[7 := 1], 1, 0, true, both.consumers, {}));
    var w := Run(Boot({}), STOLEN);
    assert !Engaged(w, w.consumers[1].runnable, 7);
  }

  /** A shared channel wakes every runnable in every run exactly when there is at most one. */
  lemma WakesAllIff(n: nat)
    ensures WakesAll(n) <==> n <= 1
  {
    if n <= 1 {
      forall names: set<nat>, moves: seq<Move> | Among(moves, n) && Quiescent(Run(Boot(names), moves))
        ensures AllCurrent(Run(Boot(names), moves))
      {
        var w := Run(Boot(names), moves);
        RunBelow(Boot(names), moves, n);
        forall c, name | 0 <= c < |w.consumers| && name in w.clusters
          ensures Engaged(w, w.consumers[c].runnable, name)
        {
          NoLostWakeup(names, moves, name);
          var r :| Engaged(w, r, name);
          assert Engagement(r, name, w.clusters[name]) in w.engaged;
        }
      }
    } else {
      TokenTakenOnce();
      assert Among(STOLEN, n);
    }
  }

  // ----- the program

  /** The move is a step of consumer `c`. */
  predicate ActsOn(move: Move, c: nat) {
    match move
    case Receive(i) => i == c
    case List(i) => i == c
    case Fetch(i, _) => i == c
    case Engage(i, _) => i == c
    case Stop(i) => i == c
    case _ => false
  }

  /** What everyone else does before each step of a consumer. */
  type Others = nat -> seq<Move>

  /** The others leave consumer `c` alone and start runnables below `n` only. */
  ghost predicate Apart(others: Others, c: nat, n: nat) {
    forall k: nat :: Among(others(k), n) && forall m :: m in others(k) ==> !ActsOn(m, c)
  }

  /** These clusters are still there, none in an older generation. */
  ghost predicate Earlier(was: map<nat, nat>, now: map<nat, nat>) {
    forall name :: name in was ==> name in now && was[name] <= now[name]
  }

  lemma NextApart(w: World, move: Move, c: nat)
    requires Inv(w) && c < |w.consumers| && !ActsOn(move, c)
    ensures var w' := Next(w, move);
            && |w.consumers| <= |w'.consumers| && w'.consumers[c] == w.consumers[c]
            && Earlier(w.clusters, w'.clusters) && w.engaged <= w'.engaged
  {
  }

  lemma {:induction false} RunApart(w: World, moves: seq<Move>, c: nat)
    requires Inv(w) && c < |w.consumers| && forall m :: m in moves ==> !ActsOn(m, c)
    ensures var w' := Run(w, moves);
            && Inv(w') && |w.consumers| <= |w'.consumers| && w'.consumers[c] == w.consumers[c]
            && Earlier(w.clusters, w'.clusters) && w.engaged <= w'.engaged
    decreases |moves|
  {
    if moves != [] {
      assert !ActsOn(moves[0], c);
      NextInv(w, moves[0]);
      NextApart(w, moves[0], c);
      RunApart(Next(w, moves[0]), moves[1..], c);
    }
  }

  lemma RunMore(w: World, moves: seq<Move>, last: Move)
    ensures Run(w, moves + [last]) == Next(Run(w, moves), last)
  {
    RunConcat(w, moves, [last]);
    assert [last][1..] == [];
    assert Run(Run(w, moves), [last]) == Run(Next(Run(w, moves), last), []);
  }

  lemma {:induction false} RunKeeps(w: World, moves: seq<Move>)
    ensures w.engaged <= Run(w, moves).engaged
    decreases |moves|
  {
    if moves != [] {
      RunKeeps(Next(w, moves[0]), moves[1..]);
    }
  }

  /** These moves lead here, and start runnables below `n` only. */
  ghost predicate Went(w: World, moves: seq<Move>, now: World, n: nat) {
    now == Run(w, moves) && Among(moves, n) && Inv(now)
  }

  lemma WentOn(w: World, moves: seq<Move>, mid: World, more: seq<Move>, now: World, n: nat)
    requires Went(w, moves, mid, n) && Went(mid, more, now, n)
    ensures Went(w, moves + more, now, n)
  {
    RunConcat(w, moves, more);
  }

  lemma WentTo(w: World, moves: seq<Move>, last: Move, now: World, n: nat)
    requires Inv(w) && Among(moves, n) && !last.StartConsumer? && now == Next(Run(w, moves), last)
    ensures Went(w, moves + [last], now, n)
  {
    RunMore(w, moves, last);
    RunInv(w, moves + [last]);
  }

  ghost predicate Listens(w: World, c: nat) { c < |w.consumers| && w.consumers[c].stage.Listening? }

  /** These moves are one turn of consumer `c`: the others', and then, exactly if the channel holds a
      token, its receipt and engagements until the consumer listens again. */
  ghost predicate TurnOf(w: World, moves: seq<Move>, others: Others, tick: nat, t: nat, c: nat) {
    if !Run(w, others(tick)).full then moves == others(tick) && t == tick + 1
    else tick < t && others(tick) + [Receive(c)] <= moves && Listens(Run(w, moves), c)
  }

  /** These moves are so many turns. */
  ghost predicate TurnsOf(w: World, moves: seq<Move>, others: Others, tick: nat, t: nat, c: nat, turns: nat)
    decreases turns
  {
    if turns == 0 then moves == [] && t == tick
    else
      exists k: nat, mid: nat ::
        && k <= |moves|
        && TurnsOf(w, moves[..k], others, tick, mid, c, turns - 1)
        && TurnOf(Run(w, moves[..k]), moves[k..], others, mid, t, c)
  }

  lemma OneMoreTurn(w: World, moves: seq<Move>, more: seq<Move>, others: Others, tick: nat, mid: nat, t: nat,
                    c: nat, turns: nat)
    requires TurnsOf(w, moves, others, tick, mid, c, turns) && TurnOf(Run(w, moves), more, others, mid, t, c)
    ensures TurnsOf(w, moves + more, others, tick, t, c, turns + 1)
  {
    var k := |moves|;
    assert (moves + more)[..k] == moves && (moves + more)[k..] == more;
  }

  /** These moves engage until the consumer listens, at move `k`, take so many turns, and stop. */
  ghost predicate ServesFrom(w: World, moves: seq<Move>, k: nat, others: Others, t0: nat, t1: nat, c: nat,
                             turns: nat)
  {
    && k < |moves| && Listens(Run(w, moves[..k]), c)
    && TurnsOf(Run(w, moves[..k]), moves[k..|moves| - 1], others, t0, t1, c, turns)
    && moves[|moves| - 1] == Stop(c)
  }

  ghost predicate Serves(w: World, moves: seq<Move>, others: Others, c: nat, turns: nat) {
    exists k: nat, t0: nat, t1: nat :: ServesFrom(w, moves, k, others, t0, t1, c, turns)
  }

  lemma ServesOnce(w: World, engages: seq<Move>, listens: seq<Move>, others: Others, t0: nat, t1: nat, c: nat,
                   turns: nat)
    requires Listens(Run(w, engages), c) && TurnsOf(Run(w, engages), listens, others, t0, t1, c, turns)
    ensures Serves(w, engages + listens + [Stop(c)], others, c, turns)
  {
    var (moves, k) := (engages + listens + [Stop(c)], |engages|);
    assert moves[..k] == engages && moves[k..|moves| - 1] == listens;
    assert ServesFrom(w, moves, k, others, t0, t1, c, turns);
  }

  /** Falls with every look-up. */
  function Left(stage: Stage): nat {
    if stage.Fetching? then |stage.todo| + 1 else 0
  }

  /** The clusters a consumer has found and has still to engage. */
  function Found(stage: Stage): map<nat, nat> {
    match stage
    case Fetching(_, found) => found
    case Engaging(rest) => rest
    case _ => map[]
  }

  lemma FoundAgain(rest: map<nat, nat>)
    ensures Found(EngagingFrom(rest)) == rest
  {
  }

  /** Of each of these clusters the consumer has yet to look up the name, or has found a generation
      no older. */
  ghost predicate Gathers(stage: Stage, was: map<nat, nat>) {
    if stage.Fetching? then
      && stage.todo != {}
      && forall name :: name in was && name !in stage.todo ==> name in stage.found && was[name] <= stage.found[name]
    else Earlier(was, Found(stage)) && stage == EngagingFrom(Found(stage))
  }

  lemma GathersNext(todo: set<nat>, found: map<nat, nat>, name: nat, generation: nat, was: map<nat, nat>)
    requires Gathers(Fetching(todo, found), was) && name in todo && (name in was ==> was[name] <= generation)
    ensures Gathers(FetchingFrom(todo - {name}, found[name := generation]), was)
  {
    if todo == {name} {
      assert todo - {name} == {};
    }
  }

  ghost predicate MetBut(engaged: set<Engagement>, runnable: nat, was: map<nat, nat>, rest: map<nat, nat>) {
    forall name :: name in was ==>
      || (name in rest && was[name] <= rest[name])
      || exists e: Engagement :: e in engaged && e.runnable == runnable && e.name == name && was[name] <= e.generation
  }

  /** The runnable has engaged each of these clusters, in this generation or a later one. */
  ghost predicate Met(engaged: set<Engagement>, runnable: nat, was: map<nat, nat>) {
    MetBut(engaged, runnable, was, map[])
  }

  lemma MetStart(engaged: set<Engagement>, runnable: nat, was: map<nat, nat>, rest: map<nat, nat>)
    requires Earlier(was, rest)
    ensures MetBut(engaged, runnable, was, rest)
  {
  }

  lemma MetNext(engaged: set<Engagement>, engaged': set<Engagement>, runnable: nat, was: map<nat, nat>,
                rest: map<nat, nat>, name: nat)
    requires MetBut(engaged, runnable, was, rest) && name in rest && engaged <= engaged'
    requires Engagement(runnable, name, rest[name]) in engaged'
    ensures MetBut(engaged', runnable, was, rest - {name})
  {
  }

  /** The runnables behind one manager with the routines registered for them, and the clusters, the
      channel and the consumers they share. */
  class LeaderRunnable {
    var runnables: seq<int>
    var routines: seq<(nat, bool)>       // an index of a runnable, and whether this is its Warmup
    var clusters: map<nat, nat>
    var clock: nat
    var unsignalled: nat
    var full: bool
    var consumers: seq<Consumer>
    var engaged: set<Engagement>

    function Snapshot(): World
      reads this
    {
      World(clusters, clock, unsignalled, full, consumers, engaged)
    }

    /** Routines and consumers are those of registered runnables; names listed are of clusters. */
    ghost predicate Valid()
      reads this
    {
      && (forall k :: 0 <= k < |routines| ==> routines[k].0 < |runnables|)
      && Below(Snapshot(), |runnables|)
      && Inv(Snapshot())
    }

    constructor (names: set<nat>)
      ensures Valid() && Snapshot() == Boot(names) && runnables == [] && routines == []
    {
      runnables, routines := [], [];
      clusters := map x | x in names :: 0;
      clock, unsignalled, full, consumers, engaged := 0, 0, false, [], {};
    }

    /** A runnable that can warm up is registered twice, its Warmup first. */
    method Add(r: int, warmsUp: bool)
      requires Valid()
      modifies this`runnables, this`routines
      ensures Valid() && runnables == old(runnables) + [r]
      ensures var i := |old(runnables)|;
              routines == old(routines) + if warmsUp then [(i, true), (i, false)] else [(i, false)]
    {
      var i := |runnables|;
      runnables := runnables + [r];
      if warmsUp {
        routines := routines + [(i, true)];
      }
      routines := routines + [(i, false)];
    }

    /** Adds a cluster or a new generation of it and signals, without blocking on a full channel. */
    method AddOrReplaceCluster(name: nat)
      modifies this`clusters, this`clock, this`full
      ensures Snapshot() == Run(old(Snapshot()), [AddOrReplace(name), Signal])
    {
      RunTwo(Snapshot(), AddOrReplace(name), Signal);
      clock := clock + 1;
      clusters := clusters[name := clock];
      if !full {
        full := true;
      }
    }

    /** Everyone else's moves. */
    method Environment(moves: seq<Move>)
      modifies this`clusters, this`clock, this`unsignalled, this`full, this`consumers, this`engaged
      ensures Snapshot() == Run(old(Snapshot()), moves)
    {
      var w := Run(Snapshot(), moves);
      clusters, clock, unsignalled, full := w.clusters, w.clock, w.unsignalled, w.full;
      consumers, engaged := w.consumers, w.engaged;
    }

    /** The others' moves, then the listing of the names. */
    method ListNames(c: nat, others: seq<Move>) returns (ghost moves: seq<Move>)
      requires Inv(Snapshot()) && c < |consumers| && consumers[c].stage.Woken?
      requires forall m :: m in others ==> !ActsOn(m, c)
      modifies this`clusters, this`clock, this`unsignalled, this`full, this`consumers, this`engaged
      ensures moves == others + [List(c)] && Snapshot() == Run(old(Snapshot()), moves) && Inv(Snapshot())
      ensures Earlier(old(clusters), clusters) && old(engaged) <= engaged && c < |consumers|
      ensures consumers[c] == Consumer(old(consumers[c].runnable), FetchingFrom(clusters.Keys, map[]))
    {
      ghost var w := Snapshot();
      Environment(others);
      RunApart(w, others, c);
      consumers := consumers[c := consumers[c].(stage := FetchingFrom(clusters.Keys, map[]))];
      moves := others + [List(c)];
      RunMore(w, others, List(c));
      RunInv(w, moves);
    }

    /** The others' moves, then the look-up of one name. */
    method LookUp(c: nat, others: seq<Move>, ghost was: map<nat, nat>) returns (ghost moves: seq<Move>)
      requires Inv(Snapshot()) && c < |consumers| && consumers[c].stage.Fetching?
      requires Gathers(consumers[c].stage, was) && Earlier(was, clusters)
      requires Among(others, |runnables|) && forall m :: m in others ==> !ActsOn(m, c)
      modifies this`clusters, this`clock, this`unsignalled, this`full, this`consumers, this`engaged
      ensures Went(old(Snapshot()), moves, Snapshot(), |runnables|)
      ensures c < |consumers| && consumers[c].runnable == old(consumers[c].runnable)
      ensures Gathers(consumers[c].stage, was) && Earlier(was, clusters)
      ensures Left(consumers[c].stage) < old(Left(consumers[c].stage))
    {
      ghost var w := Snapshot();
      var stage := consumers[c].stage;
      var name :| name in stage.todo;
      Environment(others);
      RunApart(w, others, c);
      GathersNext(stage.todo, stage.found, name, clusters[name], was);
      stage := FetchingFrom(stage.todo - {name}, stage.found[name := clusters[name]]);
      consumers := consumers[c := consumers[c].(stage := stage)];
      moves := others + [Fetch(c, name)];
      WentTo(w, others, Fetch(c, name), Snapshot(), |runnables|);
    }

    /** The others' moves, then one engagement. */
    method EngageOne(c: nat, others: seq<Move>, ghost was: map<nat, nat>) returns (ghost moves: seq<Move>)
      requires Inv(Snapshot()) && c < |consumers| && consumers[c].stage.Engaging? && consumers[c].stage.rest != map[]
      requires MetBut(engaged, consumers[c].runnable, was, consumers[c].stage.rest)
      requires Among(others, |runnables|) && forall m :: m in others ==> !ActsOn(m, c)
      modifies this`clusters, this`clock, this`unsignalled, this`full, this`consumers, this`engaged
      ensures Went(old(Snapshot()), moves, Snapshot(), |runnables|)
      ensures c < |consumers| && consumers[c].runnable == old(consumers[c].runnable)
      ensures consumers[c].stage == EngagingFrom(Found(consumers[c].stage))
      ensures MetBut(engaged, consumers[c].runnable, was, Found(consumers[c].stage))
      ensures |Found(consumers[c].stage).Keys| < old(|consumers[c].stage.rest.Keys|)
    {
      ghost var w := Snapshot();
      var (r, rest) := (consumers[c].runnable, consumers[c].stage.rest);
      var name :| name in rest.Keys;
      Environment(others);
      RunApart(w, others, c);
      engaged := engaged + {Engagement(r, name, rest[name])};
      MetNext(w.engaged, engaged, r, was, rest, name);
      consumers := consumers[c := Consumer(r, EngagingFrom(rest - {name}))];
      FoundAgain(rest - {name});
      assert (rest - {name}).Keys == rest.Keys - {name};
      moves := others + [Engage(c, name)];
      WentTo(w, others, Engage(c, name), Snapshot(), |runnables|);
    }

    /** Looks the names listed up one by one, finding each in a generation no older than `was`. */
    method LookUpAll(c: nat, others: Others, tick: nat, ghost was: map<nat, nat>)
      returns (t: nat, ghost moves: seq<Move>)
      requires Inv(Snapshot()) && c < |consumers| && consumers[c].stage == FetchingFrom(clusters.Keys, map[])
      requires Earlier(was, clusters) && Apart(others, c, |runnables|)
      modifies this`clusters, this`clock, this`unsignalled, this`full, this`consumers, this`engaged
      ensures Went(old(Snapshot()), moves, Snapshot(), |runnables|) && tick <= t
      ensures c < |consumers| && consumers[c].runnable == old(consumers[c].runnable)
      ensures Earlier(was, Found(consumers[c].stage)) && consumers[c].stage == EngagingFrom(Found(consumers[c].stage))
    {
      ghost var (w, more) := (Snapshot(), []);
      t, moves := tick, [];
      while consumers[c].stage.Fetching?
        invariant c < |consumers| && consumers[c].runnable == w.consumers[c].runnable
        invariant Gathers(consumers[c].stage, was) && Earlier(was, clusters)
        invariant Went(w, moves, Snapshot(), |runnables|) && tick <= t
        decreases Left(consumers[c].stage)
      {
        ghost var mid := Snapshot();
        more := LookUp(c, others(t), was);
        WentOn(w, moves, mid, more, Snapshot(), |runnables|);
        t, moves := t + 1, moves + more;
      }
    }

    /** Engages with the clusters found one by one. */
    method EngageAll(c: nat, others: Others, tick: nat, ghost was: map<nat, nat>)
      returns (t: nat, ghost moves: seq<Move>)
      requires Inv(Snapshot()) && c < |consumers| && Apart(others, c, |runnables|)
      requires Earlier(was, Found(consumers[c].stage)) && consumers[c].stage == EngagingFrom(Found(consumers[c].stage))
      modifies this`clusters, this`clock, this`unsignalled, this`full, this`consumers, this`engaged
      ensures Went(old(Snapshot()), moves, Snapshot(), |runnables|) && tick <= t
      ensures c < |consumers| && consumers[c] == Consumer(old(consumers[c].runnable), Listening)
      ensures Met(engaged, consumers[c].runnable, was)
    {
      ghost var (w, more) := (Snapshot(), []);
      MetStart(engaged, consumers[c].runnable, was, Found(consumers[c].stage));
      t, moves := tick, [];
      while consumers[c].stage.Engaging?
        invariant c < |consumers| && consumers[c].runnable == w.consumers[c].runnable
        invariant consumers[c].stage == EngagingFrom(Found(consumers[c].stage))
        invariant MetBut(engaged, consumers[c].runnable, was, Found(consumers[c].stage))
        invariant Went(w, moves, Snapshot(), |runnables|) && tick <= t
        decreases |Found(consumers[c].stage).Keys|
      {
        ghost var mid := Snapshot();
        more := EngageOne(c, others(t), was);
        WentOn(w, moves, mid, more, Snapshot(), |runnables|);
        t, moves := t + 1, moves + more;
      }
    }

    /** Engages with every cluster there is at the call, in a generation no older than it then has:
        lists their names, looks each one up and engages each one found, while the others go on. */
    method DoEngage(c: nat, others: Others, tick: nat) returns (t: nat, ghost moves: seq<Move>)
      requires Inv(Snapshot()) && c < |consumers| && consumers[c].stage.Woken? && Apart(others, c, |runnables|)
      modifies this`clusters, this`clock, this`unsignalled, this`full, this`consumers, this`engaged
      ensures Went(old(Snapshot()), moves, Snapshot(), |runnables|) && tick < t
      ensures c < |consumers| && consumers[c] == Consumer(old(consumers[c].runnable), Listening)
      ensures Met(engaged, consumers[c].runnable, old(clusters))
    {
      ghost var (w, was, more) := (Snapshot(), clusters, []);
      moves := ListNames(c, others(tick));
      ghost var mid := Snapshot();
      t, more := LookUpAll(c, others, tick + 1, was);
      WentOn(w, moves, mid, more, Snapshot(), |runnables|);
      moves, mid := moves + more, Snapshot();
      t, more := EngageAll(c, others, t, was);
      WentOn(w, moves, mid, more, Snapshot(), |runnables|);
      moves := moves + more;
    }

    /** One turn of the loop: the others' moves, then, if the channel holds a token, its receipt and
        another round of engagements. */
    method Turn(c: nat, others: Others, tick: nat) returns (t: nat, ghost moves: seq<Move>)
      requires Inv(Snapshot()) && c < |consumers| && consumers[c].stage.Listening? && Apart(others, c, |runnables|)
      modifies this`clusters, this`clock, this`unsignalled, this`full, this`consumers, this`engaged
      ensures Went(old(Snapshot()), moves, Snapshot(), |runnables|)
      ensures c < |consumers| && consumers[c] == old(consumers[c])
      ensures var w := Run(old(Snapshot()), others(tick));
              if !w.full then moves == others(tick)
              else others(tick) + [Receive(c)] <= moves && Met(engaged, consumers[c].runnable, w.clusters)
      ensures TurnOf(old(Snapshot()), moves, others, tick, t, c)
    {
      ghost var w := Snapshot();
      Environment(others(tick));
      RunApart(w, others(tick), c);
      t, moves := tick + 1, others(tick);
      if full {
        full := false;
        consumers := consumers[c := consumers[c].(stage := Woken)];
        ghost var (received, more) := (Snapshot(), []);
        WentTo(w, moves, Receive(c), received, |runnables|);
        moves := moves + [Receive(c)];
        t, more := DoEngage(c, others, t);
        WentOn(w, moves, received, more, Snapshot(), |runnables|);
        moves := moves + more;
      }
    }

    /** So many turns of the loop. */
    method Listen(c: nat, others: Others, tick: nat, turns: nat) returns (t: nat, ghost moves: seq<Move>)
      requires Inv(Snapshot()) && Listens(Snapshot(), c) && Apart(others, c, |runnables|)
      modifies this`clusters, this`clock, this`unsignalled, this`full, this`consumers, this`engaged
      ensures Went(old(Snapshot()), moves, Snapshot(), |runnables|)
      ensures c < |consumers| && consumers[c] == old(consumers[c])
      ensures TurnsOf(old(Snapshot()), moves, others, tick, t, c, turns)
    {
      ghost var (w, more) := (Snapshot(), []);
      t, moves := tick, [];
      for i := 0 to turns
        invariant c < |consumers| && consumers[c] == w.consumers[c]
        invariant Went(w, moves, Snapshot(), |runnables|)
        invariant TurnsOf(w, moves, others, tick, t, c, i)
      {
        ghost var (before, mid) := (Snapshot(), t);
        t, more := Turn(c, others, t);
        OneMoreTurn(w, moves, more, others, tick, mid, t, c, i);
        WentOn(w, moves, before, more, Snapshot(), |runnables|);
        moves := moves + more;
      }
    }

    /** A new consumer, woken. */
    method Launch(runnable: nat) returns (c: nat, ghost moves: seq<Move>)
      requires Inv(Snapshot())
      modifies this`consumers
      ensures moves == [StartConsumer(runnable)] && Snapshot() == Run(old(Snapshot()), moves) && Inv(Snapshot())
      ensures c == |old(consumers)| && consumers == old(consumers) + [Consumer(runnable, Woken)]
    {
      c, moves := |consumers|, [StartConsumer(runnable)];
      RunMore(Snapshot(), [], StartConsumer(runnable));
      assert [] + moves == moves;
      RunInv(Snapshot(), moves);
      consumers := consumers + [Consumer(runnable, Woken)];
    }

    /** The cancellation of a listening consumer. */
    method End(c: nat, ghost w: World, ghost past: seq<Move>)
      requires Inv(w) && Went(w, past, Snapshot(), |runnables|) && Listens(Snapshot(), c)
      modifies this`consumers
      ensures Went(w, past + [Stop(c)], Snapshot(), |runnables|)
      ensures consumers == old(consumers)[c := Consumer(old(consumers[c].runnable), Stopped)]
    {
      consumers := consumers[c := consumers[c].(stage := Stopped)];
      WentTo(w, past, Stop(c), Snapshot(), |runnables|);
    }

    /** Engages at once, then listens for so many turns, until cancelled. */
    method EngageAndListen(c: nat, others: Others, turns: nat) returns (ghost moves: seq<Move>)
      requires Inv(Snapshot()) && c < |consumers| && consumers[c].stage.Woken? && Apart(others, c, |runnables|)
      modifies this`clusters, this`clock, this`unsignalled, this`full, this`consumers, this`engaged
      ensures Went(old(Snapshot()), moves, Snapshot(), |runnables|)
      ensures c < |consumers| && consumers[c] == Consumer(old(consumers[c].runnable), Stopped)
      ensures Met(engaged, consumers[c].runnable, old(clusters))
      ensures Serves(old(Snapshot()), moves, others, c, turns)
    {
      ghost var (w, listens) := (Snapshot(), []);
      var t;
      t, moves := DoEngage(c, others, 0);
      ghost var (met, t0) := (Snapshot(), t);
      t, listens := Listen(c, others, t, turns);
      ServesOnce(w, moves, listens, others, t0, t, c, turns);
      RunKeeps(met, listens);
      WentOn(w, moves, met, listens, Snapshot(), |runnables|);
      moves := moves + listens;
      End(c, w, moves);
      moves := moves + [Stop(c)];
    }

    /** A registered routine from its start to its cancellation. */
    method WrapStart(k: nat, others: Others, turns: nat) returns (ghost moves: seq<Move>)
      requires Valid() && k < |routines| && Apart(others, |consumers|, |runnables|)
      modifies this`clusters, this`clock, this`unsignalled, this`full, this`consumers, this`engaged
      ensures Valid() && Snapshot() == Run(old(Snapshot()), moves) && Among(moves, |runnables|)
      ensures |old(consumers)| < |consumers| && consumers[|old(consumers)|] == Consumer(routines[k].0, Stopped)
      ensures Met(engaged, routines[k].0, old(clusters))
      ensures moves != [] && moves[0] == StartConsumer(routines[k].0)
      ensures Serves(Next(old(Snapshot()), moves[0]), moves[1..], others, |old(consumers)|, turns)
    {
      ghost var (w, more) := (Snapshot(), []);
      var c;
      c, moves := Launch(routines[k].0);
      more := EngageAndListen(c, others, turns);
      RunConcat(w, moves, more);
      assert Run(w, moves) == Next(w, moves[0]) && (moves + more)[1..] == more;
      moves := moves + more;
      RunBelow(w, moves, |runnables|);
    }
  }
}
