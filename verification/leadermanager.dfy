/** The routines a leader runs (leader.go), started under the contexts of the raft loop.

    A start callback runs some time after the loop hands it a context, perhaps after that context
    was cancelled; it starts one goroutine per routine registered by then.  A goroutine invokes
    its routine again and again until it notices that its context is done. */
module LeaderManager {
  import opened Wrappers
  import opened RaftLoop

  datatype Stage =
    | Poised            // about to invoke its routine
    | Running          // inside the routine
    | Returned         // the routine returned; about to look at the context
    | Waiting          // waiting for the context or for the timer
    | Ended

  /** `late` counts the invocations begun after the context was done. */
  datatype Goroutine = Goroutine(ctx: nat, fn: int, stage: Stage, late: nat)

  /** The loop, whether the outer context is done and noticed, the start callbacks not yet run,
      the registered routines, what was registered when each context's callback ran, and the
      goroutines started so far. */
  datatype World = World(loop: Loop, done: bool, halted: bool, pending: seq<nat>, routines: seq<int>,
                         started: map<nat, seq<int>>, goroutines: seq<Goroutine>)

  const IDLE := World(FRESH, false, false, [], [], map[], [])

  datatype Move =
    | Observation(nowLeader: bool)
    | OuterDone
    | LoopEnds
    | CallbackRuns(k: nat)
    | Register(fn: int)
    | Advance(g: nat, timer: bool)

  predicate Dead(w: World, ctx: nat) { w.done || ctx in w.loop.cancelled }

  /** The goroutines a start callback launches. */
  function Launched(routines: seq<int>, ctx: nat): (gs: seq<Goroutine>)
    ensures |gs| == |routines|
  {
    seq(|routines|, i requires 0 <= i < |routines| => Goroutine(ctx, routines[i], Poised, 0))
  }

  /** One step of a goroutine.  While waiting with both the context and the timer ready, either
      may be taken; right after the routine returns, a done context is always noticed. */
  function Stepped(g: Goroutine, dead: bool, timer: bool): Goroutine {
    match g.stage
    case Poised => g.(stage := Running, late := if dead then g.late + 1 else g.late)
    case Running => g.(stage := Returned)
    case Returned => g.(stage := if dead then Ended else Waiting)
    case Waiting => if timer then g.(stage := Poised) else if dead then g.(stage := Ended) else g
    case Ended => g
  }

  function Next(w: World, move: Move, reset: bool): World {
    match move
    case Observation(nowLeader) =>
      if w.halted then w
      else
        var loop := Observe(w.loop, nowLeader, reset);
        w.(loop := loop,
           pending := if |loop.calls| > |w.loop.calls| && nowLeader then w.pending + [w.loop.ctx] else w.pending)
    case OuterDone => w.(done := true)
    case LoopEnds => if w.halted || !w.done then w else w.(loop := Halt(w.loop), halted := true)
    case CallbackRuns(k) =>
      if |w.pending| <= k then w
      else
        var ctx := w.pending[k];
        w.(pending := w.pending[..k] + w.pending[k + 1..],
           started := w.started[ctx := w.routines],
           goroutines := w.goroutines + Launched(w.routines, ctx))
    case Register(fn) => w.(routines := w.routines + [fn])
    case Advance(g, timer) =>
      if |w.goroutines| <= g then w
      else
        var go := w.goroutines[g];
        w.(goroutines := w.goroutines[g := Stepped(go, Dead(w, go.ctx), timer)])
  }

  function Run(w: World, moves: seq<Move>, reset: bool): World
    decreases |moves|
  {
    if moves == [] then w else Run(Next(w, moves[0], reset), moves[1..], reset)
  }

  /** The routines of the goroutines under `ctx`, in order. */
  function Under(gs: seq<Goroutine>, ctx: nat): seq<int> {
    if gs == [] then []
    else Under(gs[..|gs| - 1], ctx) + if gs[|gs| - 1].ctx == ctx then [gs[|gs| - 1].fn] else []
  }

  lemma UnderOne(gs: seq<Goroutine>, g: Goroutine, c: nat)
    ensures Under(gs + [g], c) == Under(gs, c) + if g.ctx == c then [g.fn] else []
  {
    assert (gs + [g])[..|gs|] == gs;
  }

  lemma LaunchedOneMore(routines: seq<int>, ctx: nat)
    requires routines != []
    ensures var n := |routines| - 1;
            Launched(routines, ctx) == Launched(routines[..n], ctx) + [Goroutine(ctx, routines[n], Poised, 0)]
  {
  }

  lemma {:induction false} UnderAppend(gs: seq<Goroutine>, routines: seq<int>, ctx: nat, c: nat)
    ensures Under(gs + Launched(routines, ctx), c) == Under(gs, c) + if c == ctx then routines else []
  {
    if routines == [] {
      assert gs + Launched(routines, ctx) == gs;
    } else {
      var n := |routines| - 1;
      var (first, last) := (Launched(routines[..n], ctx), Goroutine(ctx, routines[n], Poised, 0));
      UnderAppend(gs, routines[..n], ctx, c);
      LaunchedOneMore(routines, ctx);
      assert gs + (first + [last]) == (gs + first) + [last];
      UnderOne(gs + first, last, c);
      assert routines == routines[..n] + [routines[n]];
    }
  }

  lemma {:induction false} UnderUpdate(gs: seq<Goroutine>, i: nat, g: Goroutine, c: nat)
    requires i < |gs| && g.ctx == gs[i].ctx && g.fn == gs[i].fn
    ensures Under(gs[i := g], c) == Under(gs, c)
  {
    var n := |gs| - 1;
    if i == n {
      assert gs[i := g][..n] == gs[..n];
    } else {
      UnderUpdate(gs[..n], i, g, c);
      assert gs[i := g][..n] == gs[..n][i := g];
    }
  }

  ghost predicate Handed(w: World, ctx: nat) { Callback.Started(ctx) in w.loop.calls }

  /** A goroutine has begun at most one invocation since its context was done, one that has is not
      about to begin another, and none has ended before its context was done. */
  ghost predicate Obedient(w: World, g: Goroutine) {
    && g.late <= 1
    && (g.late == 1 ==> Dead(w, g.ctx) && (g.stage.Running? || g.stage.Returned? || g.stage.Ended?))
    && (g.stage.Ended? ==> Dead(w, g.ctx))
  }

  /** Contexts whose callbacks have not run were handed out, once each, and no others were. */
  ghost predicate PendingInv(w: World) {
    && (forall c :: c in w.pending ==> Handed(w, c) && c !in w.started) && Distinct(w.pending)
    && (forall c: nat :: Handed(w, c) ==> c in w.pending || c in w.started)
  }

  /** Under each context run the routines registered when its callback ran, if it has run. */
  ghost predicate StartedInv(w: World) {
    && (forall c :: c in w.started ==> Handed(w, c) && Under(w.goroutines, c) == w.started[c])
    && (forall c: nat :: c !in w.started ==> Under(w.goroutines, c) == [])
  }

  ghost predicate AllObedient(w: World) {
    forall i :: 0 <= i < |w.goroutines| ==> Obedient(w, w.goroutines[i])
  }

  ghost predicate Inv(w: World) {
    ContextsInv(w.loop) && PendingInv(w) && StartedInv(w) && AllObedient(w)
  }

  lemma ObservationPending(w: World, nowLeader: bool, reset: bool)
    requires ContextsInv(w.loop) && PendingInv(w) && StartedInv(w) && !w.halted
    ensures PendingInv(Next(w, Observation(nowLeader), reset))
  {
    var w' := Next(w, Observation(nowLeader), reset);
    assert forall c: nat :: Handed(w, c) ==> Handed(w', c);
    if |w'.loop.calls| > |w.loop.calls| && nowLeader {
      assert w'.loop.calls[|w.loop.calls|] == Callback.Started(w.loop.ctx);
      assert !w.loop.isLeader && !Handed(w, w.loop.ctx);
    }
  }

  lemma ObservationInv(w: World, nowLeader: bool, reset: bool)
    requires Inv(w) && !w.halted
    ensures Inv(Next(w, Observation(nowLeader), reset))
  {
    var w' := Next(w, Observation(nowLeader), reset);
    ObserveContexts(w.loop, nowLeader, reset);
    ObservationPending(w, nowLeader, reset);
    assert StartedInv(w') by {
      assert forall c: nat :: Handed(w, c) ==> Handed(w', c);
    }
    forall i | 0 <= i < |w.goroutines| ensures Obedient(w', w'.goroutines[i]) {
      assert Obedient(w, w.goroutines[i]);
    }
  }

  lemma Remove(s: seq<nat>, k: nat) returns (rest: seq<nat>)
    requires Distinct(s) && k < |s|
    ensures rest == s[..k] + s[k + 1..] && Distinct(rest)
    ensures forall x :: x in rest ==> x in s && x != s[k]
  {
    rest := s[..k] + s[k + 1..];
  }

  lemma CallbackPending(w: World, k: nat, reset: bool)
    requires PendingInv(w) && k < |w.pending|
    ensures PendingInv(Next(w, CallbackRuns(k), reset))
  {
    var rest := Remove(w.pending, k);
    var w' := Next(w, CallbackRuns(k), reset);
    assert forall c :: Handed(w, c) ==> Handed(w', c);
  }

  lemma CallbackStarted(w: World, k: nat, reset: bool)
    requires PendingInv(w) && StartedInv(w) && k < |w.pending|
    ensures StartedInv(Next(w, CallbackRuns(k), reset))
  {
    var (w', ctx) := (Next(w, CallbackRuns(k), reset), w.pending[k]);
    assert Handed(w, ctx) && ctx !in w.started;
    forall c: nat ensures Under(w'.goroutines, c) == Under(w.goroutines, c) + if c == ctx then w.routines else [] {
      UnderAppend(w.goroutines, w.routines, ctx, c);
    }
    forall c | c in w'.started ensures Handed(w', c) && Under(w'.goroutines, c) == w'.started[c] {
      assert Handed(w, c);
    }
  }

  lemma CallbackObedient(w: World, k: nat, reset: bool)
    requires AllObedient(w) && k < |w.pending|
    ensures AllObedient(Next(w, CallbackRuns(k), reset))
  {
    var w' := Next(w, CallbackRuns(k), reset);
    forall i | 0 <= i < |w'.goroutines| ensures Obedient(w', w'.goroutines[i]) {
      if i < |w.goroutines| {
        assert Obedient(w, w.goroutines[i]);
      }
    }
  }

  lemma CallbackInv(w: World, k: nat, reset: bool)
    requires Inv(w) && k < |w.pending|
    ensures Inv(Next(w, CallbackRuns(k), reset))
  {
    CallbackPending(w, k, reset);
    CallbackStarted(w, k, reset);
    CallbackObedient(w, k, reset);
  }

  lemma AdvanceInv(w: World, g: nat, timer: bool, reset: bool)
    requires Inv(w) && g < |w.goroutines|
    ensures Inv(Next(w, Advance(g, timer), reset))
  {
    var w' := Next(w, Advance(g, timer), reset);
    forall c: nat ensures Under(w'.goroutines, c) == Under(w.goroutines, c) {
      UnderUpdate(w.goroutines, g, w'.goroutines[g], c);
    }
    forall i | 0 <= i < |w'.goroutines| ensures Obedient(w', w'.goroutines[i]) {
      assert Obedient(w, w.goroutines[i]);
    }
  }

  lemma NextInv(w: World, move: Move, reset: bool)
    requires Inv(w)
    ensures Inv(Next(w, move, reset))
  {
    var w' := Next(w, move, reset);
    match move {
      case Observation(nowLeader) => if !w.halted { ObservationInv(w, nowLeader, reset); }
      case CallbackRuns(k) => if k < |w.pending| { CallbackInv(w, k, reset); }
      case Advance(g, timer) => if g < |w.goroutines| { AdvanceInv(w, g, timer, reset); }
      case LoopEnds =>
        assert forall c: nat :: Handed(w, c) <==> Handed(w', c);
        assert forall i :: 0 <= i < |w.goroutines| ==> Obedient(w, w.goroutines[i]) && Obedient(w', w.goroutines[i]);
      case OuterDone =>
        assert forall i :: 0 <= i < |w.goroutines| ==> Obedient(w, w.goroutines[i]) && Obedient(w', w.goroutines[i]);
      case Register(_) =>
        assert forall i :: 0 <= i < |w.goroutines| ==> Obedient(w, w.goroutines[i]) && Obedient(w', w.goroutines[i]);
    }
  }

  lemma {:induction false} RunInv(w: World, moves: seq<Move>, reset: bool)
    requires Inv(w)
    ensures Inv(Run(w, moves, reset))
    decreases |moves|
  {
    if moves != [] {
      NextInv(w, moves[0], reset);
      RunInv(Next(w, moves[0], reset), moves[1..], reset);
    }
  }

  /** Goroutines that have not ended and whose context is not done. */
  function Live(w: World, gs: seq<Goroutine>): nat {
    if gs == [] then 0
    else
      var g := gs[|gs| - 1];
      Live(w, gs[..|gs| - 1]) + if !g.stage.Ended? && !Dead(w, g.ctx) then 1 else 0
  }

  lemma {:induction false} LiveUnder(w: World, gs: seq<Goroutine>, ctx: nat)
    requires forall i :: 0 <= i < |gs| && !Dead(w, gs[i].ctx) ==> gs[i].ctx == ctx
    requires forall i :: 0 <= i < |gs| && gs[i].stage.Ended? ==> Dead(w, gs[i].ctx)
    ensures Live(w, gs) == if Dead(w, ctx) then 0 else |Under(gs, ctx)|
  {
    if gs != [] {
      LiveUnder(w, gs[..|gs| - 1], ctx);
    }
  }

  lemma {:induction false} UnderMember(gs: seq<Goroutine>, i: nat)
    requires i < |gs|
    ensures Under(gs, gs[i].ctx) != []
  {
    if i < |gs| - 1 {
      UnderMember(gs[..|gs| - 1], i);
    }
  }

  /** In every run, with the loop as written or reset: at most one context handed to a start
      callback is live; the goroutines under it are the routines registered when its callback
      ran, one each, all of them live; and no other goroutine is live. */
  lemma LiveGoroutinesBounded(moves: seq<Move>, reset: bool)
    ensures var w := Run(IDLE, moves, reset);
            && (forall c: nat, d: nat :: Handed(w, c) && Handed(w, d) && !Dead(w, c) && !Dead(w, d) ==> c == d)
            && (forall c :: c in w.started ==> Under(w.goroutines, c) == w.started[c])
            && Live(w, w.goroutines)
               == if !Dead(w, w.loop.ctx) && w.loop.ctx in w.started then |w.started[w.loop.ctx]| else 0
  {
    var w := Run(IDLE, moves, reset);
    RunInv(IDLE, moves, reset);
    forall i | 0 <= i < |w.goroutines| && !Dead(w, w.goroutines[i].ctx) ensures w.goroutines[i].ctx == w.loop.ctx {
      UnderMember(w.goroutines, i);
      assert Handed(w, w.goroutines[i].ctx);
    }
    forall i | 0 <= i < |w.goroutines| && w.goroutines[i].stage.Ended? ensures Dead(w, w.goroutines[i].ctx) {
      assert Obedient(w, w.goroutines[i]);
    }
    LiveUnder(w, w.goroutines, w.loop.ctx);
  }

  /** In every run a goroutine has ended only under a done context. */
  lemma EndedOnlyWhenDone(moves: seq<Move>, reset: bool, g: nat)
    requires g < |Run(IDLE, moves, reset).goroutines|
    ensures var w := Run(IDLE, moves, reset); w.goroutines[g].stage.Ended? ==> Dead(w, w.goroutines[g].ctx)
  {
    RunInv(IDLE, moves, reset);
    assert Obedient(Run(IDLE, moves, reset), Run(IDLE, moves, reset).goroutines[g]);
  }

  /** The loop ends only when the outer context is done, and cancels its current context then. */
  ghost predicate EndsCancelled(w: World) { w.halted ==> w.done && w.loop.ctx in w.loop.cancelled }

  lemma {:induction false} RunEndsCancelled(w: World, moves: seq<Move>, reset: bool)
    requires EndsCancelled(w)
    ensures EndsCancelled(Run(w, moves, reset))
    decreases |moves|
  {
    if moves != [] {
      RunEndsCancelled(Next(w, moves[0], reset), moves[1..], reset);
    }
  }

  /** In every run, once the outer context is done no goroutine is live, however far the loop has got;
      and once the loop has ended it has itself cancelled every context it handed out. */
  lemma DoneEndsAll(moves: seq<Move>, reset: bool, c: nat)
    ensures var w := Run(IDLE, moves, reset);
            && (w.done ==> Live(w, w.goroutines) == 0)
            && (w.halted && Handed(w, c) ==> c in w.loop.cancelled)
  {
    var w := Run(IDLE, moves, reset);
    RunInv(IDLE, moves, reset);
    RunEndsCancelled(IDLE, moves, reset);
    LiveGoroutinesBounded(moves, reset);
  }

  /** In every run each context handed out awaits its start callback or has had it, never both. */
  lemma EveryStartRuns(moves: seq<Move>, reset: bool, c: nat)
    requires Handed(Run(IDLE, moves, reset), c)
    ensures var w := Run(IDLE, moves, reset); c in w.pending <==> c !in w.started
  {
    RunInv(IDLE, moves, reset);
  }

  /** The routines registered by these moves, in order. */
  function Registered(moves: seq<Move>): seq<int> {
    if moves == [] then []
    else (if moves[0].Register? then [moves[0].fn] else []) + Registered(moves[1..])
  }

  /** Routines stay registered, in the order of registration. */
  lemma {:induction false} RoutinesInOrder(w: World, moves: seq<Move>, reset: bool)
    ensures Run(w, moves, reset).routines == w.routines + Registered(moves)
    decreases |moves|
  {
    if moves != [] {
      var rest := Registered(moves[1..]);
      if moves[0].Register? {
        assert (w.routines + [moves[0].fn]) + rest == w.routines + ([moves[0].fn] + rest);
      } else {
        assert [] + rest == rest;
      }
      RoutinesInOrder(Next(w, moves[0], reset), moves[1..], reset);
    }
  }

  /** So many steps of goroutine `g` alone, its timer ready whenever it waits. */
  function Turned(w: World, reset: bool, g: nat, steps: nat): (w': World)
    requires g < |w.goroutines|
    ensures |w'.goroutines| == |w.goroutines|
  {
    if steps == 0 then w else Next(Turned(w, reset, g, steps - 1), Advance(g, true), reset)
  }

  /** The stage after a step under a live context with the timer ready. */
  function Following(stage: Stage): Stage {
    match stage
    case Poised => Running
    case Running => Returned
    case Returned => Waiting
    case Waiting => Poised
    case Ended => Ended
  }

  lemma TurnedOnce(w: World, reset: bool, g: nat, steps: nat, stage: Stage)
    requires g < |w.goroutines| && !Dead(w, w.goroutines[g].ctx)
    requires Turned(w, reset, g, steps) == w.(goroutines := w.goroutines[g := w.goroutines[g].(stage := stage)])
    ensures Turned(w, reset, g, steps + 1)
         == w.(goroutines := w.goroutines[g := w.goroutines[g].(stage := Following(stage))])
  {
  }

  /** A routine that returns is invoked again while its context is live: in every run a goroutine under a
      live context is brought round by four steps of its own, through an invocation and a wait, to where
      it stood; and without the timer it goes on waiting. */
  lemma RoutinesRetry(moves: seq<Move>, reset: bool, g: nat)
    requires g < |Run(IDLE, moves, reset).goroutines|
    requires var w := Run(IDLE, moves, reset); !Dead(w, w.goroutines[g].ctx)
    ensures var w := Run(IDLE, moves, reset);
            && Turned(w, reset, g, 4) == w
            && (exists k: nat :: k < 4 && Turned(w, reset, g, k).goroutines[g].stage.Running?)
            && (w.goroutines[g].stage.Waiting? ==> Next(w, Advance(g, false), reset).goroutines[g] == w.goroutines[g])
  {
    var w := Run(IDLE, moves, reset);
    EndedOnlyWhenDone(moves, reset, g);
    var s0 := w.goroutines[g].stage;
    var (s1, s2) := (Following(s0), Following(Following(s0)));
    assert w.goroutines[g := w.goroutines[g].(stage := s0)] == w.goroutines;
    TurnedOnce(w, reset, g, 0, s0);
    TurnedOnce(w, reset, g, 1, s1);
    TurnedOnce(w, reset, g, 2, s2);
    TurnedOnce(w, reset, g, 3, Following(s2));
    var k := match s0 case Running => 0 case Poised => 1 case Waiting => 2 case _ => 3;
    assert Turned(w, reset, g, k).goroutines[g].stage.Running?;
  }

  /** How many own steps a goroutine with a done context can still take. */
  function StepsLeft(g: Goroutine): nat {
    match g.stage
    case Waiting => 4
    case Poised => 3
    case Running => 2
    case Returned => 1
    case Ended => 0
  }

  /** In every run each goroutine begins at most one invocation after its context is done, and
      from then on every step of its own brings it closer to its end. */
  lemma GoroutinesEnd(moves: seq<Move>, reset: bool, g: nat, timer: bool)
    requires g < |Run(IDLE, moves, reset).goroutines|
    ensures var w := Run(IDLE, moves, reset);
            var (before, after) := (w.goroutines[g], Next(w, Advance(g, timer), reset).goroutines[g]);
            && before.late <= 1
            && (Dead(w, before.ctx) && !before.stage.Ended? ==> StepsLeft(after) < StepsLeft(before))
            && (before.late == 1 ==> !after.stage.Poised? && after.late == 1)
  {
    RunInv(IDLE, moves, reset);
    assert Obedient(Run(IDLE, moves, reset), Run(IDLE, moves, reset).goroutines[g]);
  }

  /** The manager: its routines, its leadership flag and the goroutines it has launched. */
  class Manager {
    var leaderRoutines: seq<int>
    var isLeader: bool
    var goroutines: seq<Goroutine>

    constructor ()
      ensures leaderRoutines == [] && !isLeader && goroutines == []
    {
      leaderRoutines, isLeader, goroutines := [], false, [];
    }

    method RegisterRoutine(fn: int)
      modifies this`leaderRoutines
      ensures leaderRoutines == old(leaderRoutines) + [fn]
    {
      leaderRoutines := leaderRoutines + [fn];
    }

    /** Launches one goroutine per registered routine, in order. */
    method RunLeaderRoutines(ctx: nat)
      modifies this`isLeader, this`goroutines
      ensures isLeader && goroutines == old(goroutines) + Launched(leaderRoutines, ctx)
      ensures Under(goroutines, ctx) == Under(old(goroutines), ctx) + leaderRoutines
    {
      UnderAppend(goroutines, leaderRoutines, ctx, ctx);
      isLeader := true;
      for i := 0 to |leaderRoutines|
        invariant isLeader && goroutines == old(goroutines) + Launched(leaderRoutines[..i], ctx)
      {
        goroutines := goroutines + [Goroutine(ctx, leaderRoutines[i], Poised, 0)];
      }
      assert leaderRoutines[..|leaderRoutines|] == leaderRoutines;
    }

    method StoppedLeading()
      modifies this`isLeader
      ensures !isLeader
    {
      isLeader := false;
    }
  }
}
